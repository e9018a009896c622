/** The exporter of the current tree: a `Generator` object that remembers the
    output folder and file-name postfix of a pass, the graph files it wrote and
    two "plots were made" flags, plus the line-counting paginator of its PDF
    dumps. Drawing, PDF layout and pickling are not modelled: a graph is the
    name of the file it is saved to, a PDF the range of lines it holds. */
module Exporter {
  import opened Wrappers
  import opened Records
  import opened Text
  import opened Seqs
  import opened Grouping
  import opened CsvExport

  /** A document is flushed once the running line count exceeds this. */
  const PdfLineLimit := 50000

  /** `str` of the output path, which is `None` before the first pass. */
  function PathText(p: Option<string>): string
  {
    if p.Some? then p.value else "None"
  }

  // ---------------------------------------------------------------------
  // Graph file names

  function GraphName(path: string, infix: string, index: nat, postfix: string): string
  {
    path + infix + NatToString(index) + postfix + ".jpg"
  }

  function PickleName(path: string, infix: string, index: nat, postfix: string): string
  {
    path + infix + NatToString(index) + postfix + ".p"
  }

  /** The names of the first `n` graphs of a run: index 0, 1, ... */
  function GraphNames(path: string, infix: string, postfix: string, n: nat): (r: seq<string>)
    ensures |r| == n
    ensures forall k :: 0 <= k < n ==> r[k] == GraphName(path, infix, k, postfix)
  {
    if n == 0 then [] else GraphNames(path, infix, postfix, n - 1) + [GraphName(path, infix, n - 1, postfix)]
  }

  function PickleNames(path: string, infix: string, postfix: string, n: nat): (r: seq<string>)
    ensures |r| == n
    ensures forall k :: 0 <= k < n ==> r[k] == PickleName(path, infix, k, postfix)
  {
    if n == 0 then [] else PickleNames(path, infix, postfix, n - 1) + [PickleName(path, infix, n - 1, postfix)]
  }

  lemma GraphNameInjective(path: string, infix: string, postfix: string, a: nat, b: nat)
    requires GraphName(path, infix, a, postfix) == GraphName(path, infix, b, postfix)
    ensures a == b
  {
    var sa, sb := NatToString(a), NatToString(b);
    var na, nb := GraphName(path, infix, a, postfix), GraphName(path, infix, b, postfix);
    var start := |path| + |infix|;
    assert |sa| == |sb|;
    assert na[start..start + |sa|] == sa;
    assert nb[start..start + |sb|] == sb;
    NatToStringInjective(a, b);
  }

  /** The graphs of one run are written to pairwise distinct files. */
  lemma GraphNamesDistinct(path: string, infix: string, postfix: string, n: nat)
    ensures NoDuplicates(GraphNames(path, infix, postfix, n))
  {
    var names := GraphNames(path, infix, postfix, n);
    forall i, j | 0 <= i < j < n ensures names[i] != names[j] {
      if names[i] == names[j] {
        GraphNameInjective(path, infix, postfix, i, j);
      }
    }
  }

  /** How many chunks come before the first empty one: the source reads
      `chunk[0]` of every chunk, so an empty chunk raises there. */
  function LeadingNonEmpty<T>(chunks: seq<seq<T>>): (n: nat)
    ensures n <= |chunks|
    ensures forall k :: 0 <= k < n ==> |chunks[k]| > 0
    ensures n < |chunks| ==> |chunks[n]| == 0
  {
    if |chunks| == 0 then 0
    else if |chunks[0]| == 0 then 0
    else 1 + LeadingNonEmpty(chunks[1..])
  }

  /** Where the loop over chunks stands against the first empty chunk. */
  lemma LeadingNonEmptyStep<T>(chunks: seq<seq<T>>, i: nat)
    requires i <= LeadingNonEmpty(chunks) && i < |chunks|
    ensures |chunks[i]| > 0 <==> i < LeadingNonEmpty(chunks)
  {
  }

  lemma GraphNamesSnoc(before: seq<string>, path: string, infix: string, postfix: string, n: nat)
    ensures before + GraphNames(path, infix, postfix, n + 1) ==
      before + GraphNames(path, infix, postfix, n) + [GraphName(path, infix, n, postfix)]
  {
  }

  lemma PickleNamesSnoc(path: string, infix: string, postfix: string, n: nat)
    ensures PickleNames(path, infix, postfix, n + 1) ==
      PickleNames(path, infix, postfix, n) + [PickleName(path, infix, n, postfix)]
  {
  }

  // ---------------------------------------------------------------------
  // PDF pagination

  /** The paginator's counters: lines in the open document, lines already
      flushed, whether the last chunk flushed, and the line ranges flushed. */
  datatype PdfState = PdfState(lines: nat, prevLine: nat, closed: bool, docs: seq<(nat, nat)>)

  const PdfStart := PdfState(0, 0, false, [])

  /** Count one chunk of `n` lines, then flush if the count is over the limit. */
  function Feed(st: PdfState, n: nat): PdfState
  {
    var lines := st.lines + n;
    if lines > PdfLineLimit then PdfState(0, st.prevLine + lines, true, st.docs + [(st.prevLine + 1, st.prevLine + lines)])
    else PdfState(lines, st.prevLine, false, st.docs)
  }

  /** The counters after the first `i` chunks, of `ns[k]` lines each. */
  function FeedUpTo(ns: seq<nat>, i: nat): PdfState
    requires i <= |ns|
  {
    if i == 0 then PdfStart else Feed(FeedUpTo(ns, i - 1), ns[i - 1])
  }

  /** The documents a run writes: the flushed ones, then a last one unless
      the last chunk flushed. */
  function Paginate(ns: seq<nat>): seq<(nat, nat)>
  {
    var st := FeedUpTo(ns, |ns|);
    if st.closed then st.docs else st.docs + [(st.prevLine + 1, st.prevLine + st.lines)]
  }

  /** Lines in the first `i` chunks. */
  function SumUpTo(ns: seq<nat>, i: nat): nat
    requires i <= |ns|
  {
    if i == 0 then 0 else SumUpTo(ns, i - 1) + ns[i - 1]
  }

  function Sum(ns: seq<nat>): nat
  {
    SumUpTo(ns, |ns|)
  }

  function Size(range: (nat, nat)): int { range.1 - range.0 + 1 }

  /** The ranges run from line 1 to `upto`, each starting right after the
      previous one ends, none of negative size. */
  ghost predicate Chain(docs: seq<(nat, nat)>, upto: nat)
  {
    (forall k :: 0 <= k < |docs| ==> Size(docs[k]) >= 0)
    && (forall k :: 0 <= k < |docs| - 1 ==> docs[k + 1].0 == docs[k].1 + 1)
    && (if |docs| == 0 then upto == 0 else docs[0].0 == 1 && docs[|docs| - 1].1 == upto)
  }

  lemma ChainSnoc(docs: seq<(nat, nat)>, upto: nat, last: nat)
    requires Chain(docs, upto) && last >= upto
    ensures Chain(docs + [(upto + 1, last)], last)
  {
  }

  /** What holds after any number of chunks: flushed and open lines add up to
      the total so far, the open document never holds more than the limit, and
      every flushed document holds more than the limit. */
  lemma {:induction false} FeedUpToSpec(ns: seq<nat>, i: nat)
    requires i <= |ns|
    ensures FeedUpTo(ns, i).prevLine + FeedUpTo(ns, i).lines == SumUpTo(ns, i)
    ensures FeedUpTo(ns, i).lines <= PdfLineLimit
    ensures FeedUpTo(ns, i).closed ==> FeedUpTo(ns, i).lines == 0 && |FeedUpTo(ns, i).docs| > 0
    ensures Chain(FeedUpTo(ns, i).docs, FeedUpTo(ns, i).prevLine)
    ensures forall k :: 0 <= k < |FeedUpTo(ns, i).docs| ==> Size(FeedUpTo(ns, i).docs[k]) > PdfLineLimit
  {
    if i > 0 {
      var st := FeedUpTo(ns, i - 1);
      FeedUpToSpec(ns, i - 1);
      if st.lines + ns[i - 1] > PdfLineLimit {
        ChainSnoc(st.docs, st.prevLine, st.prevLine + st.lines + ns[i - 1]);
      }
    }
  }

  /** The documents of a run cover lines 1 to the total, contiguously and
      without overlap; every one but the last holds more than the limit, and
      the last one holds at most the limit unless the last chunk flushed it. */
  lemma PaginateRanges(ns: seq<nat>)
    ensures |Paginate(ns)| >= 1
    ensures Chain(Paginate(ns), Sum(ns))
    ensures forall k :: 0 <= k < |Paginate(ns)| - 1 ==> Size(Paginate(ns)[k]) > PdfLineLimit
    ensures !FeedUpTo(ns, |ns|).closed ==> Size(Paginate(ns)[|Paginate(ns)| - 1]) <= PdfLineLimit
  {
    FeedUpToSpec(ns, |ns|);
    var st := FeedUpTo(ns, |ns|);
    if !st.closed {
      ChainSnoc(st.docs, st.prevLine, st.prevLine + st.lines);
    }
  }

  /** Up to the limit, nothing is flushed: the counters only add up. */
  lemma {:induction false} SmallPrefixUnflushed(ns: seq<nat>, i: nat)
    requires i <= |ns| && SumUpTo(ns, i) <= PdfLineLimit
    ensures FeedUpTo(ns, i) == PdfState(SumUpTo(ns, i), 0, false, [])
  {
    if i > 0 {
      SmallPrefixUnflushed(ns, i - 1);
    }
  }

  /** A run of at most the limit is one document. */
  lemma SmallRunOneDocument(ns: seq<nat>)
    requires Sum(ns) <= PdfLineLimit
    ensures Paginate(ns) == [(1, Sum(ns))]
  {
    SmallPrefixUnflushed(ns, |ns|);
  }

  /** One line over the limit, arriving in a chunk with lines, is still a
      single document: the count is checked only after a whole chunk. */
  lemma LimitPlusOneIsOneDocument(ns: seq<nat>)
    requires |ns| > 0 && ns[|ns| - 1] > 0 && Sum(ns) == PdfLineLimit + 1
    ensures Paginate(ns) == [(1, PdfLineLimit + 1)]
  {
    SmallPrefixUnflushed(ns, |ns| - 1);
  }

  /** With no chunks at all, one document for the empty range 1..0 is written. */
  lemma NoChunksOneEmptyDocument()
    ensures Paginate([]) == [(1, 0)]
  {
  }

  function Lengths<T>(chunks: seq<seq<T>>): (r: seq<nat>)
    ensures |r| == |chunks|
    ensures forall k :: 0 <= k < |chunks| ==> r[k] == |chunks[k]|
  {
    if |chunks| == 0 then [] else Lengths(chunks[..|chunks| - 1]) + [|chunks[|chunks| - 1]|]
  }

  /** The file of a document: `<path><infix><postfix>_<first>_<last>.pdf`. */
  function PdfName(prefix: string, range: (nat, nat)): string
  {
    prefix + "_" + NatToString(range.0) + "_" + NatToString(range.1) + ".pdf"
  }

  function PdfNames(prefix: string, ranges: seq<(nat, nat)>): (r: seq<string>)
    ensures |r| == |ranges|
  {
    if |ranges| == 0 then [] else PdfNames(prefix, ranges[..|ranges| - 1]) + [PdfName(prefix, ranges[|ranges| - 1])]
  }

  lemma PointCountPrefix(plots: seq<DataPlotPoint>, k: nat)
    requires k < |plots|
    ensures PointCount(plots[..k + 1]) == PointCount(plots[..k]) +
      (if |plots[k].y| <= |plots[k].x| then |plots[k].y| else |plots[k].x|)
  {
    assert plots[..k + 1][..k] == plots[..k];
  }

  /** One line per `(y, x)` pair of every series, as the PDF writer emits them. */
  method CountLines(plots: seq<DataPlotPoint>) returns (n: nat)
    ensures n == PointCount(plots)
  {
    n := 0;
    for k := 0 to |plots|
      invariant n == PointCount(plots[..k])
    {
      var pairs := if |plots[k].y| <= |plots[k].x| then |plots[k].y| else |plots[k].x|;
      for m := 0 to pairs
        invariant n == PointCount(plots[..k]) + m
      {
        n := n + 1;
      }
      PointCountPrefix(plots, k);
    }
    assert plots[..|plots|] == plots;
  }

  /** The series of one probe chunk; there is at least one exactly when the
      chunk has rows (a graph is drawn, and pickled, only then). */
  method TimestampChunkPlotted(chunk: seq<ProbeRecord>) returns (plotted: bool)
    ensures plotted <==> |chunk| > 0
  {
    var graphData := GenerateTimestampDataPlots(chunk);
    TimestampPlotsPartition(chunk);
    plotted := |graphData| > 0;
  }

  method PacketChunkPlotted(chunk: seq<PacketRecord>) returns (plotted: bool)
    ensures plotted <==> |chunk| > 0
  {
    var graphData := GeneratePacketDataPlots(chunk);
    PacketPlotsPartition(chunk);
    plotted := |graphData| > 0;
  }

  /** The PDF lines one probe chunk contributes: one per row. */
  method TimestampChunkLines(chunk: seq<ProbeRecord>) returns (n: nat)
    ensures n == |chunk|
  {
    var dataList := GenerateTimestampDataPlots(chunk);
    n := CountLines(dataList);
    TimestampPlotsPartition(chunk);
  }

  method PacketChunkLines(chunk: seq<PacketRecord>) returns (n: nat)
    ensures n == |chunk|
  {
    var dataList := GeneratePacketDataPlots(chunk);
    n := CountLines(dataList);
    PacketPlotsPartition(chunk);
  }

  // ---------------------------------------------------------------------
  // The generator object

  class Generator {
    var outputPath: Option<string>
    var postfix: string
    var anonymize: bool
    var packetPlotFlag: bool
    var timestampPlotFlag: bool
    var timestampGraphs: seq<string>
    var packetGraphs: seq<string>

    constructor ()
      ensures outputPath == None && postfix == "0" && !anonymize
      ensures !packetPlotFlag && !timestampPlotFlag
      ensures timestampGraphs == [] && packetGraphs == []
    {
      outputPath := None;
      postfix := "0";
      anonymize := false;
      packetPlotFlag := false;
      timestampPlotFlag := false;
      timestampGraphs := [];
      packetGraphs := [];
    }

    /** `start_new_pass`: `now` is the formatted start time and `madeDir`
        whether the `DUMP-<now>` sub-folder could be created. */
    method StartNewPass(path: string, anon: bool, now: string, madeDir: bool)
      modifies this
      ensures outputPath == Some(if madeDir then path + "\\" + "DUMP-" + now + "\\" else path + "\\")
      ensures postfix == (if madeDir then "" else now)
      ensures anonymize == anon
      ensures !packetPlotFlag && !timestampPlotFlag
      ensures timestampGraphs == [] && packetGraphs == []
    {
      postfix := now;
      outputPath := Some(path + "\\");
      anonymize := anon;
      if madeDir {
        var newdir := outputPath.value + "DUMP-" + postfix;
        outputPath := Some(newdir + "\\");
        postfix := "";
      }
      packetPlotFlag := false;
      timestampPlotFlag := false;
      timestampGraphs := [];
      packetGraphs := [];
    }

    /** `generate_timestamp_graph`: one graph file per chunk, numbered from 0,
        a pickle beside each when asked, then the flag. An empty chunk raises
        before its graph is saved, leaving the flag as it was. */
    method GenerateTimestampGraph(chunks: seq<seq<ProbeRecord>>, pickleDump: bool)
      returns (pickles: seq<string>, raised: bool)
      modifies this`timestampGraphs, this`timestampPlotFlag
      ensures raised <==> LeadingNonEmpty(chunks) < |chunks|
      ensures timestampGraphs == old(timestampGraphs) +
        GraphNames(PathText(outputPath), TimestampInfix, postfix, LeadingNonEmpty(chunks))
      ensures pickles == (if pickleDump then PickleNames(PathText(outputPath), TimestampInfix, postfix, LeadingNonEmpty(chunks)) else [])
      ensures timestampPlotFlag == (if raised then old(timestampPlotFlag) else true)
    {
      var path := PathText(outputPath);
      pickles, raised := [], false;
      var index := 0;
      while index < |chunks|
        invariant index <= LeadingNonEmpty(chunks)
        invariant timestampGraphs == old(timestampGraphs) + GraphNames(path, TimestampInfix, postfix, index)
        invariant pickles == (if pickleDump then PickleNames(path, TimestampInfix, postfix, index) else [])
        invariant timestampPlotFlag == old(timestampPlotFlag)
      {
        LeadingNonEmptyStep(chunks, index);
        if |chunks[index]| == 0 {
          raised := true;
          return;
        }
        var plotted := TimestampChunkPlotted(chunks[index]);
        if pickleDump && plotted {
          PickleNamesSnoc(path, TimestampInfix, postfix, index);
          pickles := pickles + [PickleName(path, TimestampInfix, index, postfix)];
        }
        GraphNamesSnoc(old(timestampGraphs), path, TimestampInfix, postfix, index);
        timestampGraphs := timestampGraphs + [GraphName(path, TimestampInfix, index, postfix)];
        index := index + 1;
      }
      timestampPlotFlag := true;
    }

    /** `generate_packet_graph`: as for the timestamp graphs, per packet chunk. */
    method GeneratePacketGraph(chunks: seq<seq<PacketRecord>>, pickleDump: bool)
      returns (pickles: seq<string>, raised: bool)
      modifies this`packetGraphs, this`packetPlotFlag
      ensures raised <==> LeadingNonEmpty(chunks) < |chunks|
      ensures packetGraphs == old(packetGraphs) +
        GraphNames(PathText(outputPath), PacketInfix, postfix, LeadingNonEmpty(chunks))
      ensures pickles == (if pickleDump then PickleNames(PathText(outputPath), PacketInfix, postfix, LeadingNonEmpty(chunks)) else [])
      ensures packetPlotFlag == (if raised then old(packetPlotFlag) else true)
    {
      var path := PathText(outputPath);
      pickles, raised := [], false;
      var index := 0;
      while index < |chunks|
        invariant index <= LeadingNonEmpty(chunks)
        invariant packetGraphs == old(packetGraphs) + GraphNames(path, PacketInfix, postfix, index)
        invariant pickles == (if pickleDump then PickleNames(path, PacketInfix, postfix, index) else [])
        invariant packetPlotFlag == old(packetPlotFlag)
      {
        LeadingNonEmptyStep(chunks, index);
        if |chunks[index]| == 0 {
          raised := true;
          return;
        }
        var plotted := PacketChunkPlotted(chunks[index]);
        if pickleDump && plotted {
          PickleNamesSnoc(path, PacketInfix, postfix, index);
          pickles := pickles + [PickleName(path, PacketInfix, index, postfix)];
        }
        GraphNamesSnoc(old(packetGraphs), path, PacketInfix, postfix, index);
        packetGraphs := packetGraphs + [GraphName(path, PacketInfix, index, postfix)];
        index := index + 1;
      }
      packetPlotFlag := true;
    }

    /** `generate_timestamp_pdf`: the line ranges of the documents written,
        and the file each is saved to. */
    method GenerateTimestampPdf(chunks: seq<seq<ProbeRecord>>) returns (docs: seq<(nat, nat)>, files: seq<string>)
      ensures docs == Paginate(Lengths(chunks))
      ensures files == PdfNames(PathText(outputPath) + TimestampInfix + postfix, docs)
    {
      var lines: nat, prevLine: nat, closed := 0, 0, false;
      docs := [];
      ghost var ns := Lengths(chunks);
      ghost var st := PdfStart;
      for i := 0 to |chunks|
        invariant st == FeedUpTo(ns, i)
        invariant lines == st.lines && prevLine == st.prevLine && closed == st.closed && docs == st.docs
      {
        var chunkLines := TimestampChunkLines(chunks[i]);
        st := Feed(st, chunkLines);
        lines := lines + chunkLines;
        closed := false;
        if lines > PdfLineLimit {
          docs := docs + [(prevLine + 1, prevLine + lines)];
          prevLine := prevLine + lines;
          lines := 0;
          closed := true;
        }
      }
      if !closed {
        docs := docs + [(prevLine + 1, prevLine + lines)];
      }
      files := PdfNames(PathText(outputPath) + TimestampInfix + postfix, docs);
    }

    /** `generate_packet_pdf`: the line ranges of the documents written,
        and the file each is saved to. */
    method GeneratePacketPdf(chunks: seq<seq<PacketRecord>>) returns (docs: seq<(nat, nat)>, files: seq<string>)
      ensures docs == Paginate(Lengths(chunks))
      ensures files == PdfNames(PathText(outputPath) + PacketInfix + postfix, docs)
    {
      var lines: nat, prevLine: nat, closed := 0, 0, false;
      docs := [];
      ghost var ns := Lengths(chunks);
      ghost var st := PdfStart;
      for i := 0 to |chunks|
        invariant st == FeedUpTo(ns, i)
        invariant lines == st.lines && prevLine == st.prevLine && closed == st.closed && docs == st.docs
      {
        var chunkLines := PacketChunkLines(chunks[i]);
        st := Feed(st, chunkLines);
        lines := lines + chunkLines;
        closed := false;
        if lines > PdfLineLimit {
          docs := docs + [(prevLine + 1, prevLine + lines)];
          prevLine := prevLine + lines;
          lines := 0;
          closed := true;
        }
      }
      if !closed {
        docs := docs + [(prevLine + 1, prevLine + lines)];
      }
      files := PdfNames(PathText(outputPath) + PacketInfix + postfix, docs);
    }
  }
}
