/** The exporter of the older tree: the same grouping and CSV rendering, but the
    file-name postfix is the start time in whole seconds, graphs are never
    pickled, and the PDF and one-file exports do nothing. */
module ExporterSnapshot {
  import opened Wrappers
  import opened Records
  import opened Text
  import opened Seqs
  import opened Grouping
  import opened CsvExport
  import opened Exporter

  class Generator {
    var outputPath: Option<string>
    /** An integer here: `0`, then the start time of the pass in seconds. */
    var postfix: nat
    /** Only set by a pass; `None` while the attribute does not exist yet. */
    var plotCount: Option<nat>
    var packetPlotFlag: bool
    var timestampPlotFlag: bool
    var timestampGraphs: seq<string>
    var packetGraphs: seq<string>

    constructor ()
      ensures outputPath == None && postfix == 0 && plotCount == None
      ensures !packetPlotFlag && !timestampPlotFlag
      ensures timestampGraphs == [] && packetGraphs == []
    {
      outputPath := None;
      postfix := 0;
      plotCount := None;
      packetPlotFlag := false;
      timestampPlotFlag := false;
      timestampGraphs := [];
      packetGraphs := [];
    }

    /** `start_new_pass`: `nowSeconds` is `int(time())`. */
    method StartNewPass(path: string, nowSeconds: nat)
      modifies this
      ensures outputPath == Some(path + "\\") && postfix == nowSeconds && plotCount == Some(0)
      ensures !packetPlotFlag && !timestampPlotFlag
      ensures timestampGraphs == [] && packetGraphs == []
    {
      postfix := nowSeconds;
      outputPath := Some(path + "\\");
      plotCount := Some(0);
      packetPlotFlag := false;
      timestampPlotFlag := false;
      timestampGraphs := [];
      packetGraphs := [];
    }

    /** `generate_timestamp_csv`: the file written and its lines. */
    method GenerateTimestampCsv(chunks: seq<seq<ProbeRecord>>, timeText: Timestamp -> string)
      returns (fileName: string, lines: seq<string>)
      ensures fileName == PathText(outputPath) + TimestampInfix + NatToString(postfix) + ".csv"
      ensures lines == TimestampLines(Flatten(chunks), timeText)
    {
      fileName, lines := WriteTimestampCsv(PathText(outputPath), NatToString(postfix), chunks, timeText);
    }

    /** `generate_packet_csv`: the file written and its lines. */
    method GeneratePacketCsv(chunks: seq<seq<PacketRecord>>, timeText: Timestamp -> string)
      returns (fileName: string, lines: seq<string>)
      ensures fileName == PathText(outputPath) + PacketInfix + NatToString(postfix) + ".csv"
      ensures lines == PacketLines(Flatten(chunks), timeText)
    {
      fileName, lines := WritePacketCsv(PathText(outputPath), NatToString(postfix), chunks, timeText);
    }

    /** `generate_timestamp_graph`: one graph file per chunk, numbered from 0,
        then the flag; an empty chunk raises before its graph is saved. */
    method GenerateTimestampGraph(chunks: seq<seq<ProbeRecord>>) returns (raised: bool)
      modifies this`timestampGraphs, this`timestampPlotFlag
      ensures raised <==> LeadingNonEmpty(chunks) < |chunks|
      ensures timestampGraphs == old(timestampGraphs) +
        GraphNames(PathText(outputPath), TimestampInfix, NatToString(postfix), LeadingNonEmpty(chunks))
      ensures timestampPlotFlag == (if raised then old(timestampPlotFlag) else true)
    {
      var path, post := PathText(outputPath), NatToString(postfix);
      raised := false;
      var index := 0;
      while index < |chunks|
        invariant index <= LeadingNonEmpty(chunks)
        invariant timestampGraphs == old(timestampGraphs) + GraphNames(path, TimestampInfix, post, index)
        invariant timestampPlotFlag == old(timestampPlotFlag)
      {
        LeadingNonEmptyStep(chunks, index);
        if |chunks[index]| == 0 {
          raised := true;
          return;
        }
        var _ := TimestampChunkPlotted(chunks[index]);
        GraphNamesSnoc(old(timestampGraphs), path, TimestampInfix, post, index);
        timestampGraphs := timestampGraphs + [GraphName(path, TimestampInfix, index, post)];
        index := index + 1;
      }
      timestampPlotFlag := true;
    }

    /** `generate_packet_graph`: as for the timestamp graphs, per packet chunk. */
    method GeneratePacketGraph(chunks: seq<seq<PacketRecord>>) returns (raised: bool)
      modifies this`packetGraphs, this`packetPlotFlag
      ensures raised <==> LeadingNonEmpty(chunks) < |chunks|
      ensures packetGraphs == old(packetGraphs) +
        GraphNames(PathText(outputPath), PacketInfix, NatToString(postfix), LeadingNonEmpty(chunks))
      ensures packetPlotFlag == (if raised then old(packetPlotFlag) else true)
    {
      var path, post := PathText(outputPath), NatToString(postfix);
      raised := false;
      var index := 0;
      while index < |chunks|
        invariant index <= LeadingNonEmpty(chunks)
        invariant packetGraphs == old(packetGraphs) + GraphNames(path, PacketInfix, post, index)
        invariant packetPlotFlag == old(packetPlotFlag)
      {
        LeadingNonEmptyStep(chunks, index);
        if |chunks[index]| == 0 {
          raised := true;
          return;
        }
        var _ := PacketChunkPlotted(chunks[index]);
        GraphNamesSnoc(old(packetGraphs), path, PacketInfix, post, index);
        packetGraphs := packetGraphs + [GraphName(path, PacketInfix, index, post)];
        index := index + 1;
      }
      packetPlotFlag := true;
    }

    /** `generate_timestamp_pdf`, `generate_packet_pdf`, `generate_onefile` and
        `generate_onefile_verbose` are empty in this tree: nothing changes. */
    method GeneratePdfOrOnefile()
      modifies this
      ensures unchanged(this)
    {
    }
  }
}
