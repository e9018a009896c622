/** The CSV dumps: one text line per stored row, the row's fields rendered
    with Python's `str` and joined by commas, with no quoting. Rendering a
    timestamp is `str(datetime)`, which this model takes as a parameter. */
module CsvExport {
  import opened Wrappers
  import opened Records
  import opened Text
  import opened Seqs

  const TimestampInfix := "TIMESTAMP"
  const PacketInfix := "PACKET"

  /** `str(i)` for an integer. */
  function IntText(i: int): (s: string)
    ensures ',' !in s
  {
    if i < 0 then "-" + NatToString(-i) else NatToString(i)
  }

  /** What `int` reads back from `str(i)` is `i`. */
  lemma ParseIntText(i: int)
    ensures ParseInt(IntText(i)) == Some(i)
  {
    NatToStringValue(if i < 0 then -i else i);
    if i < 0 {
      assert IntText(i)[1..] == NatToString(-i);
    }
  }

  /** `str` of a nullable text column. */
  function OptionalText(o: Option<string>): string
  {
    if o.Some? then o.value else "None"
  }

  function BoolText(b: bool): string
  {
    if b then "True" else "False"
  }

  /** The seven fields of a probe row, in the order the file lists them. */
  function TimestampTexts(r: ProbeRecord, timeText: Timestamp -> string): seq<string>
  {
    [IntText(r.ms), IntText(r.limit), r.receiver, r.receiverReadable,
     OptionalText(r.iface), BoolText(r.interfaceDead), timeText(r.datetime)]
  }

  /** The five fields of a packet row. */
  function PacketTexts(p: PacketRecord, timeText: Timestamp -> string): seq<string>
  {
    [IntText(p.size), p.sender, p.receiver, p.interfaceUsed, timeText(p.datetime)]
  }

  /** One line of the timestamp file, without its trailing newline. */
  function TimestampLine(r: ProbeRecord, timeText: Timestamp -> string): string
  {
    Join(TimestampTexts(r, timeText), ',')
  }

  /** One line of the packet file, without its trailing newline. */
  function PacketLine(p: PacketRecord, timeText: Timestamp -> string): string
  {
    Join(PacketTexts(p, timeText), ',')
  }

  /** A probe row's line has seven comma-separated pieces exactly when its
      receiver, label and interface hold no comma; then the pieces read back
      as the row's values. */
  lemma TimestampLineRoundTrip(r: ProbeRecord, timeText: Timestamp -> string)
    requires ',' !in timeText(r.datetime)
    ensures var pieces := Split(TimestampLine(r, timeText), ',');
      |pieces| == 7 <==> (',' !in r.receiver && ',' !in r.receiverReadable && ',' !in OptionalText(r.iface))
    ensures var pieces := Split(TimestampLine(r, timeText), ',');
      |pieces| == 7 ==>
        ParseInt(pieces[0]) == Some(r.ms) && ParseInt(pieces[1]) == Some(r.limit)
        && pieces[2] == r.receiver && pieces[3] == r.receiverReadable
        && pieces[4] == OptionalText(r.iface) && pieces[5] == BoolText(r.interfaceDead)
        && pieces[6] == timeText(r.datetime)
  {
    var texts := TimestampTexts(r, timeText);
    JoinPieces(texts, ',');
    if ',' !in r.receiver && ',' !in r.receiverReadable && ',' !in OptionalText(r.iface) {
      assert forall k :: 0 <= k < 7 ==> ',' !in texts[k] by {
        assert ',' !in BoolText(r.interfaceDead);
      }
    } else {
      assert ',' in texts[2] || ',' in texts[3] || ',' in texts[4];
    }
    ParseIntText(r.ms);
    ParseIntText(r.limit);
  }

  /** A packet row's line has five pieces exactly when its addresses and
      interface hold no comma; then the pieces read back as the row's values. */
  lemma PacketLineRoundTrip(p: PacketRecord, timeText: Timestamp -> string)
    requires ',' !in timeText(p.datetime)
    ensures var pieces := Split(PacketLine(p, timeText), ',');
      |pieces| == 5 <==> (',' !in p.sender && ',' !in p.receiver && ',' !in p.interfaceUsed)
    ensures var pieces := Split(PacketLine(p, timeText), ',');
      |pieces| == 5 ==>
        ParseInt(pieces[0]) == Some(p.size) && pieces[1] == p.sender && pieces[2] == p.receiver
        && pieces[3] == p.interfaceUsed && pieces[4] == timeText(p.datetime)
  {
    var texts := PacketTexts(p, timeText);
    JoinPieces(texts, ',');
    if !(',' !in p.sender && ',' !in p.receiver && ',' !in p.interfaceUsed) {
      assert ',' in texts[1] || ',' in texts[2] || ',' in texts[3];
    }
    ParseIntText(p.size);
  }

  /** An interface that is absent and one literally named `None` write the
      same line: the file cannot tell them apart. */
  lemma NoneInterfaceAmbiguous(r: ProbeRecord, timeText: Timestamp -> string)
    requires r.iface == None
    ensures TimestampLine(r, timeText) == TimestampLine(r.(iface := Some("None")), timeText)
  {
    assert TimestampTexts(r, timeText) == TimestampTexts(r.(iface := Some("None")), timeText);
  }

  function TimestampLines(rs: seq<ProbeRecord>, timeText: Timestamp -> string): (lines: seq<string>)
    ensures |lines| == |rs|
    ensures forall k :: 0 <= k < |rs| ==> lines[k] == TimestampLine(rs[k], timeText)
  {
    if |rs| == 0 then [] else TimestampLines(rs[..|rs| - 1], timeText) + [TimestampLine(rs[|rs| - 1], timeText)]
  }

  function PacketLines(ps: seq<PacketRecord>, timeText: Timestamp -> string): (lines: seq<string>)
    ensures |lines| == |ps|
    ensures forall k :: 0 <= k < |ps| ==> lines[k] == PacketLine(ps[k], timeText)
  {
    if |ps| == 0 then [] else PacketLines(ps[..|ps| - 1], timeText) + [PacketLine(ps[|ps| - 1], timeText)]
  }

  lemma TimestampLinesSnoc(done: seq<ProbeRecord>, chunk: seq<ProbeRecord>, j: nat, timeText: Timestamp -> string)
    requires j < |chunk|
    ensures TimestampLines(done + chunk[..j + 1], timeText) ==
      TimestampLines(done + chunk[..j], timeText) + [TimestampLine(chunk[j], timeText)]
  {
    assert (done + chunk[..j + 1])[..|done| + j] == done + chunk[..j];
  }

  lemma PacketLinesSnoc(done: seq<PacketRecord>, chunk: seq<PacketRecord>, j: nat, timeText: Timestamp -> string)
    requires j < |chunk|
    ensures PacketLines(done + chunk[..j + 1], timeText) ==
      PacketLines(done + chunk[..j], timeText) + [PacketLine(chunk[j], timeText)]
  {
    assert (done + chunk[..j + 1])[..|done| + j] == done + chunk[..j];
  }

  /** `generate_timestamp_csv`: the file `<path>TIMESTAMP<postfix>.csv` gets
      one line per row, chunk by chunk and row by row. */
  method WriteTimestampCsv(outputPath: string, postfix: string, chunks: seq<seq<ProbeRecord>>, timeText: Timestamp -> string)
    returns (fileName: string, lines: seq<string>)
    ensures fileName == outputPath + TimestampInfix + postfix + ".csv"
    ensures lines == TimestampLines(Flatten(chunks), timeText)
  {
    fileName := outputPath + TimestampInfix + postfix + ".csv";
    lines := [];
    for i := 0 to |chunks|
      invariant lines == TimestampLines(Flatten(chunks[..i]), timeText)
    {
      ghost var done := Flatten(chunks[..i]);
      var chunk := chunks[i];
      for j := 0 to |chunk|
        invariant lines == TimestampLines(done + chunk[..j], timeText)
      {
        TimestampLinesSnoc(done, chunk, j, timeText);
        lines := lines + [TimestampLine(chunk[j], timeText)];
      }
      assert chunk[..|chunk|] == chunk;
      FlattenPrefix(chunks, i);
    }
    assert chunks[..|chunks|] == chunks;
  }

  /** `generate_packet_csv`: the file `<path>PACKET<postfix>.csv` gets one
      line per packet, chunk by chunk and packet by packet. */
  method WritePacketCsv(outputPath: string, postfix: string, chunks: seq<seq<PacketRecord>>, timeText: Timestamp -> string)
    returns (fileName: string, lines: seq<string>)
    ensures fileName == outputPath + PacketInfix + postfix + ".csv"
    ensures lines == PacketLines(Flatten(chunks), timeText)
  {
    fileName := outputPath + PacketInfix + postfix + ".csv";
    lines := [];
    for i := 0 to |chunks|
      invariant lines == PacketLines(Flatten(chunks[..i]), timeText)
    {
      ghost var done := Flatten(chunks[..i]);
      var chunk := chunks[i];
      for j := 0 to |chunk|
        invariant lines == PacketLines(done + chunk[..j], timeText)
      {
        PacketLinesSnoc(done, chunk, j, timeText);
        lines := lines + [PacketLine(chunk[j], timeText)];
      }
      assert chunk[..|chunk|] == chunk;
      FlattenPrefix(chunks, i);
    }
    assert chunks[..|chunks|] == chunks;
  }
}
