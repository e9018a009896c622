/** The exporters' grouping helpers: how one chunk of stored rows is split into
    per-(interface, receiver) latency series and per-interface packet series.
    Each helper is a loop appending to local lists, proved equal to a
    specification function built from `Seqs`; the lemmas at the end show that
    the series of one chunk partition it. */
module Grouping {
  import opened Wrappers
  import opened Records
  import opened Seqs

  /** One series of a chart: its title, its x values (timestamps), its y
      values, the receiver label it belongs to, and its y-axis bound. */
  datatype DataPlotPoint = DataPlotPoint(
    title: string,
    x: seq<Timestamp>,
    y: seq<int>,
    receiver: Option<string>,
    ylim: Option<int>)

  function IfaceOf(r: ProbeRecord): Option<string> { r.iface }
  function ReceiverOf(r: ProbeRecord): string { r.receiver }
  function RouteOf(r: ProbeRecord): (Option<string>, string) { (r.iface, r.receiver) }
  function MsOf(r: ProbeRecord): int { r.ms }
  function TimeOf(r: ProbeRecord): Timestamp { r.datetime }
  function ServerOf(pair: (string, string)): string { pair.0 }

  function InterfaceUsedOf(p: PacketRecord): string { p.interfaceUsed }
  function SizeOf(p: PacketRecord): int { p.size }
  function PacketTimeOf(p: PacketRecord): Timestamp { p.datetime }

  lemma KeysSnoc<T, K>(s: seq<T>, x: T, key: T -> K)
    ensures Keys(s + [x], key) == Keys(s, key) + [key(x)]
  {
    assert (s + [x])[..|s|] == s;
  }

  lemma FilterKeySnoc<T, K>(s: seq<T>, x: T, key: T -> K, k: K)
    ensures FilterKey(s + [x], key, k) == FilterKey(s, key, k) + (if key(x) == k then [x] else [])
  {
    assert (s + [x])[..|s|] == s;
  }

  // ---------------------------------------------------------------------
  // Probe rows

  /** `get_all_ips_from_timestamp`: the distinct interfaces of a chunk, each
      once, in the order they first occur. */
  method GetAllIpsFromTimestamp(chunk: seq<ProbeRecord>) returns (ips: seq<Option<string>>)
    ensures ips == Dedup(Keys(chunk, IfaceOf))
    ensures NoDuplicates(ips)
    ensures forall ip :: ip in ips <==> ip in Keys(chunk, IfaceOf)
  {
    ips := [];
    for i := 0 to |chunk|
      invariant ips == Dedup(Keys(chunk[..i], IfaceOf))
    {
      KeysPrefix(chunk, IfaceOf, i);
      DedupSnoc(Keys(chunk[..i], IfaceOf), chunk[i].iface);
      if chunk[i].iface !in ips {
        ips := ips + [chunk[i].iface];
      }
    }
    assert chunk[..|chunk|] == chunk;
    DedupSpec(Keys(chunk, IfaceOf));
  }

  /** The `(receiver, label)` pairs of an interface, as the source's loop
      collects them: a pair is added for a row of that interface whose receiver
      has not been seen yet. */
  function ServersFor(c: seq<ProbeRecord>, ip: Option<string>): seq<(string, string)>
  {
    if |c| == 0 then []
    else
      var p := ServersFor(c[..|c| - 1], ip);
      var r := c[|c| - 1];
      if r.iface == ip && r.receiver !in Keys(p, ServerOf) then p + [(r.receiver, r.receiverReadable)] else p
  }

  lemma ServersForPrefix(c: seq<ProbeRecord>, ip: Option<string>, i: nat)
    requires i < |c|
    ensures ServersFor(c[..i + 1], ip) ==
      var p := ServersFor(c[..i], ip);
      if c[i].iface == ip && c[i].receiver !in Keys(p, ServerOf) then p + [(c[i].receiver, c[i].receiverReadable)] else p
  {
    assert c[..i + 1][..i] == c[..i];
  }

  /** The receivers listed for an interface are the distinct receivers of its
      rows, in first-occurrence order. */
  lemma {:induction false} ServersForKeys(c: seq<ProbeRecord>, ip: Option<string>)
    ensures Keys(ServersFor(c, ip), ServerOf) == Dedup(Keys(FilterKey(c, IfaceOf, ip), ReceiverOf))
  {
    if |c| > 0 {
      var p, r := c[..|c| - 1], c[|c| - 1];
      ServersForKeys(p, ip);
      var sp := ServersFor(p, ip);
      var fp := FilterKey(p, IfaceOf, ip);
      if r.iface == ip {
        assert FilterKey(c, IfaceOf, ip) == fp + [r];
        KeysSnoc(fp, r, ReceiverOf);
        DedupSnoc(Keys(fp, ReceiverOf), r.receiver);
        if r.receiver !in Keys(sp, ServerOf) {
          assert ServersFor(c, ip) == sp + [(r.receiver, r.receiverReadable)];
          KeysSnoc(sp, (r.receiver, r.receiverReadable), ServerOf);
        } else {
          assert ServersFor(c, ip) == sp;
        }
      } else {
        assert FilterKey(c, IfaceOf, ip) == fp;
        assert ServersFor(c, ip) == sp;
      }
    }
  }

  /** `pair` is the receiver and label of the first row of `c` on interface `ip`
      with that receiver. */
  ghost predicate FirstRecordOf(c: seq<ProbeRecord>, ip: Option<string>, pair: (string, string))
  {
    exists k :: 0 <= k < |c| && c[k].iface == ip && c[k].receiver == pair.0 && c[k].receiverReadable == pair.1
      && forall j :: 0 <= j < k ==> !(c[j].iface == ip && c[j].receiver == pair.0)
  }

  /** A receiver that has a row on the interface is listed for it. */
  lemma {:induction false} ServersForComplete(c: seq<ProbeRecord>, ip: Option<string>, j: nat)
    requires j < |c| && c[j].iface == ip
    ensures c[j].receiver in Keys(ServersFor(c, ip), ServerOf)
  {
    var f := FilterKey(c, IfaceOf, ip);
    FilterKeyMembers(c, IfaceOf, ip);
    assert c[j] in f;
    var m :| 0 <= m < |f| && f[m] == c[j];
    assert Keys(f, ReceiverOf)[m] == c[j].receiver;
    DedupSpec(Keys(f, ReceiverOf));
    ServersForKeys(c, ip);
  }

  /** Each listed label is the one of the receiver's first row on the interface. */
  lemma {:induction false} ServersForFirst(c: seq<ProbeRecord>, ip: Option<string>)
    ensures forall n :: 0 <= n < |ServersFor(c, ip)| ==> FirstRecordOf(c, ip, ServersFor(c, ip)[n])
  {
    if |c| > 0 {
      var p, r := c[..|c| - 1], c[|c| - 1];
      ServersForFirst(p, ip);
      var sp := ServersFor(p, ip);
      forall n | 0 <= n < |sp| ensures FirstRecordOf(c, ip, sp[n]) {
        FirstRecordGrows(c, ip, sp[n]);
      }
      if r.iface == ip && r.receiver !in Keys(sp, ServerOf) {
        FirstRecordOfLast(c, ip);
        assert ServersFor(c, ip) == sp + [(r.receiver, r.receiverReadable)];
      } else {
        assert ServersFor(c, ip) == sp;
      }
    }
  }

  /** A first row stays the first one when rows are added after it. */
  lemma FirstRecordGrows(c: seq<ProbeRecord>, ip: Option<string>, pair: (string, string))
    requires |c| > 0 && FirstRecordOf(c[..|c| - 1], ip, pair)
    ensures FirstRecordOf(c, ip, pair)
  {
    var p := c[..|c| - 1];
    var k :| 0 <= k < |p| && p[k].iface == ip && p[k].receiver == pair.0 && p[k].receiverReadable == pair.1
      && forall j :: 0 <= j < k ==> !(p[j].iface == ip && p[j].receiver == pair.0);
    assert c[k] == p[k];
    assert forall j :: 0 <= j < k ==> c[j] == p[j];
  }

  /** The last row, on the interface with a receiver not listed before it, is
      that receiver's first row. */
  lemma FirstRecordOfLast(c: seq<ProbeRecord>, ip: Option<string>)
    requires |c| > 0 && c[|c| - 1].iface == ip
    requires c[|c| - 1].receiver !in Keys(ServersFor(c[..|c| - 1], ip), ServerOf)
    ensures FirstRecordOf(c, ip, (c[|c| - 1].receiver, c[|c| - 1].receiverReadable))
  {
    var p, r := c[..|c| - 1], c[|c| - 1];
    forall j | 0 <= j < |p| ensures !(c[j].iface == ip && c[j].receiver == r.receiver) {
      assert c[j] == p[j];
      if p[j].iface == ip && p[j].receiver == r.receiver {
        ServersForComplete(p, ip, j);
      }
    }
    assert c[|p|] == r;
  }

  /** `get_all_servers_for_ip_from_timestamp`: one pair per distinct receiver
      of the interface, labelled from its first row, in first-occurrence order. */
  method GetAllServersForIp(chunk: seq<ProbeRecord>, ip: Option<string>) returns (servers: seq<(string, string)>)
    ensures servers == ServersFor(chunk, ip)
    ensures Keys(servers, ServerOf) == Dedup(Keys(FilterKey(chunk, IfaceOf, ip), ReceiverOf))
    ensures forall n :: 0 <= n < |servers| ==> FirstRecordOf(chunk, ip, servers[n])
  {
    var seen: seq<string> := [];
    servers := [];
    for i := 0 to |chunk|
      invariant servers == ServersFor(chunk[..i], ip)
      invariant seen == Keys(servers, ServerOf)
    {
      ServersForPrefix(chunk, ip, i);
      var r := chunk[i];
      if r.iface == ip && r.receiver !in seen {
        KeysSnoc(servers, (r.receiver, r.receiverReadable), ServerOf);
        seen := seen + [r.receiver];
        servers := servers + [(r.receiver, r.receiverReadable)];
      }
    }
    assert chunk[..|chunk|] == chunk;
    ServersForKeys(chunk, ip);
    ServersForFirst(chunk, ip);
  }

  /** The rows of one (interface, receiver) series, in chunk order. */
  function Matching(c: seq<ProbeRecord>, ip: Option<string>, server: string): seq<ProbeRecord>
  {
    FilterKey(c, RouteOf, (ip, server))
  }

  /** Selecting the rows of a route in one pass equals selecting the
      interface's rows and then the receiver's. */
  lemma {:induction false} MatchingNested(c: seq<ProbeRecord>, ip: Option<string>, server: string)
    ensures Matching(c, ip, server) == FilterKey(FilterKey(c, IfaceOf, ip), ReceiverOf, server)
  {
    if |c| > 0 {
      var p, r := c[..|c| - 1], c[|c| - 1];
      MatchingNested(p, ip, server);
      var fp := FilterKey(p, IfaceOf, ip);
      assert Matching(c, ip, server) == Matching(p, ip, server) + (if RouteOf(r) == (ip, server) then [r] else []);
      if r.iface == ip {
        assert FilterKey(c, IfaceOf, ip) == fp + [r];
        FilterKeySnoc(fp, r, ReceiverOf, server);
      } else {
        assert FilterKey(c, IfaceOf, ip) == fp;
      }
    }
  }

  /** The y-axis bound of a latency series: 1, raised to every latency that is
      below its row's limit. */
  function MaxBelowLimit(s: seq<ProbeRecord>): (m: int)
    ensures m >= 1
    ensures forall k :: 0 <= k < |s| && s[k].ms < s[k].limit ==> s[k].ms <= m
    ensures m == 1 || exists k :: 0 <= k < |s| && s[k].ms == m && s[k].ms < s[k].limit
  {
    if |s| == 0 then 1
    else
      var m := MaxBelowLimit(s[..|s| - 1]);
      var r := s[|s| - 1];
      if r.limit > r.ms > m then r.ms else m
  }

  lemma MaxBelowLimitSnoc(s: seq<ProbeRecord>, r: ProbeRecord)
    ensures MaxBelowLimit(s + [r]) == if r.limit > r.ms > MaxBelowLimit(s) then r.ms else MaxBelowLimit(s)
  {
    assert (s + [r])[..|s|] == s;
  }

  lemma MatchingPrefix(c: seq<ProbeRecord>, ip: Option<string>, server: string, i: nat)
    requires i < |c|
    ensures Matching(c[..i + 1], ip, server) ==
      Matching(c[..i], ip, server) + (if c[i].iface == ip && c[i].receiver == server then [c[i]] else [])
  {
    FilterKeyPrefix(c, RouteOf, (ip, server), i);
  }

  /** `get_all_data_points_for_ip_server_combo_from_timestamp`: the latencies
      and times of the route's rows, in chunk order, and their bound. */
  method GetDataPoints(chunk: seq<ProbeRecord>, ip: Option<string>, server: string)
    returns (data: seq<int>, dates: seq<Timestamp>, maxy: int)
    ensures data == Keys(Matching(chunk, ip, server), MsOf)
    ensures dates == Keys(Matching(chunk, ip, server), TimeOf)
    ensures |data| == |dates|
    ensures maxy == MaxBelowLimit(Matching(chunk, ip, server))
  {
    data, dates, maxy := [], [], 1;
    ghost var matched: seq<ProbeRecord> := [];
    for i := 0 to |chunk|
      invariant matched == Matching(chunk[..i], ip, server)
      invariant data == Keys(matched, MsOf)
      invariant dates == Keys(matched, TimeOf)
      invariant maxy == MaxBelowLimit(matched)
    {
      var r := chunk[i];
      MatchingPrefix(chunk, ip, server, i);
      if r.iface == ip && r.receiver == server {
        KeysSnoc(matched, r, MsOf);
        KeysSnoc(matched, r, TimeOf);
        MaxBelowLimitSnoc(matched, r);
        matched := matched + [r];
        data := data + [r.ms];
        dates := dates + [r.datetime];
        if r.limit > r.ms > maxy {
          maxy := r.ms;
        }
      }
    }
    assert chunk[..|chunk|] == chunk;
  }

  /** The title of a latency series. */
  function Title(ip: Option<string>, readable: string): string
  {
    "Interface " + (if ip.Some? then ip.value else "unknown") + " server " + readable
  }

  function ServerPlot(c: seq<ProbeRecord>, ip: Option<string>, pair: (string, string)): DataPlotPoint
  {
    var m := Matching(c, ip, pair.0);
    DataPlotPoint(Title(ip, pair.1), Keys(m, TimeOf), Keys(m, MsOf), Some(pair.1), Some(MaxBelowLimit(m)))
  }

  function ServerPlots(c: seq<ProbeRecord>, ip: Option<string>, servers: seq<(string, string)>): seq<DataPlotPoint>
  {
    if |servers| == 0 then []
    else ServerPlots(c, ip, servers[..|servers| - 1]) + [ServerPlot(c, ip, servers[|servers| - 1])]
  }

  lemma ServerPlotsPrefix(c: seq<ProbeRecord>, ip: Option<string>, servers: seq<(string, string)>, j: nat)
    requires j < |servers|
    ensures ServerPlots(c, ip, servers[..j + 1]) == ServerPlots(c, ip, servers[..j]) + [ServerPlot(c, ip, servers[j])]
  {
    assert servers[..j + 1][..j] == servers[..j];
  }

  function IpPlots(c: seq<ProbeRecord>, ips: seq<Option<string>>): seq<DataPlotPoint>
  {
    if |ips| == 0 then []
    else IpPlots(c, ips[..|ips| - 1]) + ServerPlots(c, ips[|ips| - 1], ServersFor(c, ips[|ips| - 1]))
  }

  lemma IpPlotsPrefix(c: seq<ProbeRecord>, ips: seq<Option<string>>, i: nat)
    requires i < |ips|
    ensures IpPlots(c, ips[..i + 1]) == IpPlots(c, ips[..i]) + ServerPlots(c, ips[i], ServersFor(c, ips[i]))
  {
    assert ips[..i + 1][..i] == ips[..i];
  }

  /** The series of a chunk: for each interface in first-occurrence order, one
      series per receiver of that interface. */
  function TimestampPlots(c: seq<ProbeRecord>): seq<DataPlotPoint>
  {
    IpPlots(c, Dedup(Keys(c, IfaceOf)))
  }

  /** The series of one interface, built from its receiver list. */
  method ServerSeries(chunk: seq<ProbeRecord>, ip: Option<string>, servers: seq<(string, string)>)
    returns (plots: seq<DataPlotPoint>)
    ensures plots == ServerPlots(chunk, ip, servers)
  {
    plots := [];
    for j := 0 to |servers|
      invariant plots == ServerPlots(chunk, ip, servers[..j])
    {
      var pair := servers[j];
      var data, dates, ylim := GetDataPoints(chunk, ip, pair.0);
      ServerPlotsPrefix(chunk, ip, servers, j);
      plots := plots + [DataPlotPoint(Title(ip, pair.1), dates, data, Some(pair.1), Some(ylim))];
    }
    assert servers[..|servers|] == servers;
  }

  /** `generate_timestamp_data_plot_obj_from` with no formatters: the
      receiver lists are gathered first, then one series per (interface,
      receiver) pair is appended. */
  method GenerateTimestampDataPlots(chunk: seq<ProbeRecord>) returns (plots: seq<DataPlotPoint>)
    ensures plots == TimestampPlots(chunk)
  {
    var ips := GetAllIpsFromTimestamp(chunk);
    var servers: seq<seq<(string, string)>> := [];
    for i := 0 to |ips|
      invariant |servers| == i
      invariant forall k :: 0 <= k < i ==> servers[k] == ServersFor(chunk, ips[k])
    {
      var s := GetAllServersForIp(chunk, ips[i]);
      servers := servers + [s];
    }
    plots := [];
    for i := 0 to |ips|
      invariant plots == IpPlots(chunk, ips[..i])
    {
      var series := ServerSeries(chunk, ips[i], servers[i]);
      IpPlotsPrefix(chunk, ips, i);
      plots := plots + series;
    }
    assert ips[..|ips|] == ips;
  }

  // ---------------------------------------------------------------------
  // Packet rows

  /** `get_all_interfaces_from`: the distinct interfaces of a packet chunk,
      each once, in first-occurrence order. */
  method GetAllInterfacesFrom(chunk: seq<PacketRecord>) returns (ifaces: seq<string>)
    ensures ifaces == Dedup(Keys(chunk, InterfaceUsedOf))
    ensures NoDuplicates(ifaces)
    ensures forall name :: name in ifaces <==> name in Keys(chunk, InterfaceUsedOf)
  {
    ifaces := [];
    for i := 0 to |chunk|
      invariant ifaces == Dedup(Keys(chunk[..i], InterfaceUsedOf))
    {
      KeysPrefix(chunk, InterfaceUsedOf, i);
      DedupSnoc(Keys(chunk[..i], InterfaceUsedOf), chunk[i].interfaceUsed);
      if chunk[i].interfaceUsed !in ifaces {
        ifaces := ifaces + [chunk[i].interfaceUsed];
      }
    }
    assert chunk[..|chunk|] == chunk;
    DedupSpec(Keys(chunk, InterfaceUsedOf));
  }

  /** `format_packet_datetimes_for_interface_from`: the times of the
      interface's packets, in chunk order. */
  method FormatPacketDatetimes(chunk: seq<PacketRecord>, iface: string) returns (dates: seq<Timestamp>)
    ensures dates == Keys(FilterKey(chunk, InterfaceUsedOf, iface), PacketTimeOf)
  {
    dates := [];
    for i := 0 to |chunk|
      invariant dates == Keys(FilterKey(chunk[..i], InterfaceUsedOf, iface), PacketTimeOf)
    {
      FilterKeyPrefix(chunk, InterfaceUsedOf, iface, i);
      if chunk[i].interfaceUsed == iface {
        KeysSnoc(FilterKey(chunk[..i], InterfaceUsedOf, iface), chunk[i], PacketTimeOf);
        dates := dates + [chunk[i].datetime];
      }
    }
    assert chunk[..|chunk|] == chunk;
  }

  /** `get_all_packet_sizes_for_interface_from`: the sizes of the interface's
      packets, in chunk order. */
  method GetAllPacketSizes(chunk: seq<PacketRecord>, iface: string) returns (sizes: seq<int>)
    ensures sizes == Keys(FilterKey(chunk, InterfaceUsedOf, iface), SizeOf)
  {
    sizes := [];
    for i := 0 to |chunk|
      invariant sizes == Keys(FilterKey(chunk[..i], InterfaceUsedOf, iface), SizeOf)
    {
      FilterKeyPrefix(chunk, InterfaceUsedOf, iface, i);
      if chunk[i].interfaceUsed == iface {
        KeysSnoc(FilterKey(chunk[..i], InterfaceUsedOf, iface), chunk[i], SizeOf);
        sizes := sizes + [chunk[i].size];
      }
    }
    assert chunk[..|chunk|] == chunk;
  }

  function PacketPlot(c: seq<PacketRecord>, iface: string): DataPlotPoint
  {
    var m := FilterKey(c, InterfaceUsedOf, iface);
    DataPlotPoint("", Keys(m, PacketTimeOf), Keys(m, SizeOf), None, None)
  }

  function PacketPlotsFor(c: seq<PacketRecord>, ifaces: seq<string>): seq<DataPlotPoint>
  {
    if |ifaces| == 0 then []
    else PacketPlotsFor(c, ifaces[..|ifaces| - 1]) + [PacketPlot(c, ifaces[|ifaces| - 1])]
  }

  lemma PacketPlotsForPrefix(c: seq<PacketRecord>, ifaces: seq<string>, i: nat)
    requires i < |ifaces|
    ensures PacketPlotsFor(c, ifaces[..i + 1]) == PacketPlotsFor(c, ifaces[..i]) + [PacketPlot(c, ifaces[i])]
  {
    assert ifaces[..i + 1][..i] == ifaces[..i];
  }

  /** The series of a packet chunk: one per interface, in first-occurrence order. */
  function PacketPlots(c: seq<PacketRecord>): seq<DataPlotPoint>
  {
    PacketPlotsFor(c, Dedup(Keys(c, InterfaceUsedOf)))
  }

  /** `generate_packet_data_plot_obj_from` with no formatters. */
  method GeneratePacketDataPlots(chunk: seq<PacketRecord>) returns (plots: seq<DataPlotPoint>)
    ensures plots == PacketPlots(chunk)
  {
    var ifaces := GetAllInterfacesFrom(chunk);
    plots := [];
    for i := 0 to |ifaces|
      invariant plots == PacketPlotsFor(chunk, ifaces[..i])
    {
      var dates := FormatPacketDatetimes(chunk, ifaces[i]);
      var sizes := GetAllPacketSizes(chunk, ifaces[i]);
      PacketPlotsForPrefix(chunk, ifaces, i);
      plots := plots + [DataPlotPoint("", dates, sizes, None, None)];
    }
    assert ifaces[..|ifaces|] == ifaces;
  }

  // ---------------------------------------------------------------------
  // Partition

  /** The number of points over a list of series (the source's per-series
      `zip(y, x)` length). */
  function PointCount(plots: seq<DataPlotPoint>): nat
  {
    if |plots| == 0 then 0
    else
      var p := plots[|plots| - 1];
      PointCount(plots[..|plots| - 1]) + (if |p.y| <= |p.x| then |p.y| else |p.x|)
  }

  lemma {:induction false} PointCountAppend(a: seq<DataPlotPoint>, b: seq<DataPlotPoint>)
    ensures PointCount(a + b) == PointCount(a) + PointCount(b)
  {
    if |b| == 0 {
      assert a + b == a;
    } else {
      assert (a + b)[..|a + b| - 1] == a + b[..|b| - 1];
      PointCountAppend(a, b[..|b| - 1]);
    }
  }

  lemma {:induction false} ServerPlotsCount(c: seq<ProbeRecord>, ip: Option<string>, servers: seq<(string, string)>)
    ensures PointCount(ServerPlots(c, ip, servers)) == GroupSizes(FilterKey(c, IfaceOf, ip), ReceiverOf, Keys(servers, ServerOf))
  {
    if |servers| > 0 {
      var q, last := servers[..|servers| - 1], servers[|servers| - 1];
      assert servers == q + [last];
      ServerPlotsCount(c, ip, q);
      KeysSnoc(q, last, ServerOf);
      assert Keys(servers, ServerOf)[..|q|] == Keys(q, ServerOf);
      MatchingNested(c, ip, last.0);
    }
  }

  lemma {:induction false} IpPlotsCount(c: seq<ProbeRecord>, ips: seq<Option<string>>)
    ensures PointCount(IpPlots(c, ips)) == GroupSizes(c, IfaceOf, ips)
  {
    if |ips| > 0 {
      var q, ip := ips[..|ips| - 1], ips[|ips| - 1];
      IpPlotsCount(c, q);
      PointCountAppend(IpPlots(c, q), ServerPlots(c, ip, ServersFor(c, ip)));
      ServerPlotsCount(c, ip, ServersFor(c, ip));
      ServersForKeys(c, ip);
      GroupsPartition(FilterKey(c, IfaceOf, ip), ReceiverOf);
    }
  }

  /** Every probe row of a chunk lands in exactly one latency series: the
      series' lengths add up to the chunk's length. */
  lemma TimestampPlotsPartition(c: seq<ProbeRecord>)
    ensures PointCount(TimestampPlots(c)) == |c|
  {
    IpPlotsCount(c, Dedup(Keys(c, IfaceOf)));
    GroupsPartition(c, IfaceOf);
  }

  lemma {:induction false} PacketPlotsCount(c: seq<PacketRecord>, ifaces: seq<string>)
    ensures PointCount(PacketPlotsFor(c, ifaces)) == GroupSizes(c, InterfaceUsedOf, ifaces)
  {
    if |ifaces| > 0 {
      PacketPlotsCount(c, ifaces[..|ifaces| - 1]);
    }
  }

  /** Every packet of a chunk lands in exactly one interface series. */
  lemma PacketPlotsPartition(c: seq<PacketRecord>)
    ensures PointCount(PacketPlots(c)) == |c|
  {
    PacketPlotsCount(c, Dedup(Keys(c, InterfaceUsedOf)));
    GroupsPartition(c, InterfaceUsedOf);
  }
}
