/** Packet capture: a `Sniffer` persists every captured IP packet the class-wide
    address filter admits, and lists the address of each interface. The capture
    itself (scapy's `sniff`), the interface list and the address lookup are
    inputs: captured packets arrive as `IpPacket` values. */
module Capture {
  import opened Wrappers
  import opened Records

  /** The IP-layer fields `process_packet` reads. */
  datatype IpPacket = IpPacket(src: string, dst: string, len: int)

  /** `IP_FILTER`: `None` admits every packet; a list admits a packet whose
      source or destination is on it. */
  predicate Admits(ipFilter: Option<seq<string>>, p: IpPacket)
  {
    ipFilter.None? || p.src in ipFilter.value || p.dst in ipFilter.value
  }

  /** The row `save_packet` stores for a packet captured at `at`. */
  function RecordFor(p: IpPacket, readableInterface: string, at: Timestamp): PacketRecord
  {
    PacketRecord(p.len, p.src, p.dst, readableInterface, at)
  }

  /** The rows a sequence of `process_packet` calls stores, in order. */
  function Persisted(ps: seq<(IpPacket, Timestamp)>, ipFilter: Option<seq<string>>, readableInterface: string): seq<PacketRecord>
  {
    if |ps| == 0 then [] else
      Persisted(ps[..|ps| - 1], ipFilter, readableInterface) +
      (if Admits(ipFilter, ps[|ps| - 1].0) then [RecordFor(ps[|ps| - 1].0, readableInterface, ps[|ps| - 1].1)] else [])
  }

  /** Without a filter every captured packet is stored, as itself. */
  lemma {:induction false} NoFilterKeepsAll(ps: seq<(IpPacket, Timestamp)>, readableInterface: string)
    ensures |Persisted(ps, None, readableInterface)| == |ps|
    ensures forall i :: 0 <= i < |ps| ==>
      Persisted(ps, None, readableInterface)[i] == RecordFor(ps[i].0, readableInterface, ps[i].1)
  {
    if |ps| > 0 {
      NoFilterKeepsAll(ps[..|ps| - 1], readableInterface);
    }
  }

  /** With a filter, every stored row has its sender or receiver on it, and
      carries the sniffer's readable interface. */
  lemma {:induction false} FilterOnlyAdmitted(ps: seq<(IpPacket, Timestamp)>, ipFilter: Option<seq<string>>, readableInterface: string)
    ensures forall r :: r in Persisted(ps, ipFilter, readableInterface) ==>
      r.interfaceUsed == readableInterface &&
      (ipFilter.Some? ==> r.sender in ipFilter.value || r.receiver in ipFilter.value)
  {
    if |ps| > 0 {
      FilterOnlyAdmitted(ps[..|ps| - 1], ipFilter, readableInterface);
    }
  }

  /** Packets the filter admits among the first ones. */
  function AdmittedCount(ps: seq<(IpPacket, Timestamp)>, ipFilter: Option<seq<string>>): nat
  {
    if |ps| == 0 then 0
    else AdmittedCount(ps[..|ps| - 1], ipFilter) + (if Admits(ipFilter, ps[|ps| - 1].0) then 1 else 0)
  }

  /** Nothing the filter admits is dropped: one row per admitted packet. */
  lemma {:induction false} PersistedCount(ps: seq<(IpPacket, Timestamp)>, ipFilter: Option<seq<string>>, readableInterface: string)
    ensures |Persisted(ps, ipFilter, readableInterface)| == AdmittedCount(ps, ipFilter)
  {
    if |ps| > 0 {
      PersistedCount(ps[..|ps| - 1], ipFilter, readableInterface);
    }
  }

  /** The per-packet callback handed to `sniff` as `prn`. */
  datatype Callback = ProcessPacketCallback

  /** The test `sniff` runs after each packet: none, or `lambda x:
      self.evt.is_set()`, which ignores the packet and reads the event. */
  datatype StopFilter = NoStopFilter | EventIsSet

  /** The arguments `start_sniffing` hands to `sniff`: the capture filter, the
      callback, the packet budget (passed only when finite), the interface,
      the stop filter, and whether packets are kept in memory. */
  datatype SniffCall = SniffCall(filter: string, prn: Option<Callback>, count: Option<nat>, iface: string,
                                 stopFilter: StopFilter, store: bool)

  /** Whether `sniff` stops after handing packet `i` (counted from 0) to its
      callback: its stop filter holds, `isSet(i)` being what the event reads
      then, or `count` packets have been taken, a count of 0 being scapy's
      "no bound". */
  predicate StopsAfter(call: SniffCall, isSet: nat -> bool, i: nat)
  {
    (call.stopFilter.EventIsSet? && isSet(i)) || (call.count.Some? && 0 < call.count.value <= i + 1)
  }

  /** How many of `available` captured packets `sniff` hands to its callback,
      once it has handed over `i` of them without stopping. */
  function Taken(call: SniffCall, isSet: nat -> bool, available: nat, i: nat): (n: nat)
    requires i <= available
    ensures i <= n <= available
    decreases available - i
  {
    if i == available then i
    else if StopsAfter(call, isSet, i) then i + 1
    else Taken(call, isSet, available, i + 1)
  }

  /** `sniff` hands over packets until the first one after which it stops, and
      no further. */
  lemma {:induction false} TakenStops(call: SniffCall, isSet: nat -> bool, available: nat, i: nat)
    requires i <= available
    ensures forall j :: i <= j < Taken(call, isSet, available, i) - 1 ==> !StopsAfter(call, isSet, j)
    ensures Taken(call, isSet, available, i) < available ==>
      i < Taken(call, isSet, available, i) && StopsAfter(call, isSet, Taken(call, isSet, available, i) - 1)
    decreases available - i
  {
    if i < available && !StopsAfter(call, isSet, i) {
      TakenStops(call, isSet, available, i + 1);
    }
  }

  /** A capture with the event as its stop filter hands over no packet after
      the one at which the event first reads set, never more than a positive
      count, and ends early only at such a packet or at the count. */
  lemma CaptureStopsOnEvent(call: SniffCall, isSet: nat -> bool, available: nat)
    requires call.stopFilter == EventIsSet
    ensures var n := Taken(call, isSet, available, 0);
      (forall j :: 0 <= j < n - 1 ==> !isSet(j)) &&
      (call.count.Some? && call.count.value > 0 ==> n <= call.count.value) &&
      (n < available ==> 0 < n && (isSet(n - 1) || (call.count.Some? && call.count.value == n)))
  {
    TakenStops(call, isSet, available, 0);
    var n := Taken(call, isSet, available, 0);
    forall j: nat | j + 1 < n ensures !isSet(j) {
      assert !StopsAfter(call, isSet, j);
    }
    if call.count.Some? && 0 < call.count.value < n {
      assert StopsAfter(call, isSet, call.count.value - 1);
    }
  }

  class Sniffer {
    const iface: string
    const readableInterface: string
    /** `max_packets`: `None` stands for `inf`. */
    const maxPackets: Option<nat>
    /** The rows this sniffer has stored, oldest first. */
    var written: seq<PacketRecord>

    constructor (interface: string, readable: string, packetCount: Option<nat>)
      ensures iface == interface && readableInterface == readable && maxPackets == packetCount
      ensures written == []
    {
      iface := interface;
      readableInterface := readable;
      maxPackets := packetCount;
      written := [];
    }

    /** `start_sniffing`: the `sniff` call it makes. Both branches hand every
        packet to `process_packet` and stop once the event is set. */
    method StartSniffing() returns (call: SniffCall)
      ensures call.filter == "ip" && call.iface == iface && !call.store
      ensures call.prn == Some(ProcessPacketCallback) && call.stopFilter == EventIsSet
      ensures call.count == maxPackets
    {
      if maxPackets.None? {
        call := SniffCall("ip", Some(ProcessPacketCallback), None, iface, EventIsSet, false);
      } else {
        call := SniffCall("ip", Some(ProcessPacketCallback), Some(maxPackets.value), iface, EventIsSet, false);
      }
    }

    /** `process_packet`: stores the packet when the filter admits it. */
    method ProcessPacket(p: IpPacket, ipFilter: Option<seq<string>>, at: Timestamp)
      modifies this`written
      ensures written == old(written) + Persisted([(p, at)], ipFilter, readableInterface)
    {
      assert [(p, at)][..0] == [];
      if ipFilter.Some? {
        if !(p.src in ipFilter.value || p.dst in ipFilter.value) {
          return;
        }
      }
      written := written + [PacketRecord(p.len, p.src, p.dst, readableInterface, at)];
    }
  }

  /** `get_interface_ip_list`: the address of each interface, in order;
      `addrOf` stands for scapy's `get_if_addr`. */
  method GetInterfaceIpList(ifaces: seq<string>, addrOf: string -> string) returns (ips: seq<string>)
    ensures |ips| == |ifaces|
    ensures forall i :: 0 <= i < |ifaces| ==> ips[i] == addrOf(ifaces[i])
  {
    ips := [];
    for k := 0 to |ifaces|
      invariant |ips| == k
      invariant forall i :: 0 <= i < k ==> ips[i] == addrOf(ifaces[i])
    {
      ips := ips + [addrOf(ifaces[k])];
    }
  }
}
