/** The probe sweep: a `StabilityTester` pings every target once per sweep, in
    order, and for each outcome persists a row, stamps the live view, updates
    the target's last latency and pauses as the outcome dictates. Pings, the
    clock and the cancellation event are inputs: `outcome(i)` is what probing
    target `i` gives, `isSet(k)` what the event reads before sweep `k`. */
module NetTest {
  import opened Wrappers
  import opened Records
  import Seqs

  /** The pause after a `PingError`, 0.1 s. */
  const PingErrorPauseMs := 100

  /** What probing one target gave: a reply in `ms` (already truncated to an
      integer) received at `at`, a timeout noticed at `at`, a `PingError`, or
      any other exception. */
  datatype Probe = Reply(ms: nat, at: Timestamp) | TimedOut(at: Timestamp) | PingFailed | OtherFailure

  /** What one probe did: the row persisted, the `(label, ms)` stamp sent to the
      live view, the printed latency variation, and the pause taken. */
  datatype Effect = Effect(
    record: Option<ProbeRecord>,
    stamp: Option<(string, int)>,
    variation: Option<int>,
    pause: Option<nat>)

  /** The `except` ladder of `loop_servers` for one target; `previous` is the
      target's last latency before this probe. */
  function ProbeEffect(server: string, readable: string, iface: Option<string>, upperLimit: int,
                       sleepMs: nat, previous: int, p: Probe): Effect
  {
    match p
    case Reply(ms, at) =>
      Effect(Some(ProbeRecord(ms, upperLimit, server, readable, iface, false, at)), Some((readable, ms)),
             Some(ms - previous), Some(if ms < sleepMs then sleepMs - ms else 0))
    case TimedOut(at) =>
      Effect(Some(ProbeRecord(0, upperLimit, server, readable, iface, true, at)), Some((readable, 0)), None, None)
    case PingFailed => Effect(None, Some((readable, 0)), None, Some(PingErrorPauseMs))
    case OtherFailure => Effect(None, None, None, Some(sleepMs))
  }

  /** The latencies once targets `0..k-1` have been probed: each reply
      replaces the target's entry, any other outcome leaves it. */
  function SweepHistoryUpTo(history: seq<int>, outcome: nat -> Probe, k: nat): (r: seq<int>)
    requires k <= |history|
    ensures |r| == |history|
  {
    if k == 0 then history
    else if outcome(k - 1).Reply? then SweepHistoryUpTo(history, outcome, k - 1)[k - 1 := outcome(k - 1).ms]
    else SweepHistoryUpTo(history, outcome, k - 1)
  }

  function SweepHistory(history: seq<int>, outcome: nat -> Probe): seq<int>
  {
    SweepHistoryUpTo(history, outcome, |history|)
  }

  /** A sweep changes a target's entry only by probing it, and only on a reply. */
  lemma {:induction false} SweepHistoryAt(history: seq<int>, outcome: nat -> Probe, k: nat)
    requires k <= |history|
    ensures forall j :: 0 <= j < k ==>
      SweepHistoryUpTo(history, outcome, k)[j] == if outcome(j).Reply? then outcome(j).ms else history[j]
    ensures forall j :: k <= j < |history| ==> SweepHistoryUpTo(history, outcome, k)[j] == history[j]
  {
    if k > 0 {
      SweepHistoryAt(history, outcome, k - 1);
    }
  }

  /** Outcomes of each kind among targets `0..k-1`. */
  function Replies(outcome: nat -> Probe, k: nat): nat
  {
    if k == 0 then 0 else Replies(outcome, k - 1) + (if outcome(k - 1).Reply? then 1 else 0)
  }

  function Timeouts(outcome: nat -> Probe, k: nat): nat
  {
    if k == 0 then 0 else Timeouts(outcome, k - 1) + (if outcome(k - 1).TimedOut? then 1 else 0)
  }

  function PingErrors(outcome: nat -> Probe, k: nat): nat
  {
    if k == 0 then 0 else PingErrors(outcome, k - 1) + (if outcome(k - 1).PingFailed? then 1 else 0)
  }

  function Others(outcome: nat -> Probe, k: nat): nat
  {
    if k == 0 then 0 else Others(outcome, k - 1) + (if outcome(k - 1).OtherFailure? then 1 else 0)
  }

  /** Every probe has exactly one of the four outcomes. */
  lemma {:induction false} OutcomeCounts(outcome: nat -> Probe, k: nat)
    ensures Replies(outcome, k) + Timeouts(outcome, k) + PingErrors(outcome, k) + Others(outcome, k) == k
  {
    if k > 0 {
      OutcomeCounts(outcome, k - 1);
    }
  }

  /** Rows flagged `interface_dead` among the first `k`. */
  function DeadRecords(rs: seq<ProbeRecord>): nat
  {
    if |rs| == 0 then 0 else DeadRecords(rs[..|rs| - 1]) + (if rs[|rs| - 1].interfaceDead then 1 else 0)
  }

  lemma DeadRecordsAppend(a: seq<ProbeRecord>, b: seq<ProbeRecord>)
    requires |b| <= 1
    ensures DeadRecords(a + b) == DeadRecords(a) + DeadRecords(b)
  {
    if |b| == 1 {
      assert (a + b)[..|a|] == a;
      assert b[..0] == [];
    } else {
      assert a + b == a;
    }
  }

  /** The latency of the last reply target `i` gave in sweeps `0..s-1`, or
      `initial` if it never replied. */
  function LastReply(probes: nat -> nat -> Probe, i: nat, s: nat, initial: int): int
  {
    if s == 0 then initial
    else if probes(s - 1)(i).Reply? then probes(s - 1)(i).ms
    else LastReply(probes, i, s - 1, initial)
  }

  /** The latencies after `s` sweeps. */
  function RunHistory(history: seq<int>, probes: nat -> nat -> Probe, s: nat): (r: seq<int>)
    ensures |r| == |history|
  {
    if s == 0 then history else SweepHistory(RunHistory(history, probes, s - 1), probes(s - 1))
  }

  /** After any number of sweeps each target's entry is its last reply, or its
      starting value if it never replied. */
  lemma {:induction false} RunHistoryLastReply(history: seq<int>, probes: nat -> nat -> Probe, s: nat)
    ensures forall i :: 0 <= i < |history| ==> RunHistory(history, probes, s)[i] == LastReply(probes, i, s, history[i])
  {
    if s > 0 {
      RunHistoryLastReply(history, probes, s - 1);
      SweepHistoryAt(RunHistory(history, probes, s - 1), probes(s - 1), |history|);
    }
  }

  /** For each of targets `0..k-1` that replied, its latency minus `history`'s entry. */
  function ReplyDeltas(history: seq<int>, outcome: nat -> Probe, k: nat): seq<int>
    requires k <= |history|
  {
    if k == 0 then [] else
      ReplyDeltas(history, outcome, k - 1) +
      (if outcome(k - 1).Reply? then [outcome(k - 1).ms - history[k - 1]] else [])
  }

  datatype TesterError = ServerHostNameMismatch

  class StabilityTester {
    const servers: seq<string>
    const serversReadable: seq<string>
    /** `src_addr`, the source address every probe is sent from. */
    const iface: Option<string>
    const upperLimit: int
    const sleepMs: nat
    /** The last reply latency per target, 0 before any. */
    var localHistory: seq<int>
    /** The rows this tester has persisted, oldest first. */
    var written: seq<ProbeRecord>

    ghost predicate Valid()
      reads this
    {
      |serversReadable| == |servers| && |localHistory| == |servers|
    }

    constructor (targets: seq<string>, readable: seq<string>, srcAddr: Option<string>, limit: int, pause: nat)
      requires |readable| == |targets|
      ensures Valid()
      ensures servers == targets && serversReadable == readable && iface == srcAddr
      ensures upperLimit == limit && sleepMs == pause
      ensures localHistory == seq(|targets|, _ => 0) && written == []
    {
      servers := targets;
      serversReadable := readable;
      iface := srcAddr;
      upperLimit := limit;
      sleepMs := pause;
      var zeros: seq<int> := [];
      for k := 0 to |targets|
        invariant zeros == seq(k, _ => 0)
      {
        zeros := zeros + [0];
      }
      localHistory := zeros;
      written := [];
    }

    /** What probing target `i` does, given the latencies at the sweep's start. */
    function EffectAt(history: seq<int>, outcome: nat -> Probe, i: nat): Effect
      requires |serversReadable| == |servers| && |history| == |servers| && i < |servers|
    {
      ProbeEffect(servers[i], serversReadable[i], iface, upperLimit, sleepMs, history[i], outcome(i))
    }

    /** The rows persisted while probing targets `0..k-1`, in order. */
    function SweepRecords(history: seq<int>, outcome: nat -> Probe, k: nat): seq<ProbeRecord>
      requires |serversReadable| == |servers| && |history| == |servers| && k <= |servers|
    {
      if k == 0 then [] else
        var e := EffectAt(history, outcome, k - 1).record;
        SweepRecords(history, outcome, k - 1) + (if e.Some? then [e.value] else [])
    }

    /** The stamps sent while probing targets `0..k-1`, in order. */
    function SweepStamps(history: seq<int>, outcome: nat -> Probe, k: nat): seq<(string, int)>
      requires |serversReadable| == |servers| && |history| == |servers| && k <= |servers|
    {
      if k == 0 then [] else
        var e := EffectAt(history, outcome, k - 1).stamp;
        SweepStamps(history, outcome, k - 1) + (if e.Some? then [e.value] else [])
    }

    /** The variations printed while probing targets `0..k-1`, in order. */
    function SweepVariations(history: seq<int>, outcome: nat -> Probe, k: nat): seq<int>
      requires |serversReadable| == |servers| && |history| == |servers| && k <= |servers|
    {
      if k == 0 then [] else
        var e := EffectAt(history, outcome, k - 1).variation;
        SweepVariations(history, outcome, k - 1) + (if e.Some? then [e.value] else [])
    }

    /** The pauses taken while probing targets `0..k-1`, in order. */
    function SweepPauses(history: seq<int>, outcome: nat -> Probe, k: nat): seq<nat>
      requires |serversReadable| == |servers| && |history| == |servers| && k <= |servers|
    {
      if k == 0 then [] else
        var e := EffectAt(history, outcome, k - 1).pause;
        SweepPauses(history, outcome, k - 1) + (if e.Some? then [e.value] else [])
    }

    /** `loop_servers`: one probe per target in index order; no outcome ends
        the sweep early. Returns the stamps sent to the live view, the printed
        variations and the pauses taken, in order. */
    method LoopServers(outcome: nat -> Probe) returns (stamps: seq<(string, int)>, variations: seq<int>, pauses: seq<nat>)
      requires Valid()
      modifies this`localHistory, this`written
      ensures Valid()
      ensures localHistory == SweepHistory(old(localHistory), outcome)
      ensures written == old(written) + SweepRecords(old(localHistory), outcome, |servers|)
      ensures stamps == SweepStamps(old(localHistory), outcome, |servers|)
      ensures variations == SweepVariations(old(localHistory), outcome, |servers|)
      ensures pauses == SweepPauses(old(localHistory), outcome, |servers|)
    {
      ghost var start := localHistory;
      stamps, variations, pauses := [], [], [];
      for i := 0 to |servers|
        invariant localHistory == SweepHistoryUpTo(start, outcome, i)
        invariant written == old(written) + SweepRecords(start, outcome, i)
        invariant stamps == SweepStamps(start, outcome, i)
        invariant variations == SweepVariations(start, outcome, i)
        invariant pauses == SweepPauses(start, outcome, i)
      {
        SweepHistoryAt(start, outcome, i);
        match outcome(i)
        case Reply(ms, at) =>
          var timeLeft := if ms < sleepMs then sleepMs - ms else 0;
          Seqs.AppendAssoc(old(written), SweepRecords(start, outcome, i), [ProbeRecord(ms, upperLimit, servers[i], serversReadable[i], iface, false, at)]);
          written := written + [ProbeRecord(ms, upperLimit, servers[i], serversReadable[i], iface, false, at)];
          stamps := stamps + [(serversReadable[i], ms)];
          variations := variations + [ms - localHistory[i]];
          localHistory := localHistory[i := ms];
          pauses := pauses + [timeLeft];
        case TimedOut(at) =>
          Seqs.AppendAssoc(old(written), SweepRecords(start, outcome, i), [ProbeRecord(0, upperLimit, servers[i], serversReadable[i], iface, true, at)]);
          written := written + [ProbeRecord(0, upperLimit, servers[i], serversReadable[i], iface, true, at)];
          stamps := stamps + [(serversReadable[i], 0)];
        case PingFailed =>
          stamps := stamps + [(serversReadable[i], 0)];
          pauses := pauses + [PingErrorPauseMs];
        case OtherFailure =>
          pauses := pauses + [sleepMs];
      }
    }

    /** The rows persisted by `s` sweeps starting from the latencies `history`. */
    function RunRecords(history: seq<int>, probes: nat -> nat -> Probe, s: nat): seq<ProbeRecord>
      requires |serversReadable| == |servers| && |history| == |servers|
    {
      if s == 0 then [] else
        RunRecords(history, probes, s - 1) +
        SweepRecords(RunHistory(history, probes, s - 1), probes(s - 1), |servers|)
    }

    /** `ping_with_event`: sweeps until the event reads set before a sweep.
        `stopBy` is a sweep before which the event is set, so the run ends. */
    method PingWithEvent(isSet: nat -> bool, probes: nat -> nat -> Probe, ghost stopBy: nat) returns (sweeps: nat)
      requires Valid() && isSet(stopBy)
      modifies this`localHistory, this`written
      ensures Valid()
      ensures isSet(sweeps) && forall k :: 0 <= k < sweeps ==> !isSet(k)
      ensures localHistory == RunHistory(old(localHistory), probes, sweeps)
      ensures written == old(written) + RunRecords(old(localHistory), probes, sweeps)
    {
      ghost var h0, w0 := localHistory, written;
      sweeps := 0;
      while !isSet(sweeps)
        invariant Valid() && sweeps <= stopBy
        invariant forall k :: 0 <= k < sweeps ==> !isSet(k)
        invariant localHistory == RunHistory(h0, probes, sweeps)
        invariant written == w0 + RunRecords(h0, probes, sweeps)
        decreases stopBy - sweeps
      {
        Seqs.AppendAssoc(w0, RunRecords(h0, probes, sweeps), SweepRecords(localHistory, probes(sweeps), |servers|));
        var _, _, _ := LoopServers(probes(sweeps));
        sweeps := sweeps + 1;
      }
    }

    /** `ping_with_event_counter`: at most `c` sweeps, stopping early at the
        first sweep before which the event reads set. */
    method PingWithEventCounter(isSet: nat -> bool, c: nat, probes: nat -> nat -> Probe) returns (sweeps: nat)
      requires Valid()
      modifies this`localHistory, this`written
      ensures Valid()
      ensures sweeps <= c && forall k :: 0 <= k < sweeps ==> !isSet(k)
      ensures sweeps < c ==> isSet(sweeps)
      ensures localHistory == RunHistory(old(localHistory), probes, sweeps)
      ensures written == old(written) + RunRecords(old(localHistory), probes, sweeps)
    {
      ghost var h0, w0 := localHistory, written;
      sweeps := 0;
      while sweeps < c
        invariant Valid() && sweeps <= c
        invariant forall k :: 0 <= k < sweeps ==> !isSet(k)
        invariant localHistory == RunHistory(h0, probes, sweeps)
        invariant written == w0 + RunRecords(h0, probes, sweeps)
      {
        if isSet(sweeps) {
          break;
        }
        Seqs.AppendAssoc(w0, RunRecords(h0, probes, sweeps), SweepRecords(localHistory, probes(sweeps), |servers|));
        var _, _, _ := LoopServers(probes(sweeps));
        sweeps := sweeps + 1;
      }
    }

    /** The rows a sweep persists are its replies and its timeouts, and the
        rows flagged dead are exactly its timeouts. */
    lemma {:induction false} SweepRecordCount(history: seq<int>, outcome: nat -> Probe, k: nat)
      requires |serversReadable| == |servers| && |history| == |servers| && k <= |servers|
      ensures |SweepRecords(history, outcome, k)| == Replies(outcome, k) + Timeouts(outcome, k)
      ensures DeadRecords(SweepRecords(history, outcome, k)) == Timeouts(outcome, k)
    {
      if k > 0 {
        SweepRecordCount(history, outcome, k - 1);
        var e := EffectAt(history, outcome, k - 1);
        DeadRecordsAppend(SweepRecords(history, outcome, k - 1), if e.record.Some? then [e.record.value] else []);
      }
    }

    /** Every outcome but another failure stamps the live view, every outcome
        but a timeout pauses, and only replies print a variation. */
    lemma {:induction false} SweepSideEffectCount(history: seq<int>, outcome: nat -> Probe, k: nat)
      requires |serversReadable| == |servers| && |history| == |servers| && k <= |servers|
      ensures |SweepStamps(history, outcome, k)| == k - Others(outcome, k)
      ensures |SweepPauses(history, outcome, k)| == k - Timeouts(outcome, k)
      ensures |SweepVariations(history, outcome, k)| == Replies(outcome, k)
    {
      if k > 0 {
        SweepSideEffectCount(history, outcome, k - 1);
        OutcomeCounts(outcome, k - 1);
      }
    }

    /** Every row a sweep persists belongs to one probed target: it carries the
        configured limit and source address, that target and its label, and
        either the target's reply latency, live, or 0 ms, dead, for a timeout. */
    lemma {:induction false} SweepRecordFields(history: seq<int>, outcome: nat -> Probe, k: nat)
      requires |serversReadable| == |servers| && |history| == |servers| && k <= |servers|
      ensures forall r :: r in SweepRecords(history, outcome, k) ==>
        exists j :: 0 <= j < k && RowOf(j, outcome(j), r)
    {
      if k > 0 {
        SweepRecordFields(history, outcome, k - 1);
        var e := EffectAt(history, outcome, k - 1).record;
        if e.Some? {
          assert RowOf(k - 1, outcome(k - 1), e.value);
        }
      }
    }

    /** Every reply and every timeout of a sweep is persisted, as the row it
        describes. */
    lemma {:induction false} SweepRecordsStored(history: seq<int>, outcome: nat -> Probe, k: nat)
      requires |serversReadable| == |servers| && |history| == |servers| && k <= |servers|
      ensures forall j :: 0 <= j < k && outcome(j).Reply? ==>
        ProbeRecord(outcome(j).ms, upperLimit, servers[j], serversReadable[j], iface, false, outcome(j).at)
          in SweepRecords(history, outcome, k)
      ensures forall j :: 0 <= j < k && outcome(j).TimedOut? ==>
        ProbeRecord(0, upperLimit, servers[j], serversReadable[j], iface, true, outcome(j).at)
          in SweepRecords(history, outcome, k)
    {
      if k > 0 {
        SweepRecordsStored(history, outcome, k - 1);
      }
    }

    /** `r` is the row probing target `j` with outcome `p` persists. */
    ghost predicate RowOf(j: nat, p: Probe, r: ProbeRecord)
    {
      j < |servers| && j < |serversReadable| &&
      r.limit == upperLimit && r.iface == iface &&
      r.receiver == servers[j] && r.receiverReadable == serversReadable[j] &&
      match p
      case Reply(ms, at) => r.ms == ms && !r.interfaceDead && r.datetime == at
      case TimedOut(at) => r.ms == 0 && r.interfaceDead && r.datetime == at
      case _ => false
    }

    /** The printed variations are, in order, each replying target's latency
        minus its latency before the sweep. */
    lemma {:induction false} SweepVariationsDeltas(history: seq<int>, outcome: nat -> Probe, k: nat)
      requires |serversReadable| == |servers| && |history| == |servers| && k <= |servers|
      ensures SweepVariations(history, outcome, k) == ReplyDeltas(history, outcome, k)
    {
      if k > 0 {
        SweepVariationsDeltas(history, outcome, k - 1);
      }
    }
  }

  /** `StabilityTester(src_addr)` over the two lists read from the targets
      file: raises `ServerHostNameMismatchException` exactly when they differ
      in length. */
  method NewTester(targets: seq<string>, readable: seq<string>, srcAddr: Option<string>, limit: int, pause: nat)
    returns (r: Result<StabilityTester, TesterError>)
    ensures r.Failure? <==> |targets| != |readable|
    ensures r.Success? ==> fresh(r.value) && r.value.Valid()
    ensures r.Success? ==> r.value.servers == targets && r.value.serversReadable == readable && r.value.iface == srcAddr
    ensures r.Success? ==> r.value.upperLimit == limit && r.value.sleepMs == pause
    ensures r.Success? ==> r.value.localHistory == seq(|targets|, _ => 0) && r.value.written == []
  {
    if |targets| != |readable| {
      return Failure(ServerHostNameMismatch);
    }
    var tester := new StabilityTester(targets, readable, srcAddr, limit, pause);
    return Success(tester);
  }
}
