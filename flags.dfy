/** The command-line handler: `parse_sys_args` walks `argv` once, skipping
    the arguments a flag consumed, and stops at the first exception, which it
    keeps; `post_processing` then checks the flags against each other and
    appends one error per broken rule. */
module Flags {
  import opened Wrappers
  import opened Text
  import opened Seqs
  import opened FlagChecks

  /** The flags the handler accepts, upper-cased. */
  const ValidFlags: seq<string> := ["-I", "-L", "-T", "-SNIFF", "-F", "-C", "-SAVE", "-O", "-CSV", "-PDF",
                                    "-GRAPH", "-RECORDS", "-DYNAMIC", "-ONEFILE", "-VERBOSE_ONEFILE",
                                    "-RELAXED", "-KALM", "-DATA", "-ANON", "-PICKLE"]

  /** The flags followed by a value. */
  const ValueFlags: seq<string> := ["-I", "-L", "-T", "-F", "-C", "-DATA", "-SAVE", "-RECORDS", "-O", "-RELAXED"]

  /** How many following arguments a flag consumes. */
  function Consumed(flag: string): nat
  {
    if flag == "-SAVE" then 2 else if flag in ValueFlags then 1 else 0
  }

  /** A date argument: the split text `parse_sys_args` stores, or the
      `datetime` `post_processing` replaces it with. */
  datatype DateArg = Parts(parts: seq<string>) | Date(date: DateTime)

  /** The handler's settings. `None` for `packetCount` and `loopTimes` stands
      for `inf`. */
  datatype Settings = Settings(
    interfaceIpv4: Option<string>, interfaceReadable: Option<string>, dynamic: bool,
    packetCount: Option<int>, loopTimes: Option<int>, sleepTime: real,
    saveFound: bool, outputFound: bool, dataChunkFound: bool, pickleFound: bool,
    saveStart: Option<DateArg>, saveEnd: Option<DateArg>, outputPath: Option<string>,
    ipFilter: Option<seq<string>>,
    recordsFlag: bool, recordsDate: Option<DateArg>, recordsType: Option<nat>,
    pickleFlag: bool, anon: bool, sniff: bool, csv: bool, pdf: bool, graph: bool,
    onefile: bool, verboseOnefile: bool,
    dropThreshold: int, dataChunk: int,
    pickles: seq<string>)

  /** The settings a new handler starts from. */
  function Defaults(): Settings
  {
    Settings(None, None, false,
             None, None, 1.0,
             false, false, false, false,
             None, None, None,
             None,
             false, None, None,
             false, false, false, false, false, false,
             false, false,
             1, 10000,
             [])
  }

  /** A pickle file argument: longer than two characters and ending in ".p". */
  predicate IsPickleName(arg: string)
  {
    |arg| > 2 && arg[|arg| - 2..] == ".p"
  }

  /** The setting a flag without a value turns on. */
  function SwitchOn(flag: string, st: Settings): Settings
  {
    if flag == "-SNIFF" then st.(sniff := true)
    else if flag == "-ANON" then st.(anon := true)
    else if flag == "-PICKLE" then st.(pickleFlag := true)
    else if flag == "-DYNAMIC" then st.(dynamic := true)
    else if flag == "-CSV" then st.(csv := true)
    else if flag == "-PDF" then st.(pdf := true)
    else if flag == "-GRAPH" then st.(graph := true)
    else if flag == "-ONEFILE" then st.(onefile := true)
    else if flag == "-VERBOSE_ONEFILE" then st.(verboseOnefile := true)
    else if flag == "-KALM" then st.(dropThreshold := 10000)
    else st
  }

  /** The type a single-value flag's value must have. */
  function TypeFor(flag: string): TypeCheck
  {
    if flag == "-L" || flag == "-C" || flag == "-RELAXED" then IntCheck
    else if flag == "-T" then FloatCheck
    else if flag == "-O" then StrCheck
    else NoCheck
  }

  /** Stores the checked value of a single-value flag. */
  function Store(flag: string, v: string, st: Settings): Settings
    requires Converts(TypeFor(flag), v)
  {
    if flag == "-I" then st.(interfaceIpv4 := Some(v))
    else if flag == "-L" then st.(loopTimes := Some(ParseInt(v).value))
    else if flag == "-T" then st.(sleepTime := ParseReal(v).value)
    else if flag == "-F" then st.(ipFilter := Some(Split(v, ',')))
    else if flag == "-C" then st.(packetCount := Some(ParseInt(v).value))
    else if flag == "-O" then st.(outputPath := Some(v), outputFound := true)
    else if flag == "-RELAXED" then st.(dropThreshold := ParseInt(v).value)
    else st
  }

  /** What handling one argument did: the new settings, how many following
      arguments to skip, and whether `index` advanced. */
  datatype Step = Step(settings: Settings, skip: nat, advance: bool)

  /** A flag that takes a value, at position `index` as `parse_sys_args`
      counts it. `-DATA` reads its value before checking it is there. */
  function ValueFlag(arg: string, flag: string, argv: seq<string>, index: nat, st: Settings): (r: Result<Step, CmdError>)
    requires flag in ValueFlags
    ensures r.Success? ==> r.value.skip == Consumed(flag) && r.value.advance
  {
    if flag == "-DATA" then
      if index + 1 >= |argv| then Failure(IndexOutOfRange(index + 1))
      else
        match ArgSanityCheck("-DATA", argv[index + 1], PositiveInt)
        case Failure(e) => Failure(e)
        case Success(_) =>
          match ArgHasValue(arg, index, argv, 1, IntCheck, None)
          case Failure(e) => Failure(e)
          case Success(_) =>
            Success(Step(st.(dataChunk := ParseInt(argv[index + 1]).value, dataChunkFound := true), 1, true))
    else if flag == "-SAVE" then
      match ArgHasValue(arg, index, argv, 2, NoCheck, None)
      case Failure(e) => Failure(e)
      case Success(_) =>
        match ArgHasValue(arg, index, argv, 1, NoCheck, None)
        case Failure(e) => Failure(e)
        case Success(_) =>
          match ArgSanityCheck("-SAVE", argv[index + 1], DateLengthOk)
          case Failure(e) => Failure(e)
          case Success(_) =>
            match ArgSanityCheck("-SAVE", argv[index + 1], DateLengthOk)
            case Failure(e) => Failure(e)
            case Success(_) =>
              Success(Step(st.(saveStart := Some(Parts(Split(argv[index + 1], ','))),
                               saveEnd := Some(Parts(Split(argv[index + 2], ','))),
                               saveFound := true), 2, true))
    else
      match ArgHasValue(arg, index, argv, 1, TypeFor(flag), None)
      case Failure(e) => Failure(e)
      case Success(_) =>
        var v := argv[index + 1];
        if flag == "-RECORDS" then
          match ArgSanityCheck("-RECORDS", v, DateLengthOk)
          case Failure(e) => Failure(e)
          case Success(_) =>
            Success(Step(st.(recordsDate := Some(Parts(Split(v, ','))), recordsFlag := true), 1, true))
        else
          Success(Step(Store(flag, v, st), 1, true))
  }

  /** One argument that is not skipped: `arg` is the argument itself, while
      values are read at `index`, which a pickle file does not advance. An
      unknown argument is a pickle file or raises `InvalidFlagError`; every
      accepted flag consumes as many arguments as it takes. */
  function HandleArg(arg: string, argv: seq<string>, index: nat, st: Settings): (r: Result<Step, CmdError>)
    ensures ToUpper(arg) !in ValidFlags ==>
      (r.Success? <==> IsPickleName(arg)) &&
      (r.Success? ==> r.value == Step(st.(pickleFound := true, pickles := st.pickles + [arg]), 0, false)) &&
      (r.Failure? ==> r.error == InvalidFlag(arg))
    ensures r.Success? ==> r.value.skip == Consumed(ToUpper(arg)) && (r.value.advance <==> ToUpper(arg) in ValidFlags)
    ensures ToUpper(arg) == "-KALM" ==> r == Success(Step(st.(dropThreshold := 10000), 0, true))
  {
    var flag := ToUpper(arg);
    if flag !in ValidFlags then
      if IsPickleName(arg) then Success(Step(st.(pickleFound := true, pickles := st.pickles + [arg]), 0, false))
      else Failure(InvalidFlag(arg))
    else if flag in ValueFlags then ValueFlag(arg, flag, argv, index, st)
    else Success(Step(SwitchOn(flag, st), 0, true))
  }

  /** The rest of `parse_sys_args` from argument `p` on: the final settings
      and the exception that ended it, if one did. */
  function ParseFrom(argv: seq<string>, p: nat, index: nat, skip: nat, st: Settings): (Settings, Option<CmdError>)
    requires p <= |argv|
    decreases |argv| - p
  {
    if p == |argv| then (st, None)
    else if skip > 0 then ParseFrom(argv, p + 1, index + 1, skip - 1, st)
    else
      match HandleArg(argv[p], argv, index, st)
      case Failure(e) => (st, Some(e))
      case Success(step) => ParseFrom(argv, p + 1, if step.advance then index + 1 else index, step.skip, step.settings)
  }

  /** `parse_sys_args` as a whole: the first argument is skipped. */
  function Parse(argv: seq<string>, st: Settings): (Settings, Option<CmdError>)
  {
    ParseFrom(argv, 0, 0, 1, st)
  }

  function OptionToSeq<T>(o: Option<T>): seq<T>
  {
    if o.Some? then [o.value] else []
  }

  /** The result of `post_processing`: the settings, the errors appended, and
      the exception that escaped it, if one did. */
  datatype Outcome = Outcome(settings: Settings, added: seq<CmdError>, raised: Option<CmdError>)

  /** `convert_list_datetime` on a stored date; one already converted is not a
      list and raises. */
  function ConvertArg(d: DateArg, flag: string): Result<DateTime, CmdError>
  {
    match d
    case Parts(ps) => ConvertListDatetime(ps, flag)
    case Date(_) => Failure(NotAList)
  }

  /** What the `-records` step leaves behind: the records type and date, and
      the exception it raised, if it did. */
  datatype RecordsStep = RecordsStep(recordsType: Option<nat>, recordsDate: Option<DateArg>, raised: Option<CmdError>)

  /** The `-records` step: the number of parts becomes the records type and
      the parts become a date; its exception is not caught. */
  function RecordsPhase(st: Settings): (r: RecordsStep)
    ensures !st.recordsFlag ==> r == RecordsStep(st.recordsType, st.recordsDate, None)
  {
    if !st.recordsFlag then RecordsStep(st.recordsType, st.recordsDate, None)
    else match st.recordsDate
      case Some(Parts(ps)) =>
        (match ConvertListDatetime(ps, "-RECORDS")
         case Failure(e) => RecordsStep(Some(|ps|), st.recordsDate, Some(e))
         case Success(d) => RecordsStep(Some(|ps|), Some(Date(d)), None))
      case _ => RecordsStep(st.recordsType, st.recordsDate, Some(NotAList))
  }

  /** What the `-save` dates step leaves behind: the two dates and the errors
      it collected. */
  datatype DatesStep = DatesStep(saveStart: Option<DateArg>, saveEnd: Option<DateArg>, errors: seq<CmdError>)

  /** The `-save` dates step: both dates convert and the end comes more than a
      second after the start (`later`), or one error is collected and the
      dates stay as they were. */
  function SaveDatesPhase(st: Settings, later: (DateTime, DateTime) -> bool): DatesStep
  {
    var kept := DatesStep(st.saveStart, st.saveEnd, []);
    if st.saveStart.Some? && st.saveEnd.Some? then
      match ConvertArg(st.saveStart.value, "-SAVE")
      case Failure(e) => kept.(errors := [e])
      case Success(s) =>
        match ConvertArg(st.saveEnd.value, "-SAVE")
        case Failure(e) => kept.(errors := [e])
        case Success(t) =>
          if !later(s, t) then kept.(errors := [InvalidFormat(SaveDatesReversed)])
          else DatesStep(Some(Date(s)), Some(Date(t)), [])
    else kept
  }

  /** One rule's report: its error when it is broken, nothing otherwise. */
  function Rule(broken: bool, rule: FormatRule): (r: seq<CmdError>)
    ensures forall e :: e in r <==> broken && e == InvalidFormat(rule)
  {
    if broken then [InvalidFormat(rule)] else []
  }

  predicate OutSpecifier(st: Settings)
  {
    st.csv || st.pdf || st.graph || st.onefile || st.verboseOnefile
  }

  /** The condition under which `post_processing` reports each rule. The
      date rules are judged by the dates step, not by the flags. */
  predicate Broken(st: Settings, rule: FormatRule)
  {
    match rule
    case OutputWithoutSave => !st.saveFound && st.outputFound
    case SaveWithoutOutput => st.saveFound && !st.outputFound
    case NoOutputSpecifier => st.saveFound && st.outputFound && !OutSpecifier(st)
    case VerboseWithoutGraph => st.verboseOnefile && !st.graph
    case SpecifierWithoutSave => OutSpecifier(st) && !st.saveFound && st.outputFound
    case DataWithoutSave => st.dataChunkFound && !st.saveFound
    case AnonWithoutSave => st.anon && !st.saveFound
    case PickleWithoutSave => st.pickleFlag && !st.saveFound
    case PickleWithoutGraph => st.pickleFlag && !st.graph
    case DynamicWithSniff => st.dynamic && st.sniff
    case InterfaceMissing => st.interfaceIpv4.None? && !st.saveFound && !st.dynamic && !st.pickleFound
    case NegativeSleep => st.sleepTime < 0.0
    case NegativeLoops => st.loopTimes.Some? && st.loopTimes.value < 0
    case NegativeThreshold => st.dropThreshold < 0
    case NegativePacketCount => st.packetCount.Some? && st.packetCount.value < 0
    case ThresholdWithoutVerbose => st.dropThreshold != 1 && !st.verboseOnefile
    case _ => false
  }

  /** The group of `post_processing` checks each rule belongs to. */
  datatype RuleGroup = EarlyGroup | SaveNeededGroup | ModeGroup | SignGroup | ThresholdGroup | Ungrouped

  function GroupOf(rule: FormatRule): RuleGroup
  {
    match rule
    case OutputWithoutSave => EarlyGroup
    case SaveWithoutOutput => EarlyGroup
    case NoOutputSpecifier => EarlyGroup
    case VerboseWithoutGraph => EarlyGroup
    case SpecifierWithoutSave => SaveNeededGroup
    case DataWithoutSave => SaveNeededGroup
    case AnonWithoutSave => SaveNeededGroup
    case PickleWithoutSave => SaveNeededGroup
    case PickleWithoutGraph => ModeGroup
    case DynamicWithSniff => ModeGroup
    case InterfaceMissing => ModeGroup
    case NegativeSleep => SignGroup
    case NegativeLoops => SignGroup
    case NegativeThreshold => SignGroup
    case NegativePacketCount => SignGroup
    case ThresholdWithoutVerbose => ThresholdGroup
    case _ => Ungrouped
  }

  /** The rules checked before the interface lookup. */
  predicate BeforeLookup(rule: FormatRule)
  {
    GroupOf(rule).EarlyGroup? || GroupOf(rule).SaveNeededGroup? || GroupOf(rule).ModeGroup?
  }

  /** The rules checked after the interface lookup. */
  predicate AfterLookup(rule: FormatRule)
  {
    GroupOf(rule).SignGroup? || GroupOf(rule).ThresholdGroup?
  }

  /** The rules checked before the `-save` dates. */
  function EarlyRules(st: Settings): seq<CmdError>
  {
    Rule(Broken(st, OutputWithoutSave), OutputWithoutSave) +
    Rule(Broken(st, SaveWithoutOutput), SaveWithoutOutput) +
    Rule(Broken(st, NoOutputSpecifier), NoOutputSpecifier) +
    Rule(Broken(st, VerboseWithoutGraph), VerboseWithoutGraph)
  }

  /** The rules checked between the `-save` dates and the interface lookup:
      the flags that need `-save`, then the mode rules. */
  function MiddleRules(st: Settings): seq<CmdError>
  {
    SaveNeededRules(st) + ModeRules(st)
  }

  function SaveNeededRules(st: Settings): seq<CmdError>
  {
    Rule(Broken(st, SpecifierWithoutSave), SpecifierWithoutSave) +
    Rule(Broken(st, DataWithoutSave), DataWithoutSave) +
    Rule(Broken(st, AnonWithoutSave), AnonWithoutSave) +
    Rule(Broken(st, PickleWithoutSave), PickleWithoutSave)
  }

  function ModeRules(st: Settings): seq<CmdError>
  {
    Rule(Broken(st, PickleWithoutGraph), PickleWithoutGraph) +
    Rule(Broken(st, DynamicWithSniff), DynamicWithSniff) +
    Rule(Broken(st, InterfaceMissing), InterfaceMissing)
  }

  /** The rules checked after the interface lookup: the sign rules, then the
      drop threshold rule. */
  function LateRules(st: Settings): seq<CmdError>
  {
    SignRules(st) + Rule(Broken(st, ThresholdWithoutVerbose), ThresholdWithoutVerbose)
  }

  function SignRules(st: Settings): seq<CmdError>
  {
    Rule(Broken(st, NegativeSleep), NegativeSleep) +
    Rule(Broken(st, NegativeLoops), NegativeLoops) +
    Rule(Broken(st, NegativeThreshold), NegativeThreshold) +
    Rule(Broken(st, NegativePacketCount), NegativePacketCount)
  }

  /** The first position at or after `k` holding `v`, if there is one. */
  function Position(ips: seq<string>, v: string, k: nat): (r: Option<nat>)
    requires k <= |ips|
    ensures r.Some? ==> k <= r.value < |ips| && ips[r.value] == v && forall j :: k <= j < r.value ==> ips[j] != v
    ensures r.None? ==> forall j :: k <= j < |ips| ==> ips[j] != v
    decreases |ips| - k
  {
    if k == |ips| then None
    else if ips[k] == v then Some(k)
    else Position(ips, v, k + 1)
  }

  /** The search loop of the interface lookup: the first position holding `v`. */
  method FindPosition(ips: seq<string>, v: string) returns (k: Option<nat>)
    ensures k == Position(ips, v, 0)
  {
    var index := 0;
    while index < |ips|
      invariant index <= |ips|
      invariant Position(ips, v, index) == Position(ips, v, 0)
    {
      if ips[index] == v {
        return Some(index);
      }
      index := index + 1;
    }
    return None;
  }

  /** The interface lookup on the parsed settings: the search, then the name
      at the position found, the unknown-address error, or the `IndexError`. */
  method Lookup(st: Settings, interfaces: seq<string>, interfacesIp: seq<string>) returns (step: LookupStep)
    ensures step == InterfacePhase(st, interfaces, interfacesIp)
  {
    step := LookupStep(st.interfaceReadable, [], None);
    if st.interfaceIpv4.Some? {
      var k := FindPosition(interfacesIp, st.interfaceIpv4.value);
      if k.None? {
        step := step.(added := [InvalidFormat(UnknownInterface)]);
      } else if k.value >= |interfaces| {
        step := step.(raised := Some(IndexOutOfRange(k.value)));
      } else {
        step := step.(readable := Some(interfaces[k.value]));
      }
    }
  }

  /** What the interface lookup leaves behind: the readable name, the errors
      it collected and the exception it raised, if it did. */
  datatype LookupStep = LookupStep(readable: Option<string>, added: seq<CmdError>, raised: Option<CmdError>)

  /** The interface lookup: the readable name at the first position whose
      address is `-i`'s; reading past the end of `interfaces` raises. */
  function InterfacePhase(st: Settings, interfaces: seq<string>, interfacesIp: seq<string>): (r: LookupStep)
    ensures r.added == [] || r.added == [InvalidFormat(UnknownInterface)]
    ensures r.raised.Some? ==> r.added == [] && r.raised.value.IndexOutOfRange?
  {
    if st.interfaceIpv4.None? then LookupStep(st.interfaceReadable, [], None)
    else match Position(interfacesIp, st.interfaceIpv4.value, 0)
      case None => LookupStep(st.interfaceReadable, [InvalidFormat(UnknownInterface)], None)
      case Some(k) =>
        if k < |interfaces| then LookupStep(Some(interfaces[k]), [], None)
        else LookupStep(st.interfaceReadable, [], Some(IndexOutOfRange(k)))
  }

  /** `post_processing` as a whole. */
  function PostOutcome(st: Settings, interfaces: seq<string>, interfacesIp: seq<string>,
                       later: (DateTime, DateTime) -> bool): Outcome
  {
    var r := RecordsPhase(st);
    var st1 := st.(recordsType := r.recordsType, recordsDate := r.recordsDate);
    if r.raised.Some? then Outcome(st1, [], r.raised)
    else
      var d := SaveDatesPhase(st1, later);
      var st2 := st1.(saveStart := d.saveStart, saveEnd := d.saveEnd);
      var errs := EarlyRules(st1) + d.errors + MiddleRules(st2);
      var i := InterfacePhase(st2, interfaces, interfacesIp);
      var st3 := st2.(interfaceReadable := i.readable);
      if i.raised.Some? then Outcome(st3, errs, i.raised)
      else Outcome(st3, errs + i.added + LateRules(st3), None)
  }

  /** Handling one argument never reads `argv[0]` once `index` is past it. */
  lemma HandleArgIgnoresFirst(arg: string, a: seq<string>, b: seq<string>, index: nat, st: Settings)
    requires |a| == |b| && index >= 1
    requires forall k :: 1 <= k < |a| ==> a[k] == b[k]
    ensures HandleArg(arg, a, index, st) == HandleArg(arg, b, index, st)
  {
    if index + 1 < |a| {
      assert a[index + 1] == b[index + 1];
    }
    if index + 2 < |a| {
      assert a[index + 2] == b[index + 2];
    }
  }

  lemma {:induction false} ParseFromIgnoresFirst(a: seq<string>, b: seq<string>, p: nat, index: nat, skip: nat, st: Settings)
    requires |a| == |b| && 1 <= p <= |a| && index >= 1
    requires forall k :: 1 <= k < |a| ==> a[k] == b[k]
    ensures ParseFrom(a, p, index, skip, st) == ParseFrom(b, p, index, skip, st)
    decreases |a| - p
  {
    if p < |a| {
      if skip > 0 {
        ParseFromIgnoresFirst(a, b, p + 1, index + 1, skip - 1, st);
      } else {
        assert a[p] == b[p];
        HandleArgIgnoresFirst(a[p], a, b, index, st);
        match HandleArg(a[p], a, index, st)
        case Failure(_) =>
        case Success(step) =>
          ParseFromIgnoresFirst(a, b, p + 1, if step.advance then index + 1 else index, step.skip, step.settings);
      }
    }
  }

  /** The first argument, the script path, has no effect on the parse. */
  lemma ArgvZeroIgnored(x: string, y: string, rest: seq<string>, st: Settings)
    ensures Parse([x] + rest, st) == Parse([y] + rest, st)
  {
    var a, b := [x] + rest, [y] + rest;
    assert forall k :: 1 <= k < |a| ==> a[k] == b[k];
    ParseFromIgnoresFirst(a, b, 1, 1, 0, st);
  }

  /** Flags match whatever their letter case: two spellings of the same flag
      succeed or fail together and, on success, do the same thing. */
  lemma HandleArgCaseInsensitive(a1: string, a2: string, argv: seq<string>, index: nat, st: Settings)
    requires ToUpper(a1) == ToUpper(a2) && ToUpper(a1) in ValidFlags
    ensures HandleArg(a1, argv, index, st).Success? == HandleArg(a2, argv, index, st).Success?
    ensures HandleArg(a1, argv, index, st).Success? ==> HandleArg(a1, argv, index, st).value == HandleArg(a2, argv, index, st).value
  {
    var flag := ToUpper(a1);
    if flag in ValueFlags {
      assert ArgHasValue(a1, index, argv, 1, TypeFor(flag), None).Success? == ArgHasValue(a2, index, argv, 1, TypeFor(flag), None).Success?;
      assert ArgHasValue(a1, index, argv, 2, NoCheck, None).Success? == ArgHasValue(a2, index, argv, 2, NoCheck, None).Success?;
      assert ArgHasValue(a1, index, argv, 1, NoCheck, None).Success? == ArgHasValue(a2, index, argv, 1, NoCheck, None).Success?;
      assert ArgHasValue(a1, index, argv, 1, IntCheck, None).Success? == ArgHasValue(a2, index, argv, 1, IntCheck, None).Success?;
    }
  }

  /** `-save` succeeds exactly when two arguments follow and the start date
      has at most six parts: the end date is stored unchecked. */
  lemma SaveChecksOnlyStartDate(arg: string, argv: seq<string>, index: nat, st: Settings)
    requires ToUpper(arg) == "-SAVE"
    ensures HandleArg(arg, argv, index, st).Success? <==> index + 2 < |argv| && |Split(argv[index + 1], ',')| <= 6
    ensures HandleArg(arg, argv, index, st).Success? ==>
      HandleArg(arg, argv, index, st).value.settings ==
        st.(saveStart := Some(Parts(Split(argv[index + 1], ','))),
            saveEnd := Some(Parts(Split(argv[index + 2], ','))),
            saveFound := true)
  {
  }

  /** `-data` reads its value before checking it exists: a missing value is an
      `IndexError`, where `-c` reports `InvalidLengthError`. */
  lemma DataValueReadFirst(arg: string, argv: seq<string>, index: nat, st: Settings)
    requires index + 1 >= |argv|
    ensures ToUpper(arg) == "-DATA" ==> HandleArg(arg, argv, index, st) == Failure(IndexOutOfRange(index + 1))
    ensures ToUpper(arg) == "-C" ==> HandleArg(arg, argv, index, st) == Failure(InvalidLength(arg, index + 1))
  {
  }

  /** A flag taking one checked value succeeds exactly when the value is there
      and converts to the flag's type, and then sets that flag's setting (for
      `-o`, also the output flag) to the converted value and nothing else; a
      missing value raises `InvalidLengthError`, a bad one `InvalidValueError`. */
  lemma SingleValueFlagStores(arg: string, argv: seq<string>, index: nat, st: Settings)
    requires ToUpper(arg) in ["-I", "-L", "-T", "-F", "-C", "-O", "-RELAXED"]
    ensures HandleArg(arg, argv, index, st).Success? <==>
      index + 1 < |argv| && Converts(TypeFor(ToUpper(arg)), argv[index + 1])
    ensures index + 1 >= |argv| ==> HandleArg(arg, argv, index, st) == Failure(InvalidLength(arg, index + 1))
    ensures index + 1 < |argv| && HandleArg(arg, argv, index, st).Failure? ==>
      HandleArg(arg, argv, index, st) == Failure(InvalidValue(Some(arg), argv[index + 1]))
    ensures HandleArg(arg, argv, index, st).Success? ==> HandleArg(arg, argv, index, st).value.skip == 1
    ensures ToUpper(arg) == "-I" && HandleArg(arg, argv, index, st).Success? ==>
      HandleArg(arg, argv, index, st).value.settings == st.(interfaceIpv4 := Some(argv[index + 1]))
    ensures ToUpper(arg) == "-L" && HandleArg(arg, argv, index, st).Success? ==>
      HandleArg(arg, argv, index, st).value.settings == st.(loopTimes := Some(ParseInt(argv[index + 1]).value))
    ensures ToUpper(arg) == "-T" && HandleArg(arg, argv, index, st).Success? ==>
      HandleArg(arg, argv, index, st).value.settings == st.(sleepTime := ParseReal(argv[index + 1]).value)
    ensures ToUpper(arg) == "-F" && HandleArg(arg, argv, index, st).Success? ==>
      HandleArg(arg, argv, index, st).value.settings == st.(ipFilter := Some(Split(argv[index + 1], ',')))
    ensures ToUpper(arg) == "-C" && HandleArg(arg, argv, index, st).Success? ==>
      HandleArg(arg, argv, index, st).value.settings == st.(packetCount := Some(ParseInt(argv[index + 1]).value))
    ensures ToUpper(arg) == "-O" && HandleArg(arg, argv, index, st).Success? ==>
      HandleArg(arg, argv, index, st).value.settings == st.(outputPath := Some(argv[index + 1]), outputFound := true)
    ensures ToUpper(arg) == "-RELAXED" && HandleArg(arg, argv, index, st).Success? ==>
      HandleArg(arg, argv, index, st).value.settings == st.(dropThreshold := ParseInt(argv[index + 1]).value)
  {
  }

  /** `-data` succeeds exactly when its value is there and is an integer
      above 0, and then sets the data chunk to it and marks it found; a
      value that is not an integer raises `ValueError`, one that is not above
      0 `InvalidValueError`. */
  lemma DataFlagStores(arg: string, argv: seq<string>, index: nat, st: Settings)
    requires ToUpper(arg) == "-DATA"
    ensures HandleArg(arg, argv, index, st).Success? <==>
      index + 1 < |argv| && ParseInt(argv[index + 1]).Some? && ParseInt(argv[index + 1]).value > 0
    ensures index + 1 < |argv| && ParseInt(argv[index + 1]).None? ==>
      HandleArg(arg, argv, index, st) == Failure(NotAnInteger(argv[index + 1]))
    ensures index + 1 < |argv| && ParseInt(argv[index + 1]).Some? && ParseInt(argv[index + 1]).value <= 0 ==>
      HandleArg(arg, argv, index, st) == Failure(InvalidValue(Some("-DATA"), argv[index + 1]))
    ensures HandleArg(arg, argv, index, st).Success? ==>
      HandleArg(arg, argv, index, st).value ==
        Step(st.(dataChunk := ParseInt(argv[index + 1]).value, dataChunkFound := true), 1, true)
  {
  }

  /** `-records` succeeds exactly when its value is there and has one to six
      comma-separated parts, and then stores the split value as the records
      date and sets the records flag. */
  lemma RecordsFlagStores(arg: string, argv: seq<string>, index: nat, st: Settings)
    requires ToUpper(arg) == "-RECORDS"
    ensures HandleArg(arg, argv, index, st).Success? <==>
      index + 1 < |argv| && |Split(argv[index + 1], ',')| <= 6
    ensures index + 1 >= |argv| ==> HandleArg(arg, argv, index, st) == Failure(InvalidLength(arg, index + 1))
    ensures index + 1 < |argv| && HandleArg(arg, argv, index, st).Failure? ==>
      HandleArg(arg, argv, index, st) == Failure(InvalidValue(Some("-RECORDS"), argv[index + 1]))
    ensures HandleArg(arg, argv, index, st).Success? ==>
      HandleArg(arg, argv, index, st).value ==
        Step(st.(recordsDate := Some(Parts(Split(argv[index + 1], ','))), recordsFlag := true), 1, true)
  {
  }

  /** `-l 5` after the script path sets the loop count to 5. */
  lemma LoopFlagReadsNextArgument()
    ensures Parse(["prog", "-l", "5"], Defaults()) == (Defaults().(loopTimes := Some(5)), None)
  {
    var a := ["prog", "-l", "5"];
    var d := Defaults();
    assert ToUpper("-l") == "-L";
    assert ParseInt("5") == Some(5);
    assert ArgHasValue("-l", 1, a, 1, IntCheck, None) == Success(true);
    assert HandleArg("-l", a, 1, d) == Success(Step(d.(loopTimes := Some(5)), 1, true));
    assert ParseFrom(a, 3, 3, 0, d.(loopTimes := Some(5))) == (d.(loopTimes := Some(5)), None);
  }

  /** A pickle file does not advance `index`, so a later flag reads its value
      one position early: after `a.p`, `-l 5` reads `-l` as its value. */
  lemma PickleShiftsValues()
    ensures Parse(["prog", "a.p", "-l", "5"], Defaults()).1 == Some(InvalidValue(Some("-l"), "-l"))
  {
    var a := ["prog", "a.p", "-l", "5"];
    var d1 := Defaults().(pickleFound := true, pickles := ["a.p"]);
    PickleArgCollected(a);
    FlagTakesItsOwnName(a, d1);
    assert ParseFrom(a, 2, 1, 0, d1) == (d1, Some(InvalidValue(Some("-l"), "-l")));
  }

  /** In the example above, `a.p` is collected as a pickle file and `index` stays put. */
  lemma PickleArgCollected(a: seq<string>)
    requires a == ["prog", "a.p", "-l", "5"]
    ensures HandleArg("a.p", a, 1, Defaults())
      == Success(Step(Defaults().(pickleFound := true, pickles := ["a.p"]), 0, false))
  {
    assert ToUpper("a.p") == "A.P";
    assert "A.P" !in ValidFlags;
    assert IsPickleName("a.p") by {
      assert "a.p"[1..] == ".p";
    }
    assert Defaults().pickles + ["a.p"] == ["a.p"];
  }

  /** In the example above, `-l` reads the argument at the unmoved `index`: its own name. */
  lemma FlagTakesItsOwnName(a: seq<string>, d1: Settings)
    requires a == ["prog", "a.p", "-l", "5"]
    ensures HandleArg("-l", a, 1, d1) == Failure(InvalidValue(Some("-l"), "-l"))
  {
    assert ToUpper("-l") == "-L";
    assert ParseInt("-l").None?;
    assert ArgHasValue("-l", 1, a, 1, IntCheck, None) == Failure(InvalidValue(Some("-l"), "-l"));
  }

  /** The errors the `-save` dates step collects are conversion errors or
      the reversed-dates rule, never one of the other rules, and there is at
      most one. */
  lemma SaveDatesErrors(st: Settings, later: (DateTime, DateTime) -> bool)
    ensures forall e :: e in SaveDatesPhase(st, later).errors ==>
      !e.InvalidFormat? || e.rule == SaveDatesReversed || e.rule.DateLength?
    ensures |SaveDatesPhase(st, later).errors| <= 1
    ensures NoneBefore(SaveDatesPhase(st, later).errors)
    ensures NoneAfter(SaveDatesPhase(st, later).errors)
  {
    var errors := SaveDatesPhase(st, later).errors;
    if st.saveStart.Some? && st.saveEnd.Some? {
      ConvertArgError(st.saveStart.value, "-SAVE");
      ConvertArgError(st.saveEnd.value, "-SAVE");
    }
    assert forall e :: e in errors ==> DatesError(e);
    forall e | e in errors
      ensures !(e.InvalidFormat? && BeforeLookup(e.rule)) && !(e.InvalidFormat? && AfterLookup(e.rule))
    {
      DatesErrorUngrouped(e);
    }
  }

  /** An error the dates step can collect: a conversion error or the order rule. */
  predicate DatesError(e: CmdError)
  {
    !e.InvalidFormat? || e.rule == SaveDatesReversed || e.rule.DateLength?
  }

  /** Converting a stored date fails only with a conversion error. */
  lemma ConvertArgError(d: DateArg, flag: string)
    ensures ConvertArg(d, flag).Failure? ==> DatesError(ConvertArg(d, flag).error)
  {
    if d.Parts? {
      ConvertListDatetimeFields(d.parts, flag);
    }
  }

  /** A dates-step error belongs to none of the rule groups. */
  lemma DatesErrorUngrouped(e: CmdError)
    requires DatesError(e)
    ensures !(e.InvalidFormat? && BeforeLookup(e.rule)) && !(e.InvalidFormat? && AfterLookup(e.rule))
  {
  }

  /** The fields the rules read. */
  predicate SameFlags(a: Settings, b: Settings)
  {
    a.saveFound == b.saveFound && a.outputFound == b.outputFound && a.csv == b.csv && a.pdf == b.pdf &&
    a.graph == b.graph && a.onefile == b.onefile && a.verboseOnefile == b.verboseOnefile &&
    a.dataChunkFound == b.dataChunkFound && a.anon == b.anon && a.pickleFlag == b.pickleFlag &&
    a.dynamic == b.dynamic && a.sniff == b.sniff && a.interfaceIpv4 == b.interfaceIpv4 &&
    a.pickleFound == b.pickleFound && a.sleepTime == b.sleepTime && a.loopTimes == b.loopTimes &&
    a.dropThreshold == b.dropThreshold && a.packetCount == b.packetCount
  }

  /** The rules read nothing but those fields. */
  lemma BrokenSame(a: Settings, b: Settings)
    requires SameFlags(a, b)
    ensures forall rule :: Broken(a, rule) == Broken(b, rule)
  {
  }

  lemma RulesSame(a: Settings, b: Settings)
    requires forall rule :: Broken(a, rule) == Broken(b, rule)
    ensures EarlyRules(a) == EarlyRules(b) && MiddleRules(a) == MiddleRules(b) && LateRules(a) == LateRules(b)
  {
  }

  /** The `-records`, dates and lookup steps leave every group of rules as
      the parsed flags give it. */
  lemma RulesFrame(st: Settings, rt: Option<nat>, rd: Option<DateArg>, s: Option<DateArg>, e: Option<DateArg>,
                   name: Option<string>)
    ensures EarlyRules(st.(recordsType := rt, recordsDate := rd)) == EarlyRules(st)
    ensures MiddleRules(st.(recordsType := rt, recordsDate := rd).(saveStart := s, saveEnd := e)) == MiddleRules(st)
    ensures LateRules(st.(recordsType := rt, recordsDate := rd).(saveStart := s, saveEnd := e).(interfaceReadable := name))
            == LateRules(st)
  {
    var st1 := st.(recordsType := rt, recordsDate := rd);
    var st2 := st1.(saveStart := s, saveEnd := e);
    var st3 := st2.(interfaceReadable := name);
    assert SameFlags(st1, st) && SameFlags(st2, st) && SameFlags(st3, st);
    BrokenSame(st1, st);
    BrokenSame(st2, st);
    BrokenSame(st3, st);
    RulesSame(st1, st);
    RulesSame(st2, st);
    RulesSame(st3, st);
  }

  /** The settings after the `-records` step. */
  function AfterRecords(st: Settings): Settings
  {
    var r := RecordsPhase(st);
    st.(recordsType := r.recordsType, recordsDate := r.recordsDate)
  }

  /** The `-save` dates step as `post_processing` runs it. */
  function DatesOf(st: Settings, later: (DateTime, DateTime) -> bool): DatesStep
  {
    SaveDatesPhase(AfterRecords(st), later)
  }

  /** The settings after the `-save` dates step. */
  function AfterDates(st: Settings, later: (DateTime, DateTime) -> bool): Settings
  {
    var d := DatesOf(st, later);
    AfterRecords(st).(saveStart := d.saveStart, saveEnd := d.saveEnd)
  }

  /** The interface lookup as `post_processing` runs it. */
  function LookupOf(st: Settings, interfaces: seq<string>, interfacesIp: seq<string>,
                    later: (DateTime, DateTime) -> bool): LookupStep
  {
    InterfacePhase(AfterDates(st, later), interfaces, interfacesIp)
  }

  /** When the `-records` step does not raise, what escapes and the name
      kept are the lookup's. */
  lemma PostLookupShape(st: Settings, interfaces: seq<string>, interfacesIp: seq<string>,
                        later: (DateTime, DateTime) -> bool)
    requires RecordsPhase(st).raised.None?
    ensures PostOutcome(st, interfaces, interfacesIp, later).raised == LookupOf(st, interfaces, interfacesIp, later).raised
    ensures PostOutcome(st, interfaces, interfacesIp, later).settings.interfaceReadable ==
            LookupOf(st, interfaces, interfacesIp, later).readable
  {
  }

  /** When the `-records` step does not raise, the errors `post_processing`
      appends are the early rules, the dates step's error, the middle rules
      and, unless the lookup raises, its error and the late rules, all
      judged on the parsed flags. */
  lemma PostAdded(st: Settings, interfaces: seq<string>, interfacesIp: seq<string>,
                  later: (DateTime, DateTime) -> bool)
    requires RecordsPhase(st).raised.None?
    ensures var i := LookupOf(st, interfaces, interfacesIp, later);
      PostOutcome(st, interfaces, interfacesIp, later).added ==
        EarlyRules(st) + DatesOf(st, later).errors + MiddleRules(st) +
        (if i.raised.Some? then [] else i.added + LateRules(st))
  {
    var r := RecordsPhase(st);
    var st1 := st.(recordsType := r.recordsType, recordsDate := r.recordsDate);
    var d := SaveDatesPhase(st1, later);
    var st2 := st1.(saveStart := d.saveStart, saveEnd := d.saveEnd);
    var i := InterfacePhase(st2, interfaces, interfacesIp);
    RulesFrame(st, r.recordsType, r.recordsDate, d.saveStart, d.saveEnd, i.readable);
    if i.raised.None? {
      AppendAssoc(EarlyRules(st) + d.errors + MiddleRules(st), i.added, LateRules(st));
    }
  }

  /** Each group reports exactly its own rules that the flags break, and
      nothing else. */
  lemma EarlyRulesExact(st: Settings)
    ensures forall e :: e in EarlyRules(st) <==> e.InvalidFormat? && GroupOf(e.rule).EarlyGroup? && Broken(st, e.rule)
  {
  }

  lemma SaveNeededRulesExact(st: Settings)
    ensures forall e :: e in SaveNeededRules(st) <==> e.InvalidFormat? && GroupOf(e.rule).SaveNeededGroup? && Broken(st, e.rule)
  {
  }

  lemma ModeRulesExact(st: Settings)
    ensures forall e :: e in ModeRules(st) <==> e.InvalidFormat? && GroupOf(e.rule).ModeGroup? && Broken(st, e.rule)
  {
  }

  lemma SignRulesExact(st: Settings)
    ensures forall e :: e in SignRules(st) <==> e.InvalidFormat? && GroupOf(e.rule).SignGroup? && Broken(st, e.rule)
  {
  }

  lemma MiddleRulesExact(st: Settings)
    ensures forall e :: e in MiddleRules(st) <==> e.InvalidFormat? && (GroupOf(e.rule).SaveNeededGroup? || GroupOf(e.rule).ModeGroup?) && Broken(st, e.rule)
  {
    SaveNeededRulesExact(st);
    ModeRulesExact(st);
  }

  lemma LateRulesExact(st: Settings)
    ensures forall e :: e in LateRules(st) <==> e.InvalidFormat? && AfterLookup(e.rule) && Broken(st, e.rule)
  {
    SignRulesExact(st);
  }

  /** No error in `s` reports a rule checked before the lookup. */
  predicate NoneBefore(s: seq<CmdError>)
  {
    forall e :: e in s ==> !(e.InvalidFormat? && BeforeLookup(e.rule))
  }

  /** No error in `s` reports a rule checked after the lookup. */
  predicate NoneAfter(s: seq<CmdError>)
  {
    forall e :: e in s ==> !(e.InvalidFormat? && AfterLookup(e.rule))
  }

  lemma NoneBeforeAppend(a: seq<CmdError>, b: seq<CmdError>)
    ensures NoneBefore(a + b) <==> NoneBefore(a) && NoneBefore(b)
  {
  }

  lemma NoneAfterAppend(a: seq<CmdError>, b: seq<CmdError>)
    ensures NoneAfter(a + b) <==> NoneAfter(a) && NoneAfter(b)
  {
  }

  /** No group reports another group's rules. */
  lemma GroupsApart(st: Settings)
    ensures NoneAfter(EarlyRules(st)) && NoneAfter(MiddleRules(st))
    ensures NoneBefore(LateRules(st))
  {
    EarlyRulesExact(st);
    MiddleRulesExact(st);
    LateRulesExact(st);
  }

  lemma ReportedBefore(st: Settings, dateErrors: seq<CmdError>, rest: seq<CmdError>)
    requires NoneBefore(dateErrors) && NoneBefore(rest)
    ensures forall rule :: BeforeLookup(rule) ==>
      (InvalidFormat(rule) in EarlyRules(st) + dateErrors + MiddleRules(st) + rest <==> Broken(st, rule))
  {
    EarlyRulesExact(st);
    MiddleRulesExact(st);
  }

  lemma ReportedAfter(st: Settings, before: seq<CmdError>, lookupErrors: seq<CmdError>)
    requires NoneAfter(before) && NoneAfter(lookupErrors)
    ensures forall rule :: AfterLookup(rule) ==>
      (InvalidFormat(rule) in before + (lookupErrors + LateRules(st)) <==> Broken(st, rule))
  {
    LateRulesExact(st);
  }

  /** When the `-records` step does not raise, each rule checked before the
      interface lookup is reported exactly when the parsed flags break it. */
  lemma PostRulesBeforeLookup(st: Settings, interfaces: seq<string>, interfacesIp: seq<string>,
                              later: (DateTime, DateTime) -> bool)
    requires RecordsPhase(st).raised.None?
    ensures forall rule :: BeforeLookup(rule) ==>
      (InvalidFormat(rule) in PostOutcome(st, interfaces, interfacesIp, later).added <==> Broken(st, rule))
  {
    PostAdded(st, interfaces, interfacesIp, later);
    ReportedBeforeLookup(st, later, LookupOf(st, interfaces, interfacesIp, later));
  }

  lemma ReportedBeforeLookup(st: Settings, later: (DateTime, DateTime) -> bool, i: LookupStep)
    requires i.added == [] || i.added == [InvalidFormat(UnknownInterface)]
    ensures var added := EarlyRules(st) + DatesOf(st, later).errors + MiddleRules(st) +
                         (if i.raised.Some? then [] else i.added + LateRules(st));
      forall rule :: BeforeLookup(rule) ==> (InvalidFormat(rule) in added <==> Broken(st, rule))
  {
    SaveDatesErrors(AfterRecords(st), later);
    GroupsApart(st);
    NoneBeforeAppend(i.added, LateRules(st));
    ReportedBefore(st, DatesOf(st, later).errors, if i.raised.Some? then [] else i.added + LateRules(st));
  }

  /** When nothing escapes, each rule checked after the interface lookup is
      reported exactly when the parsed flags break it. */
  lemma PostRulesAfterLookup(st: Settings, interfaces: seq<string>, interfacesIp: seq<string>,
                             later: (DateTime, DateTime) -> bool)
    requires PostOutcome(st, interfaces, interfacesIp, later).raised.None?
    ensures forall rule :: AfterLookup(rule) ==>
      (InvalidFormat(rule) in PostOutcome(st, interfaces, interfacesIp, later).added <==> Broken(st, rule))
  {
    assert RecordsPhase(st).raised.None?;
    PostLookupShape(st, interfaces, interfacesIp, later);
    PostAdded(st, interfaces, interfacesIp, later);
    ReportedAfterLookup(st, later, LookupOf(st, interfaces, interfacesIp, later).added);
  }

  lemma ReportedAfterLookup(st: Settings, later: (DateTime, DateTime) -> bool, lookupErrors: seq<CmdError>)
    requires lookupErrors == [] || lookupErrors == [InvalidFormat(UnknownInterface)]
    ensures var added := EarlyRules(st) + DatesOf(st, later).errors + MiddleRules(st) +
                         (lookupErrors + LateRules(st));
      forall rule :: AfterLookup(rule) ==> (InvalidFormat(rule) in added <==> Broken(st, rule))
  {
    var before := EarlyRules(st) + DatesOf(st, later).errors + MiddleRules(st);
    SaveDatesErrors(AfterRecords(st), later);
    GroupsApart(st);
    NoneAfterAppend(EarlyRules(st), DatesOf(st, later).errors);
    NoneAfterAppend(EarlyRules(st) + DatesOf(st, later).errors, MiddleRules(st));
    ReportedAfter(st, before, lookupErrors);
  }

  /** The same fault, `-o` and an output specifier without `-save`, is
      reported twice, by two different rules. */
  lemma SpecifierReportedTwice(st: Settings, interfaces: seq<string>, interfacesIp: seq<string>,
                               later: (DateTime, DateTime) -> bool)
    requires RecordsPhase(st).raised.None?
    requires InvalidFormat(SpecifierWithoutSave) in PostOutcome(st, interfaces, interfacesIp, later).added
    ensures InvalidFormat(OutputWithoutSave) in PostOutcome(st, interfaces, interfacesIp, later).added
  {
    PostRulesBeforeLookup(st, interfaces, interfacesIp, later);
  }

  /** An unknown `-i` address is reported by the lookup and by nothing else. */
  lemma UnknownOnlyFromLookup(st: Settings, interfaces: seq<string>, interfacesIp: seq<string>,
                              later: (DateTime, DateTime) -> bool)
    requires RecordsPhase(st).raised.None?
    ensures InvalidFormat(UnknownInterface) in PostOutcome(st, interfaces, interfacesIp, later).added <==>
      LookupOf(st, interfaces, interfacesIp, later).raised.None? &&
      InvalidFormat(UnknownInterface) in LookupOf(st, interfaces, interfacesIp, later).added
  {
    PostAdded(st, interfaces, interfacesIp, later);
    UnknownFromLookupOnly(st, later, LookupOf(st, interfaces, interfacesIp, later));
  }

  lemma UnknownFromLookupOnly(st: Settings, later: (DateTime, DateTime) -> bool, i: LookupStep)
    ensures InvalidFormat(UnknownInterface) in EarlyRules(st) + DatesOf(st, later).errors + MiddleRules(st) +
                                               (if i.raised.Some? then [] else i.added + LateRules(st)) <==>
      i.raised.None? && InvalidFormat(UnknownInterface) in i.added
  {
    UnknownNotEarly(st);
    UnknownNotInDates(st, later);
    UnknownNotMiddle(st);
    UnknownNotLate(st);
  }

  /** No rule group and no date error reports an unknown address. */
  lemma UnknownNotEarly(st: Settings)
    ensures InvalidFormat(UnknownInterface) !in EarlyRules(st)
  {
    EarlyRulesExact(st);
  }

  lemma UnknownNotInDates(st: Settings, later: (DateTime, DateTime) -> bool)
    ensures InvalidFormat(UnknownInterface) !in DatesOf(st, later).errors
  {
    SaveDatesErrors(AfterRecords(st), later);
  }

  lemma UnknownNotMiddle(st: Settings)
    ensures InvalidFormat(UnknownInterface) !in MiddleRules(st)
  {
    MiddleRulesExact(st);
  }

  lemma UnknownNotLate(st: Settings)
    ensures InvalidFormat(UnknownInterface) !in LateRules(st)
  {
    LateRulesExact(st);
  }

  /** The interface lookup: the readable name is the one at the first
      position holding the `-i` address; an address the machine does not have
      is reported, and a name list shorter than the address list raises. */
  lemma PostInterfaceLookup(st: Settings, interfaces: seq<string>, interfacesIp: seq<string>,
                            later: (DateTime, DateTime) -> bool, k: nat)
    requires RecordsPhase(st).raised.None? && st.interfaceIpv4.Some?
    ensures st.interfaceIpv4.value !in interfacesIp ==>
      PostOutcome(st, interfaces, interfacesIp, later).raised.None? &&
      InvalidFormat(UnknownInterface) in PostOutcome(st, interfaces, interfacesIp, later).added &&
      PostOutcome(st, interfaces, interfacesIp, later).settings.interfaceReadable == st.interfaceReadable
    ensures k < |interfacesIp| && interfacesIp[k] == st.interfaceIpv4.value && st.interfaceIpv4.value !in interfacesIp[..k] ==>
      InvalidFormat(UnknownInterface) !in PostOutcome(st, interfaces, interfacesIp, later).added &&
      (k < |interfaces| ==> PostOutcome(st, interfaces, interfacesIp, later).settings.interfaceReadable == Some(interfaces[k])) &&
      (k >= |interfaces| ==> PostOutcome(st, interfaces, interfacesIp, later).raised == Some(IndexOutOfRange(k)))
  {
    PostLookupShape(st, interfaces, interfacesIp, later);
    UnknownOnlyFromLookup(st, interfaces, interfacesIp, later);
    var v := st.interfaceIpv4.value;
    assert AfterDates(st, later).interfaceIpv4 == Some(v);
    assert AfterDates(st, later).interfaceReadable == st.interfaceReadable;
  }

  /** The `-records` date: its number of parts becomes the records type, one
      to five integer parts become a date, and any other length escapes
      `post_processing` before a single rule is checked. */
  lemma PostRecords(st: Settings, interfaces: seq<string>, interfacesIp: seq<string>,
                    later: (DateTime, DateTime) -> bool, ps: seq<string>)
    requires st.recordsFlag && st.recordsDate == Some(Parts(ps))
    ensures PostOutcome(st, interfaces, interfacesIp, later).settings.recordsType == Some(|ps|)
    ensures ConvertListDatetime(ps, "-RECORDS").Success? ==>
      PostOutcome(st, interfaces, interfacesIp, later).settings.recordsDate == Some(Date(ConvertListDatetime(ps, "-RECORDS").value))
    ensures !(0 < |ps| < 6) ==>
      PostOutcome(st, interfaces, interfacesIp, later) ==
        Outcome(st.(recordsType := Some(|ps|)), [], Some(InvalidFormat(DateLength("-RECORDS", |ps|))))
  {
    var r := RecordsPhase(st);
    var st1 := st.(recordsType := r.recordsType, recordsDate := r.recordsDate);
    if r.raised.None? {
      var d := SaveDatesPhase(st1, later);
      var st2 := st1.(saveStart := d.saveStart, saveEnd := d.saveEnd);
      var i := InterfacePhase(st2, interfaces, interfacesIp);
      assert PostOutcome(st, interfaces, interfacesIp, later).settings == st2.(interfaceReadable := i.readable);
    }
  }

  /** The command-line handler. */
  class CmdHandler {
    var settings: Settings
    var exceptions: seq<CmdError>

    constructor()
      ensures settings == Defaults() && exceptions == []
    {
      settings := Defaults();
      exceptions := [];
    }

    /** Parses `argv`; the first exception is appended and ends the parse. */
    method ParseSysArgs(argv: seq<string>)
      modifies this
      ensures settings == Parse(argv, old(settings)).0
      ensures exceptions == old(exceptions) + OptionToSeq(Parse(argv, old(settings)).1)
    {
      var index: nat := 0;
      var skip: nat := 1;
      var p := 0;
      while p < |argv|
        invariant p <= |argv|
        invariant ParseFrom(argv, p, index, skip, settings) == Parse(argv, old(settings))
        invariant exceptions == old(exceptions)
        decreases |argv| - p
      {
        if skip > 0 {
          skip := skip - 1;
          index := index + 1;
          p := p + 1;
          continue;
        }
        match HandleArg(argv[p], argv, index, settings)
        case Failure(e) =>
          exceptions := exceptions + [e];
          return;
        case Success(step) =>
          settings := step.settings;
          skip := step.skip;
          if step.advance {
            index := index + 1;
          }
          p := p + 1;
      }
    }

    /** Checks the parsed flags against each other. Errors are only ever
        appended; an exception from the `-records` date or from reading the
        interface name escapes, and what follows it is not checked. */
    method PostProcessing(interfaces: seq<string>, interfacesIp: seq<string>,
                          later: (DateTime, DateTime) -> bool) returns (raised: Option<CmdError>)
      modifies this
      ensures settings == PostOutcome(old(settings), interfaces, interfacesIp, later).settings
      ensures exceptions == old(exceptions) + PostOutcome(old(settings), interfaces, interfacesIp, later).added
      ensures raised == PostOutcome(old(settings), interfaces, interfacesIp, later).raised
    {
      raised := ConvertRecordsDate();
      if raised.Some? {
        return;
      }
      ghost var st1 := settings;
      CheckEarlyRules();
      ConvertSaveDates(later);
      ghost var st2 := settings;
      CheckMiddleRules();
      raised := LookupInterface(interfaces, interfacesIp);
      if raised.Some? {
        AppendAssoc3(old(exceptions), EarlyRules(st1), SaveDatesPhase(st1, later).errors, MiddleRules(st2));
        return;
      }
      ghost var st3 := settings;
      CheckLateRules();
      AppendAssoc5(old(exceptions), EarlyRules(st1), SaveDatesPhase(st1, later).errors, MiddleRules(st2),
                   InterfacePhase(st2, interfaces, interfacesIp).added, LateRules(st3));
    }

    /** The `-records` step of `post_processing`. */
    method ConvertRecordsDate() returns (raised: Option<CmdError>)
      modifies this
      ensures settings == old(settings).(recordsType := settings.recordsType, recordsDate := settings.recordsDate)
      ensures RecordsPhase(old(settings)) == RecordsStep(settings.recordsType, settings.recordsDate, raised)
      ensures exceptions == old(exceptions)
    {
      raised := None;
      if settings.recordsFlag {
        if settings.recordsDate.Some? && settings.recordsDate.value.Parts? {
          raised := ConvertRecordsParts(settings.recordsDate.value.parts);
        } else {
          raised := Some(NotAList);
        }
      }
    }

    /** The records date as split text: its length is stored first, then
        the conversion either raises or replaces it. */
    method ConvertRecordsParts(ps: seq<string>) returns (raised: Option<CmdError>)
      modifies this
      ensures var d := ConvertListDatetime(ps, "-RECORDS");
        settings == old(settings).(recordsType := Some(|ps|),
                                   recordsDate := if d.Success? then Some(Date(d.value)) else old(settings).recordsDate) &&
        raised == (if d.Success? then None else Some(d.error))
      ensures exceptions == old(exceptions)
    {
      settings := settings.(recordsType := Some(|ps|));
      var d := ConvertListDatetime(ps, "-RECORDS");
      if d.Failure? {
        raised := Some(d.error);
      } else {
        raised := None;
        settings := settings.(recordsDate := Some(Date(d.value)));
      }
    }

    /** One rule of `post_processing`: the condition the source tests for
        the rule, and the error appended when it holds. */
    method AppendIf(broken: bool, rule: FormatRule)
      requires broken == Broken(settings, rule)
      modifies this
      ensures settings == old(settings)
      ensures exceptions == old(exceptions) + Rule(Broken(settings, rule), rule)
    {
      if broken {
        exceptions := exceptions + [InvalidFormat(rule)];
      }
    }

    method CheckEarlyRules()
      modifies this
      ensures settings == old(settings)
      ensures exceptions == old(exceptions) + EarlyRules(settings)
    {
      ghost var e0 := exceptions;
      AppendIf(!settings.saveFound && settings.outputFound, OutputWithoutSave);
      AppendIf(settings.saveFound && !settings.outputFound, SaveWithoutOutput);
      var outSpecifierFound := settings.csv || settings.pdf || settings.graph || settings.onefile || settings.verboseOnefile;
      AppendIf(settings.saveFound && settings.outputFound && !outSpecifierFound, NoOutputSpecifier);
      AppendIf(settings.verboseOnefile && !settings.graph, VerboseWithoutGraph);
      AppendAssoc4(e0, Rule(Broken(settings, OutputWithoutSave), OutputWithoutSave),
                   Rule(Broken(settings, SaveWithoutOutput), SaveWithoutOutput),
                   Rule(Broken(settings, NoOutputSpecifier), NoOutputSpecifier),
                   Rule(Broken(settings, VerboseWithoutGraph), VerboseWithoutGraph));
    }

    /** The `-save` dates step; its exceptions are caught and collected. */
    method ConvertSaveDates(later: (DateTime, DateTime) -> bool)
      modifies this
      ensures settings == old(settings).(saveStart := settings.saveStart, saveEnd := settings.saveEnd)
      ensures settings.saveStart == SaveDatesPhase(old(settings), later).saveStart
      ensures settings.saveEnd == SaveDatesPhase(old(settings), later).saveEnd
      ensures exceptions == old(exceptions) + SaveDatesPhase(old(settings), later).errors
    {
      if settings.saveStart.Some? && settings.saveEnd.Some? {
        var s := ConvertArg(settings.saveStart.value, "-SAVE");
        if s.Failure? {
          exceptions := exceptions + [s.error];
        } else {
          var t := ConvertArg(settings.saveEnd.value, "-SAVE");
          if t.Failure? {
            exceptions := exceptions + [t.error];
          } else if !later(s.value, t.value) {
            exceptions := exceptions + [InvalidFormat(SaveDatesReversed)];
          } else {
            settings := settings.(saveStart := Some(Date(s.value)), saveEnd := Some(Date(t.value)));
          }
        }
      }
    }

    method CheckMiddleRules()
      modifies this
      ensures settings == old(settings)
      ensures exceptions == old(exceptions) + MiddleRules(settings)
    {
      ghost var e0 := exceptions;
      CheckSaveNeededRules();
      CheckModeRules();
      AppendAssoc(e0, SaveNeededRules(settings), ModeRules(settings));
    }

    method CheckSaveNeededRules()
      modifies this
      ensures settings == old(settings)
      ensures exceptions == old(exceptions) + SaveNeededRules(settings)
    {
      ghost var e0 := exceptions;
      var outSpecifierFound := settings.csv || settings.pdf || settings.graph || settings.onefile || settings.verboseOnefile;
      AppendIf(outSpecifierFound && !settings.saveFound && settings.outputFound, SpecifierWithoutSave);
      AppendIf(settings.dataChunkFound && !settings.saveFound, DataWithoutSave);
      AppendIf(settings.anon && !settings.saveFound, AnonWithoutSave);
      AppendIf(settings.pickleFlag && !settings.saveFound, PickleWithoutSave);
      AppendAssoc4(e0, Rule(Broken(settings, SpecifierWithoutSave), SpecifierWithoutSave),
                   Rule(Broken(settings, DataWithoutSave), DataWithoutSave),
                   Rule(Broken(settings, AnonWithoutSave), AnonWithoutSave),
                   Rule(Broken(settings, PickleWithoutSave), PickleWithoutSave));
    }

    method CheckModeRules()
      modifies this
      ensures settings == old(settings)
      ensures exceptions == old(exceptions) + ModeRules(settings)
    {
      ghost var e0 := exceptions;
      AppendIf(settings.pickleFlag && !settings.graph, PickleWithoutGraph);
      AppendIf(settings.dynamic && settings.sniff, DynamicWithSniff);
      AppendIf(settings.interfaceIpv4.None? && !settings.saveFound && !settings.dynamic && !settings.pickleFound,
               InterfaceMissing);
      AppendAssoc3(e0, Rule(Broken(settings, PickleWithoutGraph), PickleWithoutGraph),
                   Rule(Broken(settings, DynamicWithSniff), DynamicWithSniff),
                   Rule(Broken(settings, InterfaceMissing), InterfaceMissing));
    }

    /** Finds the readable name of the `-i` address by a linear search. */
    method LookupInterface(interfaces: seq<string>, interfacesIp: seq<string>) returns (raised: Option<CmdError>)
      modifies this
      ensures settings == old(settings).(interfaceReadable := settings.interfaceReadable)
      ensures settings.interfaceReadable == InterfacePhase(old(settings), interfaces, interfacesIp).readable
      ensures exceptions == old(exceptions) + InterfacePhase(old(settings), interfaces, interfacesIp).added
      ensures raised == InterfacePhase(old(settings), interfaces, interfacesIp).raised
    {
      var step := Lookup(settings, interfaces, interfacesIp);
      settings := settings.(interfaceReadable := step.readable);
      exceptions := exceptions + step.added;
      raised := step.raised;
    }

    method CheckLateRules()
      modifies this
      ensures settings == old(settings)
      ensures exceptions == old(exceptions) + LateRules(settings)
    {
      ghost var e0 := exceptions;
      CheckSignRules();
      AppendIf(settings.dropThreshold != 1 && !settings.verboseOnefile, ThresholdWithoutVerbose);
      AppendAssoc(e0, SignRules(settings), Rule(Broken(settings, ThresholdWithoutVerbose), ThresholdWithoutVerbose));
    }

    method CheckSignRules()
      modifies this
      ensures settings == old(settings)
      ensures exceptions == old(exceptions) + SignRules(settings)
    {
      ghost var e0 := exceptions;
      AppendIf(settings.sleepTime < 0.0, NegativeSleep);
      AppendIf(settings.loopTimes.Some? && settings.loopTimes.value < 0, NegativeLoops);
      AppendIf(settings.dropThreshold < 0, NegativeThreshold);
      AppendIf(settings.packetCount.Some? && settings.packetCount.value < 0, NegativePacketCount);
      AppendAssoc4(e0, Rule(Broken(settings, NegativeSleep), NegativeSleep),
                   Rule(Broken(settings, NegativeLoops), NegativeLoops),
                   Rule(Broken(settings, NegativeThreshold), NegativeThreshold),
                   Rule(Broken(settings, NegativePacketCount), NegativePacketCount));
    }
  }
}
