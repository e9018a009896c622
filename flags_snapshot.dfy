/** The earlier command-line handler. It walks the whole of `argv`, the
    script path included, and the first exception escapes. `SAVE_FOUND` is a
    class attribute, so every handler shares it. The values of `-i`, `-l`,
    `-t` and `-f` are read from the flag's own text, at the position the
    skip counter reached. */
module FlagsSnapshot {
  import opened Wrappers
  import opened Text
  import opened FlagChecks

  /** The flags the earlier handler accepts, upper-cased. `-GRAPH` is not
      among them. */
  const ValidFlags: seq<string> := ["-I", "-L", "-T", "-SNIFF", "-F", "-SAVE", "-O", "-CSV", "-PDF",
                                    "-ONEFILE", "-VERBOSE_ONEFILE", "-RELAXED"]

  /** The flags after which one argument is skipped. */
  const SkippingFlags: seq<string> := ["-I", "-L", "-T", "-F", "-SAVE", "-O", "-RELAXED"]

  /** The instance fields. `None` for `loopTimes` stands for `inf`. The
      instance's own `SAVE_FLAG` and the output flags are never set by the
      parser. */
  datatype Settings = Settings(
    interface: Option<string>, loopTimes: Option<int>, sleepTime: real,
    outputPath: Option<string>, ipFilter: Option<string>,
    sniff: bool, save: bool, csv: bool, pdf: bool, graph: bool, onefile: bool,
    verboseOnefile: bool, dropThreshold: int)

  /** The fields a new handler starts with. */
  function Defaults(): (st: Settings)
    ensures st.loopTimes.None? && st.sleepTime == 1.0 && st.dropThreshold == 1
    ensures st.interface.None? && st.outputPath.None? && st.ipFilter.None?
    ensures !st.sniff && !st.save && !st.csv && !st.pdf && !st.graph && !st.onefile && !st.verboseOnefile
  {
    Settings(None, None, 1.0, None, None, false, false, false, false, false, false, false, 1)
  }

  /** What handling one argument did: the new fields, the new `SAVE_FOUND`,
      and how many following arguments to skip. */
  datatype Step = Step(settings: Settings, saveFound: bool, skip: nat)

  /** The one-character text at `arg[index + 1]`, or the `IndexError` of
      reading past the flag's end. */
  function CharAfter(arg: string, index: nat): (r: Result<string, CmdError>)
    ensures r.Success? <==> index + 1 < |arg|
    ensures r.Success? ==> r.value == [arg[index + 1]]
    ensures r.Failure? ==> r.error == IndexOutOfRange(index + 1)
  {
    if index + 1 < |arg| then Success([arg[index + 1]]) else Failure(IndexOutOfRange(index + 1))
  }

  /** One argument that is not skipped. The value check looks at
      `argv[index + 1]`, but the value stored is `arg[index + 1]`. */
  function HandleArg(arg: string, argv: seq<string>, index: nat, st: Settings, saveFound: bool): (r: Result<Step, CmdError>)
    ensures ToUpper(arg) !in ValidFlags ==> r == Failure(InvalidFlag(arg))
    ensures r.Success? ==> r.value.skip == (if ToUpper(arg) in SkippingFlags then 1 else 0)
    ensures r.Success? ==> (r.value.saveFound <==> saveFound || ToUpper(arg) == "-SAVE")
    ensures ToUpper(arg) in ValidFlags && ToUpper(arg) !in ["-I", "-L", "-T", "-F"] ==>
      r.Success? && r.value.settings == if ToUpper(arg) == "-SNIFF" then st.(sniff := true) else st
  {
    var flag := ToUpper(arg);
    if flag !in ValidFlags then Failure(InvalidFlag(arg))
    else if flag == "-I" || flag == "-F" then
      match ArgHasValue(arg, index, argv, 1, NoCheck, None)
      case Failure(e) => Failure(e)
      case Success(_) =>
        match CharAfter(arg, index)
        case Failure(e) => Failure(e)
        case Success(v) =>
          Success(Step(if flag == "-I" then st.(interface := Some(v)) else st.(ipFilter := Some(v)), saveFound, 1))
    else if flag == "-L" then
      match ArgHasValue(arg, index, argv, 1, IntCheck, None)
      case Failure(e) => Failure(e)
      case Success(_) =>
        match CharAfter(arg, index)
        case Failure(e) => Failure(e)
        case Success(v) =>
          match ParseInt(v)
          case None => Failure(NotAnInteger(v))
          case Some(n) => Success(Step(st.(loopTimes := Some(n)), saveFound, 1))
    else if flag == "-T" then
      match ArgHasValue(arg, index, argv, 1, FloatCheck, None)
      case Failure(e) => Failure(e)
      case Success(_) =>
        match CharAfter(arg, index)
        case Failure(e) => Failure(e)
        case Success(v) =>
          match ParseReal(v)
          case None => Failure(NotAFloat(v))
          case Some(x) => Success(Step(st.(sleepTime := x), saveFound, 1))
    else if flag == "-SNIFF" then Success(Step(st.(sniff := true), saveFound, 0))
    else if flag == "-SAVE" then Success(Step(st, true, 1))
    else if flag == "-O" || flag == "-RELAXED" then Success(Step(st, saveFound, 1))
    else Success(Step(st, saveFound, 0))
  }

  /** The result of `parseSysArgs`: the fields, `SAVE_FOUND`, and the
      exception that escaped, if one did. */
  datatype Parsed = Parsed(settings: Settings, saveFound: bool, raised: Option<CmdError>)

  /** The rest of `parseSysArgs` from argument `p` on. `index` moves only
      when an argument is skipped. */
  function ParseFrom(argv: seq<string>, p: nat, index: nat, skip: nat, st: Settings, saveFound: bool): Parsed
    requires p <= |argv|
    decreases |argv| - p
  {
    if p == |argv| then Parsed(st, saveFound, None)
    else if skip > 0 then ParseFrom(argv, p + 1, index + 1, skip - 1, st, saveFound)
    else
      match HandleArg(argv[p], argv, index, st, saveFound)
      case Failure(e) => Parsed(st, saveFound, Some(e))
      case Success(step) => ParseFrom(argv, p + 1, index, step.skip, step.settings, step.saveFound)
  }

  /** `parseSysArgs` as a whole: nothing is skipped at the start. */
  function Parse(argv: seq<string>, st: Settings, saveFound: bool): Parsed
  {
    ParseFrom(argv, 0, 0, 0, st, saveFound)
  }

  /** The script path, `argv[0]`, is handled like a flag, so unless it
      happens to spell one, parsing raises on it before anything is set. */
  lemma ScriptPathRejected(argv: seq<string>, st: Settings, saveFound: bool)
    requires |argv| >= 1 && ToUpper(argv[0]) !in ValidFlags
    ensures Parse(argv, st, saveFound) == Parsed(st, saveFound, Some(InvalidFlag(argv[0])))
  {
  }

  /** `-graph`, in any case, is not a flag of this handler. */
  lemma GraphRejected(arg: string, argv: seq<string>, index: nat, st: Settings, saveFound: bool)
    requires ToUpper(arg) == "-GRAPH"
    ensures HandleArg(arg, argv, index, st, saveFound) == Failure(InvalidFlag(arg))
  {
  }

  /** A flag whose upper-case form is two characters long is itself two
      characters long, and its second character is that letter in either case. */
  lemma TwoLetterFlag(arg: string, letter: char)
    requires ToUpper(arg) == ['-', letter] && 'A' <= letter <= 'Z'
    ensures |arg| == 2 && (arg[1] == letter || arg[1] as int == letter as int + 32)
  {
    assert UpperChar(arg[1]) == letter;
  }

  /** A letter on its own is neither an `int()` nor a `float()`. */
  lemma LetterIsNoNumber(c: char)
    requires 'A' <= c <= 'Z' || 'a' <= c <= 'z'
    ensures ParseInt([c]).None? && ParseReal([c]).None?
  {
    var v := [c];
    assert !IsDigit(v[0]);
    assert !AllDigits(v);
    assert IndexOf(v, '.') == None by {
      assert IndexOf(v[1..], '.') == None;
    }
  }

  /** `-l` never sets the loop count: past the first position `arg[index + 1]`
      is out of range, and at the first it is the letter `l`, which `int()`
      rejects. */
  lemma LoopFlagAlwaysFails(arg: string, argv: seq<string>, index: nat, st: Settings, saveFound: bool)
    requires ToUpper(arg) == "-L"
    ensures HandleArg(arg, argv, index, st, saveFound).Failure?
    ensures ArgHasValue(arg, index, argv, 1, IntCheck, None).Success? ==>
      HandleArg(arg, argv, index, st, saveFound).error ==
        (if index == 0 then NotAnInteger([arg[1]]) else IndexOutOfRange(index + 1))
  {
    TwoLetterFlag(arg, 'L');
    LetterIsNoNumber(arg[1]);
  }

  /** `-t` never sets the sleep time, for the same reason: `float()` rejects
      the letter `t`. */
  lemma SleepFlagAlwaysFails(arg: string, argv: seq<string>, index: nat, st: Settings, saveFound: bool)
    requires ToUpper(arg) == "-T"
    ensures HandleArg(arg, argv, index, st, saveFound).Failure?
    ensures ArgHasValue(arg, index, argv, 1, FloatCheck, None).Success? ==>
      HandleArg(arg, argv, index, st, saveFound).error ==
        (if index == 0 then NotAFloat([arg[1]]) else IndexOutOfRange(index + 1))
  {
    TwoLetterFlag(arg, 'T');
    LetterIsNoNumber(arg[1]);
  }

  /** `-i` stores the flag's own letter, whatever argument follows it, and
      raises once an argument has been skipped before it. */
  lemma InterfaceFromFlagText(arg: string, argv: seq<string>, index: nat, st: Settings, saveFound: bool)
    requires ToUpper(arg) == "-I" && index + 1 < |argv|
    ensures HandleArg(arg, argv, index, st, saveFound) ==
      if index == 0 then Success(Step(st.(interface := Some([arg[1]])), saveFound, 1))
      else Failure(IndexOutOfRange(index + 1))
    ensures index == 0 ==> arg[1] == 'I' || arg[1] == 'i'
  {
    TwoLetterFlag(arg, 'I');
  }

  /** The loop count and the sleep time are as in `st`, and the interface
      and the address filter are as in `st` or one of the letters `i`, `I`,
      `f` and `F`. */
  predicate ValuesKept(s: Settings, st: Settings)
  {
    s.loopTimes == st.loopTimes && s.sleepTime == st.sleepTime &&
    (s.interface == st.interface || s.interface == Some("I") || s.interface == Some("i")) &&
    (s.ipFilter == st.ipFilter || s.ipFilter == Some("F") || s.ipFilter == Some("f"))
  }

  /** One argument keeps the values: `-l` and `-t` always fail, and `-i`
      and `-f` store their own letter. */
  lemma HandleArgValues(arg: string, argv: seq<string>, index: nat, st: Settings, saveFound: bool)
    ensures var r := HandleArg(arg, argv, index, st, saveFound);
      r.Success? ==> ValuesKept(r.value.settings, st)
  {
    var flag := ToUpper(arg);
    if flag == "-L" {
      LoopFlagAlwaysFails(arg, argv, index, st, saveFound);
    } else if flag == "-T" {
      SleepFlagAlwaysFails(arg, argv, index, st, saveFound);
    } else if flag == "-I" || flag == "-F" {
      AddressFlagValues(arg, argv, index, st, saveFound);
    } else {
      SwitchValues(arg, argv, index, st, saveFound);
    }
  }

  lemma AddressFlagValues(arg: string, argv: seq<string>, index: nat, st: Settings, saveFound: bool)
    requires ToUpper(arg) == "-I" || ToUpper(arg) == "-F"
    ensures var r := HandleArg(arg, argv, index, st, saveFound);
      r.Success? ==> ValuesKept(r.value.settings, st)
  {
    if ToUpper(arg) == "-I" {
      TwoLetterFlag(arg, 'I');
    } else {
      TwoLetterFlag(arg, 'F');
    }
  }

  lemma SwitchValues(arg: string, argv: seq<string>, index: nat, st: Settings, saveFound: bool)
    requires ToUpper(arg) !in ["-I", "-L", "-T", "-F"]
    ensures var r := HandleArg(arg, argv, index, st, saveFound);
      r.Success? ==> ValuesKept(r.value.settings, st)
  {
  }

  /** Over a whole run the values are kept: no value from `argv` is ever
      stored, and the loop count and the sleep time never change. */
  lemma {:induction false} ParseFromValues(argv: seq<string>, p: nat, index: nat, skip: nat, st: Settings, saveFound: bool)
    requires p <= |argv|
    ensures ValuesKept(ParseFrom(argv, p, index, skip, st, saveFound).settings, st)
    decreases |argv| - p
  {
    if p < |argv| {
      if skip > 0 {
        ParseFromValues(argv, p + 1, index + 1, skip - 1, st, saveFound);
      } else {
        var r := HandleArg(argv[p], argv, index, st, saveFound);
        if r.Success? {
          HandleArgValues(argv[p], argv, index, st, saveFound);
          ParseFromValues(argv, p + 1, index, r.value.skip, r.value.settings, r.value.saveFound);
        }
      }
    }
  }

  lemma ParseValues(argv: seq<string>, st: Settings, saveFound: bool)
    ensures ValuesKept(Parse(argv, st, saveFound).settings, st)
  {
    ParseFromValues(argv, 0, 0, 0, st, saveFound);
  }

  /** Once `SAVE_FOUND` is set, no run of the parser clears it. */
  lemma {:induction false} ParseFromKeepsSaveFound(argv: seq<string>, p: nat, index: nat, skip: nat, st: Settings)
    requires p <= |argv|
    ensures ParseFrom(argv, p, index, skip, st, true).saveFound
    decreases |argv| - p
  {
    if p < |argv| {
      if skip > 0 {
        ParseFromKeepsSaveFound(argv, p + 1, index + 1, skip - 1, st);
      } else {
        var r := HandleArg(argv[p], argv, index, st, true);
        if r.Success? {
          ParseFromKeepsSaveFound(argv, p + 1, index, r.value.skip, r.value.settings);
        }
      }
    }
  }

  lemma ParseKeepsSaveFound(argv: seq<string>, st: Settings)
    ensures Parse(argv, st, true).saveFound
  {
    ParseFromKeepsSaveFound(argv, 0, 0, 0, st);
  }

  /** `-i` right after a switch reads its check value from its own position
      and stores its own letter: the argument after it is skipped unread. */
  lemma InterfaceTakenFromFlag()
    ensures Parse(["-sniff", "-i", "10.0.0.1"], Defaults(), false) ==
      Parsed(Defaults().(sniff := true, interface := Some("i")), false, None)
  {
    var argv := ["-sniff", "-i", "10.0.0.1"];
    assert ToUpper("-sniff") == "-SNIFF";
    assert ToUpper("-i") == "-I";
    var s1 := Defaults().(sniff := true);
    assert HandleArg(argv[0], argv, 0, Defaults(), false) == Success(Step(s1, false, 0));
    assert HandleArg(argv[1], argv, 0, s1, false) == Success(Step(s1.(interface := Some("i")), false, 1));
  }

  /** The class itself, holding `SAVE_FOUND`, which all handlers share. */
  class HandlerClass {
    var saveFound: bool

    constructor()
      ensures !saveFound
    {
      saveFound := false;
    }
  }

  /** The earlier command-line handler. */
  class CmdHandler {
    var settings: Settings
    const cls: HandlerClass

    /** A new handler starts from the defaults and sees whatever earlier
        handlers left in `SAVE_FOUND`. */
    constructor(cls: HandlerClass)
      ensures settings == Defaults() && this.cls == cls
    {
      settings := Defaults();
      this.cls := cls;
    }

    /** Walks `argv` once; the first exception escapes, and the fields set
        before it stay set. */
    method ParseSysArgs(argv: seq<string>) returns (raised: Option<CmdError>)
      modifies this, cls
      ensures var r := Parse(argv, old(settings), old(cls.saveFound));
        settings == r.settings && cls.saveFound == r.saveFound && raised == r.raised
    {
      var index := 0;
      var skip := 0;
      var p := 0;
      while p < |argv|
        invariant p <= |argv|
        invariant ParseFrom(argv, p, index, skip, settings, cls.saveFound) == Parse(argv, old(settings), old(cls.saveFound))
        decreases |argv| - p
      {
        if skip > 0 {
          skip := skip - 1;
          index := index + 1;
          p := p + 1;
          continue;
        }
        match HandleArg(argv[p], argv, index, settings, cls.saveFound)
        case Failure(e) =>
          return Some(e);
        case Success(step) =>
          settings := step.settings;
          cls.saveFound := step.saveFound;
          skip := step.skip;
          p := p + 1;
      }
      raised := None;
    }
  }
}
