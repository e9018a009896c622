/** The checks the command-line handler is built from. Each one returns or
    raises; a raised exception is a `Failure` carrying the `CmdError` that
    stands for it. */
module FlagChecks {
  import opened Wrappers
  import opened Text

  /** The validation rule an `InvalidFormatException` reports. */
  datatype FormatRule =
    | OutputWithoutSave          // -o given, -save missing
    | SaveWithoutOutput          // -save given, -o missing
    | NoOutputSpecifier          // -save and -o given, no -csv/-pdf/-graph/-onefile/-verbose_onefile
    | VerboseWithoutGraph        // -verbose_onefile without -graph
    | SaveDatesReversed          // the end date is not more than a second after the start date
    | SpecifierWithoutSave       // an output specifier and -o, but no -save
    | DataWithoutSave
    | AnonWithoutSave
    | PickleWithoutSave
    | PickleWithoutGraph
    | DynamicWithSniff
    | InterfaceMissing           // no -i, no -save, no -dynamic and no pickle file
    | UnknownInterface           // -i names no address of the machine
    | NegativeSleep
    | NegativeLoops
    | NegativeThreshold
    | NegativePacketCount
    | ThresholdWithoutVerbose
    | DateLength(flag: string, length: nat)  // a date list that is empty or has six or more parts

  /** The exceptions the handler raises or collects. `InvalidLength` records
      the position looked for; `IndexOutOfRange`, `NotAnInteger`,
      `NotAFloat` and `NotAList` stand for Python's `IndexError`, the
      `ValueError` of `int()` and of `float()`, and the `TypeError` of `len()`
      on something that is not a list. */
  datatype CmdError =
    | InvalidFlag(arg: string)
    | InvalidValue(flag: Option<string>, value: string)
    | InvalidLength(arg: string, position: nat)
    | InvalidFormat(rule: FormatRule)
    | IndexOutOfRange(position: nat)
    | NotAnInteger(text: string)
    | NotAFloat(text: string)
    | NotAList

  /** The `type_check` argument: none, `int`, `float` or `str`. */
  datatype TypeCheck = NoCheck | IntCheck | FloatCheck | StrCheck

  /** Whether calling the type on the text returns instead of raising. */
  predicate Converts(t: TypeCheck, v: string)
  {
    match t
    case NoCheck => true
    case IntCheck => ParseInt(v).Some?
    case FloatCheck => ParseReal(v).Some?
    case StrCheck => true
  }

  /** `arg_has_value`: the argument `offset` places after `argIndex` exists and
      passes the optional type and value checks; it never answers false. */
  function ArgHasValue(arg: string, argIndex: nat, argl: seq<string>, offset: nat,
                       typeCheck: TypeCheck, valCheck: Option<string>): (r: Result<bool, CmdError>)
    ensures r.Success? <==>
      argIndex + offset < |argl| && Converts(typeCheck, argl[argIndex + offset]) &&
      (valCheck.Some? ==> argl[argIndex + offset] == valCheck.value)
    ensures r.Success? ==> r.value
    ensures argIndex + offset >= |argl| ==> r == Failure(InvalidLength(arg, argIndex + offset))
    ensures argIndex + offset < |argl| && r.Failure? ==> r.error == InvalidValue(Some(arg), argl[argIndex + offset])
  {
    if argIndex + offset < |argl| then
      var val := argl[argIndex + offset];
      if !Converts(typeCheck, val) then Failure(InvalidValue(Some(arg), val))
      else if valCheck.Some? && val != valCheck.value then Failure(InvalidValue(Some(arg), val))
      else Success(true)
    else
      Failure(InvalidLength(arg, argIndex + offset))
  }

  /** `arg_is_comma_separated_list`: the text splits on commas into exactly
      `length` pieces. */
  function ArgIsCommaSeparatedList(arg: string, length: int): (r: Result<bool, CmdError>)
    ensures r.Success? <==> |Split(arg, ',')| == length
    ensures r.Success? ==> r.value
    ensures r.Failure? ==> r.error == InvalidValue(None, arg)
  {
    if |Split(arg, ',')| != length then Failure(InvalidValue(None, arg)) else Success(true)
  }

  /** A list written out with commas passes the length check for its own
      length exactly when none of its items holds a comma. */
  lemma CommaListOfJoin(parts: seq<string>)
    requires |parts| >= 1
    ensures ArgIsCommaSeparatedList(Join(parts, ','), |parts|).Success? <==>
      forall k :: 0 <= k < |parts| ==> ',' !in parts[k]
  {
    JoinPieces(parts, ',');
  }

  /** `arg_sanity_check`: the predicate's own exception propagates, a false
      answer raises `InvalidValueError` for `flag`, a true one returns true. */
  function ArgSanityCheck(flag: string, arg: string, check: string -> Result<bool, CmdError>): (r: Result<bool, CmdError>)
    ensures r.Success? <==> check(arg) == Success(true)
    ensures r.Success? ==> r.value
    ensures check(arg).Failure? ==> r == check(arg)
    ensures check(arg) == Success(false) ==> r == Failure(InvalidValue(Some(flag), arg))
  {
    match check(arg)
    case Failure(e) => Failure(e)
    case Success(ok) => if ok then Success(true) else Failure(InvalidValue(Some(flag), arg))
  }

  /** `int_check` of `parse_sys_args`: `int(x) > 0`, raising for a non-integer. */
  function PositiveInt(x: string): (r: Result<bool, CmdError>)
    ensures r.Success? <==> ParseInt(x).Some?
    ensures r.Success? ==> (r.value <==> ParseInt(x).value > 0)
    ensures r.Failure? ==> r.error == NotAnInteger(x)
  {
    match ParseInt(x)
    case None => Failure(NotAnInteger(x))
    case Some(v) => Success(v > 0)
  }

  /** `length_check` of `parse_sys_args`: one to six comma-separated parts. */
  function DateLengthOk(lst: string): (r: Result<bool, CmdError>)
    ensures r.Success? && (r.value <==> |Split(lst, ',')| <= 6)
  {
    var n := |Split(lst, ',')|;
    Success(1 <= n <= 6)
  }

  /** A `datetime`; calendar validity is not modelled. */
  datatype DateTime = DateTime(year: int, month: int, day: int, hour: int, minute: int, second: int)

  /** The defaults of the `destructor` inside `convert_list_datetime`:
      year, month and day 1, hour, minute and second 0. */
  const DateDefaults: seq<int> := [1, 1, 1, 0, 0, 0]

  /** `int()` applied to each part in order; the first part that is not an
      integer raises. */
  function ParseAll(parts: seq<string>): (r: Result<seq<int>, CmdError>)
    ensures r.Success? <==> forall i :: 0 <= i < |parts| ==> ParseInt(parts[i]).Some?
    ensures r.Success? ==> |r.value| == |parts|
    ensures r.Success? ==> forall i :: 0 <= i < |parts| ==> r.value[i] == ParseInt(parts[i]).value
    ensures r.Failure? ==> exists i :: 0 <= i < |parts| && ParseInt(parts[i]).None? && r.error == NotAnInteger(parts[i])
  {
    if |parts| == 0 then Success([])
    else match ParseInt(parts[0])
      case None => Failure(NotAnInteger(parts[0]))
      case Some(v) =>
        match ParseAll(parts[1..])
        case Failure(e) => Failure(e)
        case Success(vs) => Success([v] + vs)
  }

  /** `convert_list_datetime`: any length other than one to five parts
      raises `InvalidFormatException` for `flag`; otherwise the parts are
      converted in order (see `ConvertListDatetimeFields`). */
  function ConvertListDatetime(parts: seq<string>, flag: string): (r: Result<DateTime, CmdError>)
    ensures !(0 < |parts| < 6) ==> r == Failure(InvalidFormat(DateLength(flag, |parts|)))
  {
    if 0 < |parts| < 6 then
      match ParseAll(parts)
      case Failure(e) => Failure(e)
      case Success(vs) =>
        var f := vs + DateDefaults[|vs|..];
        Success(DateTime(f[0], f[1], f[2], f[3], f[4], f[5]))
    else
      Failure(InvalidFormat(DateLength(flag, |parts|)))
  }

  /** One to five parts, each an integer, give the date whose leading fields
      are those parts and whose remaining fields keep their defaults; a part
      that is not an integer raises. */
  lemma ConvertListDatetimeFields(parts: seq<string>, flag: string)
    ensures var r := ConvertListDatetime(parts, flag);
      r.Success? <==> 0 < |parts| < 6 && forall i :: 0 <= i < |parts| ==> ParseInt(parts[i]).Some?
    ensures var r := ConvertListDatetime(parts, flag);
      r.Success? ==>
        (forall i :: 0 <= i < |parts| ==> Field(r.value, i) == ParseInt(parts[i]).value) &&
        (forall i :: |parts| <= i < 6 ==> Field(r.value, i) == DateDefaults[i])
    ensures var r := ConvertListDatetime(parts, flag);
      0 < |parts| < 6 && r.Failure? ==> exists i :: 0 <= i < |parts| && ParseInt(parts[i]).None? && r.error == NotAnInteger(parts[i])
  {
  }

  /** The date a successful conversion gives, field by field. */
  function Field(d: DateTime, i: nat): int
    requires i < 6
  {
    [d.year, d.month, d.day, d.hour, d.minute, d.second][i]
  }

  /** The full six-part form `YYYY,MM,DD,HH,MM,SS` that the usage text
      documents is rejected, even when every part is a number. */
  lemma SixPartDateRejected(flag: string)
    ensures ConvertListDatetime(["2022", "1", "2", "3", "4", "5"], flag) == Failure(InvalidFormat(DateLength(flag, 6)))
  {
  }
}
