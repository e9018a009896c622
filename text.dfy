/** The handful of Python string operations the core relies on, over ASCII:
    `str.upper`, `str.split(",")`, `str.endswith`, `str(n)` for a natural number,
    and the decimal forms `int(s)` and `float(s)` accept. */
module Text {
  import opened Wrappers

  predicate IsDigit(c: char) { '0' <= c <= '9' }

  function DigitChar(d: nat): (c: char)
    requires d < 10
    ensures IsDigit(c) && DigitValue(c) == d
  {
    "0123456789"[d]
  }

  function DigitValue(c: char): nat
    requires IsDigit(c)
  {
    (c as int - '0' as int) as nat
  }

  /** `str(n)` for a natural number: decimal digits, most significant first. */
  function NatToString(n: nat): (s: string)
    ensures |s| >= 1
    ensures forall i :: 0 <= i < |s| ==> IsDigit(s[i])
    ensures n >= 10 ==> |s| >= 2
  {
    if n < 10 then [DigitChar(n)] else NatToString(n / 10) + [DigitChar(n % 10)]
  }

  /** The value of a nonempty run of decimal digits. */
  function DigitsValue(s: string): nat
    requires forall i :: 0 <= i < |s| ==> IsDigit(s[i])
  {
    if |s| == 0 then 0 else DigitsValue(s[..|s| - 1]) * 10 + DigitValue(s[|s| - 1])
  }

  predicate AllDigits(s: string) { |s| >= 1 && forall i :: 0 <= i < |s| ==> IsDigit(s[i]) }

  /** Reading back what `NatToString` printed gives the number again. */
  lemma {:induction false} NatToStringValue(n: nat)
    ensures AllDigits(NatToString(n)) && DigitsValue(NatToString(n)) == n
  {
    if n >= 10 {
      NatToStringValue(n / 10);
      var s := NatToString(n);
      assert s[..|s| - 1] == NatToString(n / 10);
    }
  }

  /** Distinct numbers print differently. */
  lemma NatToStringInjective(a: nat, b: nat)
    requires NatToString(a) == NatToString(b)
    ensures a == b
  {
    NatToStringValue(a);
    NatToStringValue(b);
  }

  /** `int(s)` over the forms the model admits: an optional sign followed by
      one or more ASCII digits. */
  function ParseInt(s: string): (r: Option<int>)
    ensures r.Some? <==> (AllDigits(s) || (|s| >= 2 && (s[0] == '-' || s[0] == '+') && AllDigits(s[1..])))
  {
    if AllDigits(s) then Some(DigitsValue(s) as int)
    else if |s| >= 2 && s[0] == '-' && AllDigits(s[1..]) then Some(-(DigitsValue(s[1..]) as int))
    else if |s| >= 2 && s[0] == '+' && AllDigits(s[1..]) then Some(DigitsValue(s[1..]) as int)
    else None
  }

  lemma ParseIntOfNatToString(n: nat)
    ensures ParseInt(NatToString(n)) == Some(n)
  {
    NatToStringValue(n);
  }

  function Pow10(k: nat): (p: nat)
    ensures p >= 1
  {
    if k == 0 then 1 else 10 * Pow10(k - 1)
  }

  predicate Digits0(s: string) { forall i :: 0 <= i < |s| ==> IsDigit(s[i]) }

  function IndexOf(s: string, c: char): (r: Option<nat>)
    ensures r.Some? ==> r.value < |s| && s[r.value] == c && c !in s[..r.value]
    ensures r.None? ==> c !in s
  {
    if |s| == 0 then None
    else if s[0] == c then Some(0)
    else match IndexOf(s[1..], c)
      case None => None
      case Some(k) => Some(k + 1)
  }

  function UnsignedDecimalValue(s: string): Option<real>
  {
    if AllDigits(s) then Some(DigitsValue(s) as real)
    else match IndexOf(s, '.')
      case None => None
      case Some(p) =>
        var whole, frac := s[..p], s[p + 1..];
        if |s| >= 2 && Digits0(whole) && Digits0(frac)
        then Some(DigitsValue(whole) as real + DigitsValue(frac) as real / Pow10(|frac|) as real)
        else None
  }

  /** `float(s)` over the forms the model admits: an optional sign, then digits
      with at most one decimal point and at least one digit. */
  function ParseReal(s: string): (r: Option<real>)
    ensures ParseInt(s).Some? ==> r == Some(ParseInt(s).value as real)
  {
    if |s| >= 1 && s[0] == '-' then
      match UnsignedDecimalValue(s[1..])
      case None => None
      case Some(v) => Some(-v)
    else if |s| >= 1 && s[0] == '+' then UnsignedDecimalValue(s[1..])
    else UnsignedDecimalValue(s)
  }

  function UpperChar(c: char): char
  {
    if 'a' <= c <= 'z' then (c as int - 'a' as int + 'A' as int) as char else c
  }

  /** `str.upper` restricted to ASCII letters. */
  function ToUpper(s: string): (r: string)
    ensures |r| == |s|
    ensures forall i :: 0 <= i < |s| ==> r[i] == UpperChar(s[i])
  {
    if |s| == 0 then [] else [UpperChar(s[0])] + ToUpper(s[1..])
  }

  predicate EndsWith(s: string, suffix: string)
  {
    |suffix| <= |s| && s[|s| - |suffix|..] == suffix
  }

  /** Python's `s.split(c)`: the pieces between occurrences of `c`, always at
      least one (`"".split(",") == [""]`). */
  function Split(s: string, c: char): (r: seq<string>)
    ensures |r| >= 1
    ensures forall i :: 0 <= i < |r| ==> c !in r[i]
  {
    match IndexOf(s, c)
    case None => [s]
    case Some(p) => [s[..p]] + Split(s[p + 1..], c)
  }

  function Join(parts: seq<string>, c: char): string
  {
    if |parts| == 0 then "" else if |parts| == 1 then parts[0] else parts[0] + [c] + Join(parts[1..], c)
  }

  function Occurrences(s: string, c: char): nat
  {
    if |s| == 0 then 0 else (if s[0] == c then 1 else 0) + Occurrences(s[1..], c)
  }

  /** Splitting loses nothing: joining the pieces with the separator gives the
      text back, and there is one piece more than there are separators. */
  lemma {:induction false} SplitJoin(s: string, c: char)
    ensures Join(Split(s, c), c) == s
    ensures |Split(s, c)| == Occurrences(s, c) + 1
  {
    match IndexOf(s, c)
    case None =>
      NoOccurrences(s, c);
    case Some(p) =>
      SplitJoin(s[p + 1..], c);
      OccurrencesSplit(s, c, p);
      assert s == s[..p] + [c] + s[p + 1..];
  }

  lemma {:induction false} NoOccurrences(s: string, c: char)
    requires c !in s
    ensures Occurrences(s, c) == 0
  {
    if |s| > 0 {
      assert c !in s[1..];
      NoOccurrences(s[1..], c);
    }
  }

  lemma {:induction false} OccurrencesSplit(s: string, c: char, p: nat)
    requires p < |s| && s[p] == c && c !in s[..p]
    ensures Occurrences(s, c) == 1 + Occurrences(s[p + 1..], c)
  {
    if p > 0 {
      assert s[1..][..p - 1] == s[..p][1..];
      OccurrencesSplit(s[1..], c, p - 1);
      assert s[1..][p..] == s[p + 1..];
    } else {
      assert s[1..] == s[p + 1..];
    }
  }

  /** The first separator of `a + [c] + b` is the one after `a` when `a` has none. */
  lemma IndexOfAfter(a: string, c: char, b: string)
    requires c !in a
    ensures IndexOf(a + [c] + b, c) == Some(|a|)
  {
    var s := a + [c] + b;
    assert s[|a|] == c;
    assert s[..|a|] == a;
  }

  /** Joining pieces that do not contain the separator and splitting again
      gives the pieces back. */
  lemma {:induction false} JoinSplit(parts: seq<string>, c: char)
    requires |parts| >= 1
    requires forall i :: 0 <= i < |parts| ==> c !in parts[i]
    ensures Split(Join(parts, c), c) == parts
  {
    if |parts| == 1 {
      assert IndexOf(parts[0], c).None?;
    } else {
      var rest := Join(parts[1..], c);
      IndexOfAfter(parts[0], c, rest);
      var s := parts[0] + [c] + rest;
      assert s[..|parts[0]|] == parts[0];
      assert s[|parts[0]| + 1..] == rest;
      JoinSplit(parts[1..], c);
    }
  }

  /** The separators inside the pieces, summed. */
  function InnerOccurrences(parts: seq<string>, c: char): nat
  {
    if |parts| == 0 then 0 else Occurrences(parts[0], c) + InnerOccurrences(parts[1..], c)
  }

  lemma {:induction false} OccurrencesAppend(a: string, b: string, c: char)
    ensures Occurrences(a + b, c) == Occurrences(a, c) + Occurrences(b, c)
  {
    if |a| == 0 {
      assert a + b == b;
    } else {
      assert (a + b)[1..] == a[1..] + b;
      OccurrencesAppend(a[1..], b, c);
    }
  }

  /** A joined text holds the pieces' separators plus one between each two pieces. */
  lemma {:induction false} JoinOccurrences(parts: seq<string>, c: char)
    requires |parts| >= 1
    ensures Occurrences(Join(parts, c), c) == InnerOccurrences(parts, c) + |parts| - 1
  {
    if |parts| > 1 {
      JoinOccurrences(parts[1..], c);
      OccurrencesAppend(parts[0] + [c], Join(parts[1..], c), c);
      OccurrencesAppend(parts[0], [c], c);
      assert Occurrences([c], c) == 1;
    }
  }

  lemma {:induction false} OccurrencesPositive(s: string, c: char)
    ensures Occurrences(s, c) > 0 <==> c in s
  {
    if |s| > 0 {
      OccurrencesPositive(s[1..], c);
      assert s == [s[0]] + s[1..];
    }
  }

  /** Splitting a joined text gives one piece per part exactly when no part
      holds the separator, and then gives the parts themselves. */
  lemma JoinPieces(parts: seq<string>, c: char)
    requires |parts| >= 1
    ensures |Split(Join(parts, c), c)| == |parts| <==> forall k :: 0 <= k < |parts| ==> c !in parts[k]
    ensures (forall k :: 0 <= k < |parts| ==> c !in parts[k]) ==> Split(Join(parts, c), c) == parts
  {
    SplitJoin(Join(parts, c), c);
    JoinOccurrences(parts, c);
    InnerOccurrencesZero(parts, c);
    if forall k :: 0 <= k < |parts| ==> c !in parts[k] {
      JoinSplit(parts, c);
    }
  }

  lemma {:induction false} InnerOccurrencesZero(parts: seq<string>, c: char)
    ensures InnerOccurrences(parts, c) == 0 <==> forall k :: 0 <= k < |parts| ==> c !in parts[k]
  {
    if |parts| > 0 {
      InnerOccurrencesZero(parts[1..], c);
      OccurrencesPositive(parts[0], c);
      assert forall k :: 1 <= k < |parts| ==> parts[k] == parts[1..][k - 1];
    }
  }
}
