/** Python built-ins the scripts rely on: exceptions as results, `str.strip`,
    `int(str)`, list slicing and `str.split`, stated on Dafny strings. */
module Primitives {

  /** The Python exception classes the scripts can raise. `AssertionError`
      also stands for the interactive debugger escape of the repair pass. */
  datatype Error =
    | ValueError
    | KeyError
    | IndexError
    | NameError
    | AssertionError
    | ZeroDivisionError

  datatype Result<T> = Ok(value: T) | Err(error: Error) {
    predicate IsFailure() { Err? }
    function PropagateFailure<U>(): Result<U> requires Err? { Err(error) }
    function Extract(): T requires Ok? { value }
  }

  datatype Option<T> = None | Some(value: T)

  /** ASCII whitespace as `str.isspace` sees it: \t \n \x0b \x0c \r, \x1c..\x1f and space. */
  predicate IsSpace(c: char) {
    9 <= c as int <= 13 || 28 <= c as int <= 32
  }

  predicate IsDigit(c: char) {
    '0' <= c <= '9'
  }

  predicate AllDigits(s: string) {
    forall k | 0 <= k < |s| :: IsDigit(s[k])
  }

  predicate NoSpace(s: string) {
    forall k | 0 <= k < |s| :: !IsSpace(s[k])
  }

  function DigitValue(c: char): (d: nat)
    requires IsDigit(c)
    ensures d < 10
  {
    c as int - '0' as int
  }

  function DigitChar(d: nat): (c: char)
    requires d < 10
    ensures IsDigit(c) && DigitValue(c) == d
  {
    ('0' as int + d) as char
  }

  /** `s.lstrip()`: drops leading whitespace. */
  function StripLeft(s: string): string {
    if s != [] && IsSpace(s[0]) then StripLeft(s[1..]) else s
  }

  /** `s.rstrip()`: drops trailing whitespace. */
  function StripRight(s: string): string {
    if s != [] && IsSpace(s[|s| - 1]) then StripRight(s[..|s| - 1]) else s
  }

  /** `s.strip()`. */
  function Strip(s: string): string {
    StripRight(StripLeft(s))
  }

  /** `lstrip` removes a run of whitespace and stops at the first other character. */
  lemma {:induction false} StripLeftSpec(s: string)
    ensures var r := StripLeft(s);
      && |r| <= |s| && r == s[|s| - |r|..]
      && (r == [] || !IsSpace(r[0]))
      && (forall k | 0 <= k < |s| - |r| :: IsSpace(s[k]))
  {
    if s != [] && IsSpace(s[0]) {
      var t := s[1..];
      StripLeftSpec(t);
      var r := StripLeft(s);
      assert r == StripLeft(t);
      assert t[|t| - |r|..] == s[|s| - |r|..];
      forall k | 0 <= k < |s| - |r| ensures IsSpace(s[k]) {
        if k > 0 {
          assert s[k] == t[k - 1];
        }
      }
    }
  }

  /** `rstrip` removes a run of whitespace and stops at the last other character. */
  lemma {:induction false} StripRightSpec(s: string)
    ensures var r := StripRight(s);
      && |r| <= |s| && r == s[..|r|]
      && (r == [] || !IsSpace(r[|r| - 1]))
      && (forall k | |r| <= k < |s| :: IsSpace(s[k]))
  {
    if s != [] && IsSpace(s[|s| - 1]) {
      var t := s[..|s| - 1];
      StripRightSpec(t);
      var r := StripRight(s);
      assert r == StripRight(t);
      assert t[..|r|] == s[..|r|];
      forall k | |r| <= k < |s| ensures IsSpace(s[k]) {
        if k < |t| {
          assert s[k] == t[k];
        }
      }
    }
  }

  /** `strip` keeps the middle `s[lo..hi]` of the string, drops only whitespace
      around it, and leaves no whitespace at either end. */
  lemma StripSpec(s: string)
    ensures |StripLeft(s)| <= |s|
    ensures var r, lo := Strip(s), |s| - |StripLeft(s)|;
      && lo + |r| <= |s| && r == s[lo..lo + |r|]
      && (forall k | 0 <= k < lo :: IsSpace(s[k]))
      && (forall k | lo + |r| <= k < |s| :: IsSpace(s[k]))
      && (r == [] || (!IsSpace(r[0]) && !IsSpace(r[|r| - 1])))
  {
    var l := StripLeft(s);
    StripLeftSpec(s);
    StripRightSpec(l);
    var r := Strip(s);
    var lo := |s| - |l|;
    assert r == l[..|r|];
    forall k | lo + |r| <= k < |s| ensures IsSpace(s[k]) {
      assert s[k] == l[k - lo];
    }
    if r != [] {
      assert r[0] == l[0];
    }
  }

  /** A string without whitespace is its own stripped form. */
  lemma StripNoSpace(s: string)
    requires NoSpace(s)
    ensures Strip(s) == s
  {
    StripLeftSpec(s);
    StripRightSpec(StripLeft(s));
  }

  /** Decimal value of a digit string, most significant digit first. */
  function DigitsValue(s: string): nat
    requires AllDigits(s)
  {
    if s == [] then 0 else DigitsValue(s[..|s| - 1]) * 10 + DigitValue(s[|s| - 1])
  }

  /** `int(s)` for a string: optional surrounding whitespace, an optional
      sign and at least one decimal digit; anything else is a ValueError. */
  function ParseInt(s: string): (r: Result<int>)
    ensures r.Err? ==> r.error == ValueError
  {
    var t := Strip(s);
    if |t| > 1 && (t[0] == '-' || t[0] == '+') && AllDigits(t[1..]) then
      var v: int := DigitsValue(t[1..]);
      Ok(if t[0] == '-' then -v else v)
    else if |t| > 0 && AllDigits(t) then
      Ok(DigitsValue(t))
    else
      Err(ValueError)
  }

  /** Decimal rendering of a natural number (as `str(n)`). */
  function NatToString(n: nat): (s: string)
    ensures |s| > 0 && AllDigits(s)
  {
    if n < 10 then [DigitChar(n)] else NatToString(n / 10) + [DigitChar(n % 10)]
  }

  lemma {:induction false} DigitsValueOfNatToString(n: nat)
    ensures DigitsValue(NatToString(n)) == n
  {
    if n >= 10 {
      var s := NatToString(n);
      assert s[..|s| - 1] == NatToString(n / 10);
      DigitsValueOfNatToString(n / 10);
    }
  }

  lemma AllDigitsNoSpace(s: string)
    requires AllDigits(s)
    ensures NoSpace(s)
  {
  }

  /** `int(str(n)) == n`. */
  lemma ParseIntOfNatToString(n: nat)
    ensures ParseInt(NatToString(n)) == Ok(n)
  {
    var s := NatToString(n);
    AllDigitsNoSpace(s);
    StripNoSpace(s);
    DigitsValueOfNatToString(n);
  }

  /** `int(c)` of a one-character string: the digit's value, or a ValueError. */
  lemma ParseIntOneChar(c: char)
    ensures ParseInt([c]).Ok? <==> IsDigit(c)
    ensures IsDigit(c) ==> ParseInt([c]) == Ok(DigitValue(c))
  {
    var s := [c];
    assert s[1..] == [] && s[..0] == [];
    if IsSpace(c) {
      assert StripLeft(s) == [];
    } else {
      assert StripLeft(s) == s;
      assert StripRight(s) == s;
      if IsDigit(c) {
        assert DigitsValue(s) == DigitsValue(s[..0]) * 10 + DigitValue(c);
      }
    }
  }

  /** `row[k:]`. */
  function Drop<T>(row: seq<T>, k: nat): (r: seq<T>)
    ensures |r| == if |row| <= k then 0 else |row| - k
    ensures forall i | 0 <= i < |r| :: r[i] == row[k + i]
  {
    if |row| <= k then [] else row[k..]
  }

  /** `row[3:-1]`: drops three leading and one trailing column. */
  function TrimMetadata<T>(row: seq<T>): (r: seq<T>)
    ensures |r| == if |row| <= 4 then 0 else |row| - 4
    ensures forall i | 0 <= i < |r| :: r[i] == row[3 + i]
  {
    if |row| <= 4 then [] else row[3..|row| - 1]
  }

  predicate OccursAt(s: string, sep: string, k: nat) {
    k + |sep| <= |s| && s[k..k + |sep|] == sep
  }

  /** `sep` occurs at `k` and nowhere before. */
  predicate FirstOccurrence(s: string, sep: string, k: nat) {
    OccursAt(s, sep, k) && forall j: nat | j < k :: !OccursAt(s, sep, j)
  }

  /** The first occurrence of `sep` in `s` at or after position `i`. */
  function FindFrom(s: string, sep: string, i: nat): (r: Option<nat>)
    requires |sep| > 0
    ensures r.Some? ==> i <= r.value && OccursAt(s, sep, r.value)
    ensures forall k: nat | i <= k && (r.None? || k < r.value) :: !OccursAt(s, sep, k)
    decreases |s| - i
  {
    if i + |sep| > |s| then None
    else if s[i..i + |sep|] == sep then Some(i)
    else FindFrom(s, sep, i + 1)
  }

  /** `s.split(sep)[0]`: everything before the first `sep`. */
  function SplitFirst(s: string, sep: string): (r: string)
    requires |sep| > 0
    ensures |r| <= |s| && r == s[..|r|]
    ensures |r| < |s| ==> OccursAt(s, sep, |r|)
    ensures forall k: nat | k < |r| :: !OccursAt(s, sep, k)
  {
    match FindFrom(s, sep, 0)
    case None => s
    case Some(k) => s[..k]
  }

  /** `s.split(sep)[1]`: the text between the first and the second `sep`,
      that is `split(sep)[0]` of what follows the first `sep`; an IndexError
      when `sep` does not occur. */
  function SplitSecond(s: string, sep: string): (r: Result<string>)
    requires |sep| > 0
    ensures r.Err? <==> forall k: nat :: !OccursAt(s, sep, k)
    ensures r.Err? ==> r.error == IndexError
  {
    match FindFrom(s, sep, 0)
    case None => Err(IndexError)
    case Some(k) => Ok(SplitFirst(s[k + |sep|..], sep))
  }

  lemma SplitSecondFound(s: string, sep: string, k: nat)
    requires |sep| > 0 && FindFrom(s, sep, 0) == Some(k)
    ensures FirstOccurrence(s, sep, k)
    ensures SplitSecond(s, sep) == Ok(SplitFirst(s[k + |sep|..], sep))
  {
    assert FirstOccurrence(s, sep, k);
  }

  /** What `split(sep)[1]` holds: after the first occurrence `k` of `sep`,
      the text up to the next one (`split(sep)[0]` of the rest). */
  lemma SplitSecondMeaning(s: string, sep: string) returns (k: nat)
    requires |sep| > 0
    ensures SplitSecond(s, sep).Ok? ==> FirstOccurrence(s, sep, k)
    ensures SplitSecond(s, sep).Ok? ==> SplitSecond(s, sep).value == SplitFirst(s[k + |sep|..], sep)
  {
    var first := FindFrom(s, sep, 0);
    if first.Some? {
      k := first.value;
      SplitSecondFound(s, sep, k);
    } else {
      k := 0;
      assert SplitSecond(s, sep) == Err(IndexError);
    }
  }

  predicate Distinct<T(==)>(s: seq<T>) {
    forall i, j | 0 <= i < j < |s| :: s[i] != s[j]
  }

  /** `keys` lists the keys of `m` once each: the iteration order of a
      Python dictionary, which remembers the order of first insertion. */
  predicate ListsKeys<K, V>(keys: seq<K>, m: map<K, V>) {
    Distinct(keys) && (forall k | k in m :: k in keys) && (forall k | k in keys :: k in m)
  }

  /** `s.endswith(suffix)`. */
  predicate EndsWith(s: string, suffix: string) {
    |suffix| <= |s| && s[|s| - |suffix|..] == suffix
  }
}
