/** Character-level helpers shared by the puzzle parsers: the behaviour of nom's
    `digit1`, `tag` and `many0(char(..))` on complete input, and decimal values. */
module Text {
  import opened Wrappers

  predicate IsDigit(ch: char) { '0' <= ch <= '9' }

  /** `char::to_digit(10)` on an ASCII digit. */
  function DigitValue(ch: char): (d: nat)
    requires IsDigit(ch)
    ensures d < 10
  {
    ch as int - '0' as int
  }

  predicate AllDigits(s: string) { forall i :: 0 <= i < |s| ==> IsDigit(s[i]) }

  /** The value of a decimal digit string (`str::parse`), read most significant digit first. */
  function DecimalValue(ds: string): nat
    requires AllDigits(ds)
    decreases |ds|
  {
    if ds == [] then 0 else DecimalValue(ds[..|ds| - 1]) * 10 + DigitValue(ds[|ds| - 1])
  }

  /** nom's `digit1`: the longest non-empty run of leading digits, and the rest. */
  function Digit1(s: string): (r: Option<(string, string)>)
    ensures r.Some? <==> s != [] && IsDigit(s[0])
    ensures r.Some? ==> var (ds, rest) := r.value;
      ds != [] && AllDigits(ds) && s == ds + rest && (rest == [] || !IsDigit(rest[0]))
    decreases |s|
  {
    if s == [] || !IsDigit(s[0]) then None
    else match Digit1(s[1..])
      case None => Some(([s[0]], s[1..]))
      case Some((ds, rest)) => Some(([s[0]] + ds, rest))
  }

  /** Digit1 splits a digit run followed by a non-digit exactly there. */
  lemma {:induction false} Digit1Of(ds: string, rest: string)
    requires ds != [] && AllDigits(ds)
    requires rest == [] || !IsDigit(rest[0])
    ensures Digit1(ds + rest) == Some((ds, rest))
    decreases |ds|
  {
    assert (ds + rest)[0] == ds[0];
    assert (ds + rest)[1..] == ds[1..] + rest;
    if |ds| > 1 {
      Digit1Of(ds[1..], rest);
      assert [ds[0]] + ds[1..] == ds;
    } else {
      assert ds[1..] + rest == rest;
    }
  }

  /** nom's `tag(t)`: succeeds with the remaining input iff the input starts with `t`. */
  function Tag(t: string, s: string): (r: Option<string>)
    ensures r.Some? <==> t <= s
    ensures r.Some? ==> s == t + r.value
  {
    if t <= s then Some(s[|t|..]) else None
  }

  /** `many0(char(ch))`: drops every leading `ch`. */
  function SkipChar(ch: char, s: string): (r: string)
    ensures |r| <= |s| && forall i :: 0 <= i < |s| - |r| ==> s[i] == ch
    ensures r == [] || r[0] != ch
    decreases |s|
  {
    if s != [] && s[0] == ch then SkipChar(ch, s[1..]) else s
  }

  function Spaces(n: nat): (r: string)
    ensures |r| == n && forall i :: 0 <= i < n ==> r[i] == ' '
  {
    if n == 0 then [] else [' '] + Spaces(n - 1)
  }

  /** What SkipChar leaves is the tail of its input. */
  lemma {:induction false} SkipCharSuffix(ch: char, s: string)
    ensures SkipChar(ch, s) == s[|s| - |SkipChar(ch, s)|..]
    decreases |s|
  {
    if s != [] && s[0] == ch {
      SkipCharSuffix(ch, s[1..]);
      assert s[1..][|s| - 1 - |SkipChar(ch, s)|..] == s[|s| - |SkipChar(ch, s)|..];
    }
  }

  lemma SkipCharCons(ch: char, t: string)
    ensures SkipChar(ch, [ch] + t) == SkipChar(ch, t)
  {
    assert ([ch] + t)[1..] == t;
  }

  /** Skipping spaces after a run of exactly n spaces leaves what followed the run. */
  lemma {:induction false} SkipSpacesOf(n: nat, s: string)
    requires s == [] || s[0] != ' '
    ensures SkipChar(' ', Spaces(n) + s) == s
  {
    if n > 0 {
      var t := Spaces(n - 1) + s;
      assert Spaces(n) + s == [' '] + t;
      SkipCharCons(' ', t);
      SkipSpacesOf(n - 1, s);
    } else {
      assert Spaces(n) + s == s;
    }
  }

  /** A tag is accepted in front of anything, and leaves exactly what follows it. */
  lemma TagOf(t: string, x: string)
    ensures Tag(t, t + x) == Some(x)
  {
    assert (t + x)[..|t|] == t;
    assert (t + x)[|t|..] == x;
  }

  /** The decimal spelling of n, without leading zeros. */
  function Digits(n: nat): (r: string)
    ensures r != [] && AllDigits(r)
    decreases n
  {
    var last := ('0' as int + n % 10) as char;
    if n < 10 then [last] else Digits(n / 10) + [last]
  }

  /** Parsing a spelled number gives the number back. */
  lemma {:induction false} DigitsValue(n: nat)
    ensures DecimalValue(Digits(n)) == n
    decreases n
  {
    var ds := Digits(n);
    if n >= 10 {
      DigitsValue(n / 10);
      assert ds[..|ds| - 1] == Digits(n / 10);
    }
  }
}
