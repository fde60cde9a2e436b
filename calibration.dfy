/** Day 1, the calibration document: each line's value is its first digit followed by
    its last digit. Part 1 counts only the characters '0'..'9'; part 2 also counts the
    words "one" .. "nine", found with a lazy and a greedy regular expression whose `\d`
    matches every Unicode decimal digit, although only '0'..'9' then convert. */
module Calibration {
  import opened Wrappers
  import opened Text

  // ---------------------------------------------------------------------------------
  // Part 1
  // ---------------------------------------------------------------------------------

  /** `chars().find_map(|c| c.to_digit(10))`: the first digit of the line. */
  function FirstDigit(s: string): (r: Option<nat>)
    ensures r.None? <==> forall i :: 0 <= i < |s| ==> !IsDigit(s[i])
    ensures r.Some? ==> r.value < 10
    decreases |s|
  {
    if s == [] then None
    else if IsDigit(s[0]) then Some(DigitValue(s[0]))
    else FirstDigit(s[1..])
  }

  /** `chars().rev().find_map(|c| c.to_digit(10))`: the last digit of the line. */
  function LastDigit(s: string): (r: Option<nat>)
    ensures r.None? <==> forall i :: 0 <= i < |s| ==> !IsDigit(s[i])
    ensures r.Some? ==> r.value < 10
    decreases |s|
  {
    if s == [] then None
    else if IsDigit(s[|s| - 1]) then Some(DigitValue(s[|s| - 1]))
    else LastDigit(s[..|s| - 1])
  }

  /** Position i holds the line's first digit. */
  predicate Leftmost(s: string, i: int)
  {
    0 <= i < |s| && IsDigit(s[i]) && forall j :: 0 <= j < i ==> !IsDigit(s[j])
  }

  /** Position i holds the line's last digit. */
  predicate Rightmost(s: string, i: int)
  {
    0 <= i < |s| && IsDigit(s[i]) && forall j :: i < j < |s| ==> !IsDigit(s[j])
  }

  /** FirstDigit is the value of the leftmost digit. */
  lemma {:induction false} FirstDigitIs(s: string, i: int)
    requires Leftmost(s, i)
    ensures FirstDigit(s) == Some(DigitValue(s[i]))
    decreases i
  {
    if i > 0 {
      FirstDigitIs(s[1..], i - 1);
    }
  }

  /** LastDigit is the value of the rightmost digit. */
  lemma {:induction false} LastDigitIs(s: string, i: int)
    requires Rightmost(s, i)
    ensures LastDigit(s) == Some(DigitValue(s[i]))
    decreases |s|
  {
    if i < |s| - 1 {
      LastDigitIs(s[..|s| - 1], i);
    }
  }

  /** The value `part1` adds for a line: ten times the first digit plus the last;
      `None` for a line without digits, where the `unwrap` panics. */
  function LineValue(s: string): (r: Option<nat>)
    ensures r.None? <==> forall i :: 0 <= i < |s| ==> !IsDigit(s[i])
    ensures r.Some? ==> r.value < 100
  {
    match FirstDigit(s)
    case None => None
    case Some(n) =>
      match LastDigit(s)
      case None => None
      case Some(m) => Some(10 * n + m)
  }

  /** A line's value is made of its leftmost and its rightmost digit. */
  lemma LineValueIs(s: string, i: int, j: int)
    requires Leftmost(s, i) && Rightmost(s, j)
    ensures LineValue(s) == Some(10 * DigitValue(s[i]) + DigitValue(s[j]))
  {
    FirstDigitIs(s, i);
    LastDigitIs(s, j);
  }

  /** A line with one digit uses it twice. */
  lemma SingleDigit(s: string, i: int)
    requires 0 <= i < |s| && IsDigit(s[i])
    requires forall j :: 0 <= j < |s| && j != i ==> !IsDigit(s[j])
    ensures LineValue(s) == Some(11 * DigitValue(s[i]))
  {
    LineValueIs(s, i, i);
  }

  /** The `fold`: the sum of the values, `None` as soon as one line has none. */
  function Total(vs: seq<Option<nat>>): (r: Option<nat>)
    ensures r.Some? <==> forall i :: 0 <= i < |vs| ==> vs[i].Some?
    decreases |vs|
  {
    if vs == [] then Some(0)
    else
      var front := Total(vs[..|vs| - 1]);
      var last := vs[|vs| - 1];
      if front.None? || last.None? then None else Some(front.value + last.value)
  }

  /** With every value below 100, the sum stays within 99 per line. */
  lemma {:induction false} TotalBound(vs: seq<Option<nat>>)
    requires forall i :: 0 <= i < |vs| && vs[i].Some? ==> vs[i].value < 100
    ensures Total(vs).Some? ==> Total(vs).value <= 99 * |vs|
    decreases |vs|
  {
    if vs != [] {
      TotalBound(vs[..|vs| - 1]);
    }
  }

  /** `part1`: the sum of the lines' values. */
  function Part1(lines: seq<string>): (r: Option<nat>)
    ensures r.Some? <==> forall i :: 0 <= i < |lines| ==> LineValue(lines[i]).Some?
    ensures r.Some? ==> r.value <= 99 * |lines|
  {
    var vs := seq(|lines|, i requires 0 <= i < |lines| => LineValue(lines[i]));
    assert forall i :: 0 <= i < |lines| ==> vs[i] == LineValue(lines[i]);
    TotalBound(vs);
    Total(vs)
  }

  // ---------------------------------------------------------------------------------
  // Part 2
  // ---------------------------------------------------------------------------------

  /** The number of blocks of ten decimal digits outside ASCII. */
  const OtherDecimalBlocks := 67

  /** The first code point of the k-th block of ten decimal digits outside ASCII: the
      blocks that make up the general category Nd of Unicode 15.0 besides '0'..'9', all
      of which `\d` of the `regex` crate matches. */
  function BlockStart(k: nat): int
    requires k < OtherDecimalBlocks
  {
    match k
    case 0 => 0x0660 case 1 => 0x06F0 case 2 => 0x07C0 case 3 => 0x0966 case 4 => 0x09E6
    case 5 => 0x0A66 case 6 => 0x0AE6 case 7 => 0x0B66 case 8 => 0x0BE6 case 9 => 0x0C66
    case 10 => 0x0CE6 case 11 => 0x0D66 case 12 => 0x0DE6 case 13 => 0x0E50
    case 14 => 0x0ED0 case 15 => 0x0F20 case 16 => 0x1040 case 17 => 0x1090
    case 18 => 0x17E0 case 19 => 0x1810 case 20 => 0x1946 case 21 => 0x19D0
    case 22 => 0x1A80 case 23 => 0x1A90 case 24 => 0x1B50 case 25 => 0x1BB0
    case 26 => 0x1C40 case 27 => 0x1C50 case 28 => 0xA620 case 29 => 0xA8D0
    case 30 => 0xA900 case 31 => 0xA9D0 case 32 => 0xA9F0 case 33 => 0xAA50
    case 34 => 0xABF0 case 35 => 0xFF10 case 36 => 0x104A0 case 37 => 0x10D30
    case 38 => 0x11066 case 39 => 0x110F0 case 40 => 0x11136 case 41 => 0x111D0
    case 42 => 0x112F0 case 43 => 0x11450 case 44 => 0x114D0 case 45 => 0x11650
    case 46 => 0x116C0 case 47 => 0x11730 case 48 => 0x118E0 case 49 => 0x11950
    case 50 => 0x11C50 case 51 => 0x11D50 case 52 => 0x11DA0 case 53 => 0x11F50
    case 54 => 0x16A60 case 55 => 0x16AC0 case 56 => 0x16B50 case 57 => 0x1D7CE
    case 58 => 0x1D7D8 case 59 => 0x1D7E2 case 60 => 0x1D7EC case 61 => 0x1D7F6
    case 62 => 0x1E140 case 63 => 0x1E2F0 case 64 => 0x1E4F0 case 65 => 0x1E950
    case _ => 0x1FBF0
  }

  /** n lies in one of the blocks from the k-th on. */
  predicate InBlocks(n: int, k: nat)
    decreases OtherDecimalBlocks - k
  {
    k < OtherDecimalBlocks && (BlockStart(k) <= n < BlockStart(k) + 10 || InBlocks(n, k + 1))
  }

  /** A decimal digit outside ASCII, such as the Arabic-Indic digits U+0660 .. U+0669. */
  predicate IsOtherDecimal(c: char)
  {
    0x0660 <= c as int && InBlocks(c as int, 0)
  }

  /** The class `\d`: any decimal digit of Unicode. */
  predicate IsDecimal(c: char)
  {
    IsDigit(c) || IsOtherDecimal(c)
  }

  /** `NUM_WORDS`: the word at index i stands for i + 1. */
  const NumWords: seq<string> :=
    ["one", "two", "three", "four", "five", "six", "seven", "eight", "nine"]

  /** `NUM_WORDS.iter().enumerate().find_map(..)` from index k: the value of the word
      the capture equals. */
  function WordValue(cap: string, k: nat): (r: Option<nat>)
    requires k <= |NumWords|
    ensures r.Some? ==> k < r.value <= |NumWords| && cap == NumWords[r.value - 1]
    ensures r.None? <==> forall j :: k <= j < |NumWords| ==> cap != NumWords[j]
    decreases |NumWords| - k
  {
    if k == |NumWords| then None
    else if cap == NumWords[k] then Some(k + 1)
    else WordValue(cap, k + 1)
  }

  /** The conversion in `match_dig`: a number word's value, or else the value of the
      capture's first character as a digit. */
  function CaptureValue(cap: string): (r: Option<nat>)
  {
    match WordValue(cap, 0)
    case Some(v) => Some(v)
    case None => if cap != [] && IsDigit(cap[0]) then Some(DigitValue(cap[0])) else None
  }

  /** The number words are told apart by their first two letters. */
  lemma WordsDistinct(i: nat, j: nat)
    requires i < j < |NumWords|
    ensures NumWords[i] != NumWords[j]
  {
    var heads := ["on", "tw", "th", "fo", "fi", "si", "se", "ei", "ni"];
    assert forall t :: 0 <= t < |NumWords| ==> NumWords[t][..2] == heads[t];
    assert heads[i] != heads[j];
  }

  /** Every number word converts to its place in the table, plus one. */
  lemma WordValues(k: nat)
    requires k < |NumWords|
    ensures CaptureValue(NumWords[k]) == Some(k + 1)
  {
    var m := WordValue(NumWords[k], 0).value - 1;
    if m < k {
      WordsDistinct(m, k);
    } else if k < m {
      WordsDistinct(k, m);
    }
  }

  /** A captured decimal digit outside ASCII does not convert: `to_digit(10)` answers
      `None` for it. */
  lemma OtherDecimalCapture(d: char)
    requires IsOtherDecimal(d)
    ensures CaptureValue([d]).None?
  {
    assert forall j :: 0 <= j < |NumWords| ==> |NumWords[j]| >= 3;
  }

  /** A captured ASCII digit converts with `to_digit(10)`. */
  lemma DigitCapture(d: char)
    requires IsDigit(d)
    ensures CaptureValue([d]) == Some(DigitValue(d))
  {
    assert forall j :: 0 <= j < |NumWords| ==> |NumWords[j]| >= 3;
  }

  /** The word alternatives of `\d|one|two|...|nine` tried at position p, in order. */
  function WordAt(s: string, p: nat, k: nat): Option<string>
    requires p <= |s| && k <= |NumWords|
    decreases |NumWords| - k
  {
    if k == |NumWords| then None
    else if NumWords[k] <= s[p..] then Some(NumWords[k])
    else WordAt(s, p, k + 1)
  }

  /** WordAt finds the first word from index k that starts at p, and finds nothing
      exactly when no such word starts there. */
  lemma {:induction false} WordAtIs(s: string, p: nat, k: nat)
    requires p <= |s| && k <= |NumWords|
    ensures WordAt(s, p, k).Some? ==> exists j :: k <= j < |NumWords| && WordAt(s, p, k).value == NumWords[j]
    ensures WordAt(s, p, k).Some? ==> WordAt(s, p, k).value <= s[p..]
    ensures WordAt(s, p, k).None? <==> forall j :: k <= j < |NumWords| ==> !(NumWords[j] <= s[p..])
    decreases |NumWords| - k
  {
    if k < |NumWords| && !(NumWords[k] <= s[p..]) {
      WordAtIs(s, p, k + 1);
    }
  }

  /** The text the group `(\d|one|...|nine)` captures when it matches at position p:
      the leftmost-first alternation tries the class `\d`, then the words in order. */
  function CaptureAt(s: string, p: nat): Option<string>
    requires p <= |s|
  {
    if p < |s| && IsDecimal(s[p]) then Some([s[p]]) else WordAt(s, p, 0)
  }

  /** The group matches at position p. */
  predicate Occurs(s: string, p: nat)
  {
    p <= |s| && CaptureAt(s, p).Some?
  }

  /** The group matches where a decimal digit is or a number word starts, and captures
      the digit or the first such word. */
  lemma OccursIff(s: string, p: nat)
    requires p <= |s|
    ensures Occurs(s, p) <==>
      (p < |s| && IsDecimal(s[p])) || exists j :: 0 <= j < |NumWords| && NumWords[j] <= s[p..]
    ensures Occurs(s, p) ==>
      (p < |s| && IsDecimal(s[p]) && CaptureAt(s, p).value == [s[p]]) ||
      exists j :: 0 <= j < |NumWords| && CaptureAt(s, p).value == NumWords[j]
  {
    WordAtIs(s, p, 0);
  }

  /** Whether the group matches at each position 0 .. |s| of the line. */
  function Hits(s: string): (h: seq<bool>)
    ensures |h| == |s| + 1
  {
    seq(|s| + 1, p requires 0 <= p <= |s| => CaptureAt(s, p).Some?)
  }

  /** Hits records, position by position, whether the group matches. */
  lemma HitsOccurs(s: string)
    ensures forall p :: 0 <= p <= |s| ==> Hits(s)[p] == Occurs(s, p)
  {
  }

  /** `^.*?(..).*$`: the lazy prefix grows from p until the group matches, so the group
      is taken at the first position where it matches. */
  function FirstHit(h: seq<bool>, p: nat): (r: Option<nat>)
    requires p <= |h|
    ensures r.Some? ==> p <= r.value < |h| && h[r.value]
    ensures r.Some? ==> forall q :: p <= q < r.value ==> !h[q]
    ensures r.None? ==> forall q :: p <= q < |h| ==> !h[q]
    decreases |h| - p
  {
    if p == |h| then None
    else if h[p] then Some(p)
    else FirstHit(h, p + 1)
  }

  /** `^.*(..).*?$`: the greedy prefix shrinks from the end until the group matches,
      so the group is taken at the last position below n where it matches. */
  function LastHit(h: seq<bool>, n: nat): (r: Option<nat>)
    requires n <= |h|
    ensures r.Some? ==> r.value < n && h[r.value]
    ensures r.Some? ==> forall q :: r.value < q < n ==> !h[q]
    ensures r.None? ==> forall q :: 0 <= q < n ==> !h[q]
    decreases n
  {
    if n == 0 then None
    else if h[n - 1] then Some(n - 1)
    else LastHit(h, n - 1)
  }

  /** The lazy scan from p stops at the first true position. */
  lemma {:induction false} FirstHitIs(h: seq<bool>, p: nat, f: nat)
    requires p <= f < |h| && h[f] && forall r :: p <= r < f ==> !h[r]
    ensures FirstHit(h, p) == Some(f)
    decreases f - p
  {
    if p < f {
      FirstHitIs(h, p + 1, f);
    }
  }

  /** The greedy scan below n stops at the last true position. */
  lemma {:induction false} LastHitIs(h: seq<bool>, n: nat, b: nat)
    requires b < n <= |h| && h[b] && forall r :: b < r < n ==> !h[r]
    ensures LastHit(h, n) == Some(b)
    decreases n
  {
    if b < n - 1 {
      LastHitIs(h, n - 1, b);
    }
  }

  /** `match_dig`: the value of the capture at the position a scan found; `None` where
      the regular expression does not match the line and `unwrap` panics. */
  function MatchDig(s: string, at: Option<nat>): (r: Option<nat>)
    requires at.Some? ==> at.value <= |s|
  {
    match at
    case None => None
    case Some(p) =>
      match CaptureAt(s, p)
      case None => None
      case Some(cap) => CaptureValue(cap)
  }

  /** The value `part2` adds for a line: ten times the value found by the front
      expression plus the value found by the back one. */
  function LineValue2(s: string): (r: Option<nat>)
  {
    var h := Hits(s);
    match MatchDig(s, FirstHit(h, 0))
    case None => None
    case Some(n) =>
      match MatchDig(s, LastHit(h, |h|))
      case None => None
      case Some(m) => Some(10 * n + m)
  }

  /** A capture found by a scan converts, to a value from 0 to 9, unless it is a decimal
      digit outside ASCII, which `to_digit(10)` rejects and `unwrap` panics on. */
  lemma CaptureConverts(s: string, p: nat)
    requires Occurs(s, p)
    ensures MatchDig(s, Some(p)).Some? <==> !OtherDecimalAt(s, p)
    ensures MatchDig(s, Some(p)).Some? ==> MatchDig(s, Some(p)).value < 10
  {
    var cap := CaptureAt(s, p).value;
    OccursIff(s, p);
    if p < |s| && IsDigit(s[p]) {
      DigitCapture(s[p]);
    } else if p < |s| && IsOtherDecimal(s[p]) {
      OtherDecimalCapture(s[p]);
    } else {
      var k :| 0 <= k < |NumWords| && NumWords[k] == cap;
      WordValues(k);
    }
  }

  /** Position q holds a decimal digit outside ASCII. */
  predicate OtherDecimalAt(s: string, q: nat)
  {
    q < |s| && IsOtherDecimal(s[q])
  }

  /** The line holds no decimal digit outside ASCII. */
  predicate NoOtherDecimals(s: string)
  {
    forall i :: 0 <= i < |s| ==> !IsOtherDecimal(s[i])
  }

  /** The group matches at q and nowhere before. */
  predicate FirstOccurrence(s: string, q: nat)
  {
    Occurs(s, q) && forall r :: 0 <= r < q ==> !Occurs(s, r)
  }

  /** The group matches at q and nowhere after. */
  predicate LastOccurrence(s: string, q: nat)
  {
    Occurs(s, q) && forall r :: q < r <= |s| ==> !Occurs(s, r)
  }

  /** Part 2's line value: present exactly when the group matches somewhere and neither
      its first nor its last match is a decimal digit outside ASCII (otherwise an
      `unwrap` panics), and below 100. On a line without such digits, `None` exactly
      when neither a digit nor a number word occurs. */
  lemma LineValue2Range(s: string)
    ensures LineValue2(s).Some? <==>
      (exists q :: 0 <= q <= |s| && Occurs(s, q)) &&
      (forall q: nat :: FirstOccurrence(s, q) ==> !OtherDecimalAt(s, q)) &&
      (forall q: nat :: LastOccurrence(s, q) ==> !OtherDecimalAt(s, q))
    ensures NoOtherDecimals(s) ==>
      (LineValue2(s).None? <==> forall q :: 0 <= q <= |s| ==> !Occurs(s, q))
    ensures LineValue2(s).Some? ==> LineValue2(s).value < 100
  {
    var h := Hits(s);
    assert forall q :: 0 <= q <= |s| ==> h[q] == Occurs(s, q);
    var front, back := FirstHit(h, 0), LastHit(h, |h|);
    if front.Some? {
      var f, b := front.value, back.value;
      assert FirstOccurrence(s, f);
      assert LastOccurrence(s, b);
      assert forall q: nat :: FirstOccurrence(s, q) ==> q == f;
      assert forall q: nat :: LastOccurrence(s, q) ==> q == b;
      CaptureConverts(s, f);
      CaptureConverts(s, b);
    }
  }

  /** Part 2 reads a line's value from the group's first and its last match. */
  lemma LineValue2At(s: string, f: nat, b: nat)
    requires FirstOccurrence(s, f) && LastOccurrence(s, b)
    ensures LineValue2(s) ==
      if MatchDig(s, Some(f)).None? || MatchDig(s, Some(b)).None? then None
      else Some(10 * MatchDig(s, Some(f)).value + MatchDig(s, Some(b)).value)
  {
    FrontScan(s, f);
    BackScan(s, b);
  }

  /** The front expression's scan stops at the group's first match. */
  lemma FrontScan(s: string, f: nat)
    requires FirstOccurrence(s, f)
    ensures FirstHit(Hits(s), 0) == Some(f)
  {
    var h := Hits(s);
    HitsOccurs(s);
    assert h[f] && forall r :: 0 <= r < f ==> !h[r];
    FirstHitIs(h, 0, f);
  }

  /** The back expression's scan stops at the group's last match. */
  lemma BackScan(s: string, b: nat)
    requires LastOccurrence(s, b)
    ensures LastHit(Hits(s), |s| + 1) == Some(b)
  {
    var h := Hits(s);
    HitsOccurs(s);
    assert h[b] && forall r :: b < r < |h| ==> !h[r];
    LastHitIs(h, |h|, b);
  }

  /** No number word starts anywhere in the line. */
  predicate NoWords(s: string)
  {
    forall p :: 0 <= p <= |s| ==> WordAt(s, p, 0).None?
  }

  /** Without number words and decimal digits outside ASCII, the group matches exactly
      at the ASCII digits. */
  lemma OnlyDigits(s: string)
    requires NoWords(s) && NoOtherDecimals(s)
    ensures forall q :: 0 <= q <= |s| ==> (Occurs(s, q) <==> q < |s| && IsDigit(s[q]))
  {
  }

  /** Where the hits are exactly the digits, the first hit is the first digit and the
      last hit the last digit. */
  lemma HitsAreDigits(h: seq<bool>, s: string)
    requires |h| == |s| + 1
    requires forall q :: 0 <= q <= |s| ==> (h[q] <==> q < |s| && IsDigit(s[q]))
    ensures FirstHit(h, 0).Some? ==> Leftmost(s, FirstHit(h, 0).value)
    ensures FirstHit(h, 0).None? ==> forall q :: 0 <= q < |s| ==> !IsDigit(s[q])
    ensures LastHit(h, |h|).Some? ==> Rightmost(s, LastHit(h, |h|).value)
    ensures FirstHit(h, 0).Some? <==> LastHit(h, |h|).Some?
  {
  }

  /** A digit at position i is captured and read as that digit. */
  lemma DigitMatch(s: string, i: nat)
    requires i < |s| && IsDigit(s[i])
    ensures MatchDig(s, Some(i)) == Some(DigitValue(s[i]))
  {
    DigitCapture(s[i]);
  }

  /** Without number words and decimal digits outside ASCII, a line is read by part 2 as
      by part 1. */
  lemma NoWordsAgree(s: string)
    requires NoWords(s) && NoOtherDecimals(s)
    ensures LineValue2(s) == LineValue(s)
  {
    OnlyDigits(s);
    var h := Hits(s);
    HitsAreDigits(h, s);
    var front, back := FirstHit(h, 0), LastHit(h, |h|);
    if front.Some? {
      var i, j := front.value, back.value;
      LineValueIs(s, i, j);
      DigitMatch(s, i);
      DigitMatch(s, j);
      assert LineValue2(s) == Some(10 * DigitValue(s[i]) + DigitValue(s[j]));
    } else {
      assert LineValue(s) == None;
    }
  }

  /** The group does not match where fewer letters are left than any word has and no
      digit stands. */
  lemma ShortTail(s: string, p: nat)
    requires p <= |s| && |s| - p < 3
    requires p < |s| ==> !IsDecimal(s[p])
    ensures !Occurs(s, p)
  {
    WordAtIs(s, p, 0);
    assert forall j :: 0 <= j < |NumWords| ==> |NumWords[j]| >= 3;
  }

  /** In "twone" the group captures "two" at 0 and "one" at 2 but nothing at 1. */
  lemma TwoneHits()
    ensures CaptureAt("twone", 0) == Some("two")
    ensures CaptureAt("twone", 2) == Some("one")
    ensures !Occurs("twone", 1)
  {
    var s := "twone";
    assert s[0] == 't' && s[1] == 'w' && s[2] == 'o';
    assert NumWords[1] == s[0..3] && NumWords[0] == s[2..5];
  }

  /** In "twone" the group matches first at 0 and last at 2. */
  lemma TwoneEnds()
    ensures FirstOccurrence("twone", 0) && LastOccurrence("twone", 2)
  {
    var s := "twone";
    TwoneHits();
    assert s[3] == 'n' && s[4] == 'e';
    ShortTail(s, 3);
    ShortTail(s, 4);
    ShortTail(s, 5);
  }

  /** The captures of "twone" at 0 and 2 read as 2 and 1. */
  lemma TwoneValues()
    ensures MatchDig("twone", Some(0)) == Some(2) && MatchDig("twone", Some(2)) == Some(1)
  {
    TwoneHits();
    WordValues(1);
    WordValues(0);
  }

  /** Overlapping words: the front expression takes "two", the back one "one", the
      word that starts last. */
  lemma Overlap()
    ensures LineValue2("twone") == Some(21)
  {
    TwoneEnds();
    TwoneValues();
    LineValue2At("twone", 0, 2);
  }

  /** An Arabic-Indic three before a '1': part 1 reads 11, while part 2's front
      expression captures the Arabic-Indic digit, which `to_digit(10)` rejects. */
  lemma OtherDecimalDiffers()
    ensures LineValue("\U{0663}1") == Some(11)
    ensures LineValue2("\U{0663}1") == None
  {
    var s := "\U{0663}1";
    assert s[0] == '\U{0663}' && s[1] == '1';
    assert InBlocks(0x0663, 0);
    assert CaptureAt(s, 0) == Some([s[0]]);
    OtherDecimalCapture(s[0]);
    LineValueIs(s, 1, 1);
  }

  /** `part2`: the sum of the lines' values. */
  function Part2(lines: seq<string>): (r: Option<nat>)
    ensures r.Some? <==> forall i :: 0 <= i < |lines| ==> LineValue2(lines[i]).Some?
    ensures r.Some? ==> r.value <= 99 * |lines|
  {
    var vs := seq(|lines|, i requires 0 <= i < |lines| => LineValue2(lines[i]));
    assert forall i :: 0 <= i < |lines| ==> vs[i] == LineValue2(lines[i]);
    forall i | 0 <= i < |lines| {
      LineValue2Range(lines[i]);
    }
    TotalBound(vs);
    Total(vs)
  }
}
