/** Day 4: scratchcards. A card lists winning numbers and the numbers you have; both
    lists are sorted and walked together to count the numbers you have that win. */
module Scratchcards {
  import opened Wrappers
  import opened Text
  import opened Sorting

  /** The key `sort()` orders `u32` values by. */
  function NatKey(n: nat): nat { n }

  // ---------------------------------------------------------------- parsing

  /** `parse_num`: skips leading spaces, then reads one run of decimal digits. */
  function ParseNum(s: string): (r: Option<(nat, string)>)
    ensures r.Some? <==> SkipChar(' ', s) != [] && IsDigit(SkipChar(' ', s)[0])
    ensures r.Some? ==> |r.value.1| < |s|
  {
    match Digit1(SkipChar(' ', s))
    case None => None
    case Some((ds, rest)) => Some((DecimalValue(ds), rest))
  }

  /** A number preceded by k spaces and followed by a non-digit is read back whole. */
  lemma ParseNumOf(k: nat, ds: string, rest: string)
    requires ds != [] && AllDigits(ds)
    requires rest == [] || !IsDigit(rest[0])
    ensures ParseNum(Spaces(k) + ds + rest) == Some((DecimalValue(ds), rest))
  {
    var tail := ds + rest;
    assert Spaces(k) + ds + rest == Spaces(k) + tail by {
      AppendAssoc(Spaces(k), ds, rest);
    }
    assert tail[0] == ds[0];
    SkipSpacesOf(k, tail);
    Digit1Of(ds, rest);
    ParseNumStep(Spaces(k) + tail, tail, ds, rest);
  }

  /** Concatenation of three strings regroups to the right. */
  lemma AppendAssoc(a: string, b: string, c: string)
    ensures a + b + c == a + (b + c)
  {
  }

  /** `parse_num` reads the digit run that follows the skipped spaces. */
  lemma ParseNumStep(s: string, t: string, ds: string, rest: string)
    requires SkipChar(' ', s) == t && Digit1(t) == Some((ds, rest))
    ensures ParseNum(s) == Some((DecimalValue(ds), rest))
  {
  }

  /** `many0(parse_num)`: numbers until `parse_num` fails, and the input it failed on. */
  function Many0Nums(s: string): (r: (seq<nat>, string))
    ensures |r.1| <= |s|
    decreases |s|
  {
    match ParseNum(s)
    case None => ([], s)
    case Some((n, rest)) =>
      var (ns, tail) := Many0Nums(rest);
      ([n] + ns, tail)
  }

  /** `many1(parse_num)`: as `many0`, but at least one number must be read. */
  function ManyNums(s: string): (r: Option<(seq<nat>, string)>)
    ensures r.Some? <==> ParseNum(s).Some?
    ensures r.Some? ==> r.value.0 != []
  {
    var (ns, rest) := Many0Nums(s);
    if ns == [] then None else Some((ns, rest))
  }

  /** Input that `parse_num` cannot start on: after any spaces, no digit. */
  predicate NoNumber(s: string)
  {
    SkipChar(' ', s) == [] || !IsDigit(SkipChar(' ', s)[0])
  }

  /** A list of numbers as written: each item is a count of leading spaces and a digit
      run. Items after the first are separated by at least one space. */
  predicate Layout(items: seq<(nat, string)>)
  {
    forall i :: 0 <= i < |items| ==>
      items[i].1 != [] && AllDigits(items[i].1) && (i > 0 ==> items[i].0 > 0)
  }

  function Join(items: seq<(nat, string)>): string
  {
    if items == [] then [] else Spaces(items[0].0) + items[0].1 + Join(items[1..])
  }

  function Values(items: seq<(nat, string)>): (r: seq<nat>)
    requires Layout(items)
    ensures |r| == |items|
  {
    if items == [] then [] else [DecimalValue(items[0].1)] + Values(items[1..])
  }

  /** `many0(parse_num)` reads back exactly the numbers of a laid-out list. */
  lemma {:induction false} Many0NumsOf(items: seq<(nat, string)>, rest: string)
    requires Layout(items) && NoNumber(rest)
    ensures Many0Nums(Join(items) + rest) == (Values(items), rest)
    decreases |items|
  {
    if items == [] {
      assert Join(items) + rest == rest;
    } else {
      var (k, ds) := items[0];
      var tail := items[1..];
      var next := Join(tail) + rest;
      assert Layout(tail) by {
        forall i | 0 <= i < |tail| ensures tail[i] == items[i + 1] { }
      }
      assert next == [] || !IsDigit(next[0]) by {
        if tail != [] {
          assert tail[0].0 > 0;
          assert next[0] == ' ';
        } else {
          assert next == rest;
          assert rest != [] && IsDigit(rest[0]) ==> SkipChar(' ', rest) == rest;
        }
      }
      assert Join(items) + rest == Spaces(k) + ds + next by {
        AppendAssoc(Spaces(k) + ds, Join(tail), rest);
      }
      ParseNumOf(k, ds, next);
      Many0NumsOf(tail, rest);
      Many0NumsStep(Join(items) + rest, DecimalValue(ds), next);
    }
  }

  /** `many0` keeps the number `parse_num` reads and goes on after it. */
  lemma Many0NumsStep(s: string, n: nat, rest: string)
    requires ParseNum(s) == Some((n, rest))
    ensures Many0Nums(s) == ([n] + Many0Nums(rest).0, Many0Nums(rest).1)
  {
  }

  /** `many1(parse_num)` reads back exactly the numbers of a non-empty laid-out list. */
  lemma ManyNumsOf(items: seq<(nat, string)>, rest: string)
    requires items != [] && Layout(items) && NoNumber(rest)
    ensures ManyNums(Join(items) + rest) == Some((Values(items), rest))
  {
    Many0NumsOf(items, rest);
  }

  /** `take_until(":")` followed by `tag(":")`: what follows the first `:`, or `None`. */
  function SkipPast(ch: char, s: string): (r: Option<string>)
    ensures r.Some? <==> ch in s
    ensures r.Some? ==> exists i :: 0 <= i < |s| && s[i] == ch && ch !in s[..i] && r.value == s[i + 1..]
    decreases |s|
  {
    if s == [] then None
    else if s[0] == ch then
      assert s[..0] == [];
      Some(s[1..])
    else
      match SkipPast(ch, s[1..])
      case None => None
      case Some(rest) =>
        assert forall i :: 0 <= i < |s| - 1 ==> s[1..][..i] == s[1..i + 1] && s[..i + 1] == [s[0]] + s[1..i + 1];
        Some(rest)
  }

  /** The two lists after the card header: winning numbers, `" | "`, your numbers. */
  function NumberLists(s: string): (r: Option<(seq<nat>, seq<nat>, string)>)
    ensures r.Some? ==> r.value.0 != [] && r.value.1 != []
  {
    match ManyNums(s)
    case None => None
    case Some((winning, s1)) =>
      match Tag(" | ", s1)
      case None => None
      case Some(s2) =>
        match ManyNums(s2)
        case None => None
        case Some((mine, rest)) => Some((winning, mine, rest))
  }

  lemma NumberListsStep(s: string, winning: seq<nat>, s1: string, s2: string,
                        mine: seq<nat>, rest: string)
    requires ManyNums(s) == Some((winning, s1)) && Tag(" | ", s1) == Some(s2)
    requires ManyNums(s2) == Some((mine, rest))
    ensures NumberLists(s) == Some((winning, mine, rest))
  {
  }

  /** The separator stops the first list and is what `tag(" | ")` consumes. */
  lemma Separator(after: string)
    ensures NoNumber(" | " + after) && Tag(" | ", " | " + after) == Some(after)
  {
    var bar := " | " + after;
    assert bar == [' '] + ("| " + after);
    SkipCharCons(' ', "| " + after);
    assert bar[3..] == after;
  }

  /** Concatenation of four strings regroups to the right. */
  lemma Regroup(a: string, b: string, c: string, d: string)
    ensures a + b + c + d == a + (b + (c + d))
  {
  }

  /** The two lists as written are read back: numbers, `" | "`, numbers. */
  lemma NumberListsOf(winning: seq<(nat, string)>, mine: seq<(nat, string)>, rest: string)
    requires winning != [] && Layout(winning) && mine != [] && Layout(mine) && NoNumber(rest)
    ensures NumberLists(Join(winning) + " | " + Join(mine) + rest) ==
      Some((Values(winning), Values(mine), rest))
  {
    var after := Join(mine) + rest;
    var bar := " | " + after;
    var line := Join(winning) + bar;
    assert Join(winning) + " | " + Join(mine) + rest == line by {
      Regroup(Join(winning), " | ", Join(mine), rest);
    }
    Separator(after);
    ManyNumsOf(winning, bar);
    ManyNumsOf(mine, rest);
    NumberListsStep(line, Values(winning), bar, after, Values(mine), rest);
  }

  // ---------------------------------------------------------------- the walk

  /** How many entries of `mine`, counted with repetition, occur among `winning`. */
  function Matching(winning: seq<nat>, mine: seq<nat>): nat
  {
    if mine == [] then 0 else (if mine[0] in winning then 1 else 0) + Matching(winning, mine[1..])
  }

  /** `count_matches`: walks both sorted lists, dropping the smaller head; on equal heads
      only `mine` advances and the count goes up. */
  function CountMatches(winning: seq<nat>, mine: seq<nat>, matches: nat): (r: nat)
    ensures r >= matches
    decreases |winning| + |mine|
  {
    if winning == [] || mine == [] then matches
    else if winning[0] > mine[0] then CountMatches(winning, mine[1..], matches)
    else if winning[0] < mine[0] then CountMatches(winning[1..], mine, matches)
    else CountMatches(winning, mine[1..], matches + 1)
  }

  /** `calc_score`: the same walk, with points going 0, 1, 2, 4, ... on each match. */
  function CalcScore(winning: seq<nat>, mine: seq<nat>, points: nat): nat
    decreases |winning| + |mine|
  {
    if winning == [] || mine == [] then points
    else if winning[0] > mine[0] then CalcScore(winning, mine[1..], points)
    else if winning[0] < mine[0] then CalcScore(winning[1..], mine, points)
    else CalcScore(winning, mine[1..], if points == 0 then 1 else points * 2)
  }

  function Pow2(k: nat): (r: nat)
    ensures r >= 1
  {
    if k == 0 then 1 else 2 * Pow2(k - 1)
  }

  /** The points of a card with k matches: none for no match, 2^(k-1) otherwise. */
  function Score(k: nat): nat
  {
    if k == 0 then 0 else Pow2(k - 1)
  }

  /** One more match: the first gives a point, later ones double the points. */
  lemma ScoreNext(k: nat)
    ensures Score(k + 1) == if Score(k) == 0 then 1 else Score(k) * 2
  {
    if k > 0 {
      assert Score(k + 1) == Pow2(k) == 2 * Pow2(k - 1);
    }
  }

  /** The score walk is the count walk followed by `Score`, on any input. */
  lemma {:induction false} CalcScoreIsScore(winning: seq<nat>, mine: seq<nat>, k: nat)
    ensures CalcScore(winning, mine, Score(k)) == Score(CountMatches(winning, mine, k))
    decreases |winning| + |mine|
  {
    if winning == [] || mine == [] {
    } else if winning[0] > mine[0] {
      CalcScoreIsScore(winning, mine[1..], k);
    } else if winning[0] < mine[0] {
      CalcScoreIsScore(winning[1..], mine, k);
    } else {
      ScoreNext(k);
      CalcScoreIsScore(winning, mine[1..], k + 1);
    }
  }

  lemma {:induction false} MatchingAppend(winning: seq<nat>, a: seq<nat>, b: seq<nat>)
    ensures Matching(winning, a + b) == Matching(winning, a) + Matching(winning, b)
  {
    if a == [] {
      assert a + b == b;
    } else {
      assert (a + b)[0] == a[0] && (a + b)[1..] == a[1..] + b;
      MatchingAppend(winning, a[1..], b);
    }
  }

  /** What is counted depends on the winning numbers only as a set. */
  lemma {:induction false} MatchingSameWinners(w1: seq<nat>, w2: seq<nat>, mine: seq<nat>)
    requires forall x :: x in w1 <==> x in w2
    ensures Matching(w1, mine) == Matching(w2, mine)
  {
    if mine != [] {
      MatchingSameWinners(w1, w2, mine[1..]);
    }
  }

  /** Taking out the element at j counts it separately. */
  lemma MatchingRemoveAt(winning: seq<nat>, m: seq<nat>, j: nat)
    requires j < |m|
    ensures Matching(winning, m) ==
      (if m[j] in winning then 1 else 0) + Matching(winning, m[..j] + m[j + 1..])
  {
    assert m == m[..j] + [m[j]] + m[j + 1..];
    MatchingAppend(winning, m[..j] + [m[j]], m[j + 1..]);
    MatchingAppend(winning, m[..j], [m[j]]);
    MatchingAppend(winning, m[..j], m[j + 1..]);
    assert Matching(winning, [m[j]]) == if m[j] in winning then 1 else 0 by {
      assert [m[j]][1..] == [];
    }
  }

  /** Two lists with the same elements still agree once the head of the first and an
      equal element of the second are both taken out. */
  lemma RemoveMatching(m1: seq<nat>, m2: seq<nat>, j: nat)
    requires multiset(m1) == multiset(m2) && m1 != [] && j < |m2| && m2[j] == m1[0]
    ensures multiset(m1[1..]) == multiset(m2[..j] + m2[j + 1..])
  {
    var x := m1[0];
    assert m1 == [x] + m1[1..];
    assert multiset(m1) == multiset{x} + multiset(m1[1..]);
    assert m2 == m2[..j] + [x] + m2[j + 1..];
    assert multiset(m2) == multiset(m2[..j]) + multiset{x} + multiset(m2[j + 1..]);
    assert multiset(m2[..j] + m2[j + 1..]) == multiset(m2[..j]) + multiset(m2[j + 1..]);
    assert multiset(m1[1..]) == multiset(m1) - multiset{x};
  }

  /** ... and on your numbers only as a multiset. */
  lemma {:induction false} MatchingPermutes(winning: seq<nat>, m1: seq<nat>, m2: seq<nat>)
    requires multiset(m1) == multiset(m2)
    ensures Matching(winning, m1) == Matching(winning, m2)
    decreases |m1|
  {
    if m1 == [] {
      assert |multiset(m2)| == 0;
    } else {
      assert m1[0] in multiset(m2);
      var j :| 0 <= j < |m2| && m2[j] == m1[0];
      MatchingRemoveAt(winning, m2, j);
      RemoveMatching(m1, m2, j);
      MatchingPermutes(winning, m1[1..], m2[..j] + m2[j + 1..]);
    }
  }

  /** A winning number below all of yours can be dropped without changing the count. */
  lemma {:induction false} MatchingDropLow(winning: seq<nat>, mine: seq<nat>)
    requires winning != [] && forall i :: 0 <= i < |mine| ==> winning[0] < mine[i]
    ensures Matching(winning, mine) == Matching(winning[1..], mine)
  {
    if mine != [] {
      assert winning == [winning[0]] + winning[1..];
      assert mine[0] in winning <==> mine[0] in winning[1..];
      MatchingDropLow(winning, mine[1..]);
    }
  }

  /** On sorted lists the walk counts exactly the numbers of yours that win. */
  lemma {:induction false} CountMatchesCounts(winning: seq<nat>, mine: seq<nat>, matches: nat)
    requires SortedBy(winning, NatKey) && SortedBy(mine, NatKey)
    ensures CountMatches(winning, mine, matches) == matches + Matching(winning, mine)
    decreases |winning| + |mine|
  {
    if winning == [] {
      if mine != [] {
        MatchingSameWinners(winning, [], mine);
        assert Matching([], mine) == 0 by { MatchingNone(mine); }
      }
    } else if mine == [] {
    } else if winning[0] > mine[0] {
      assert mine[0] !in winning by {
        forall i | 0 <= i < |winning| ensures winning[i] != mine[0] {
          assert NatKey(winning[0]) <= NatKey(winning[i]);
        }
      }
      SortedTail(mine, NatKey);
      CountMatchesCounts(winning, mine[1..], matches);
    } else if winning[0] < mine[0] {
      assert forall i :: 0 <= i < |mine| ==> winning[0] < mine[i] by {
        forall i | 0 <= i < |mine| ensures winning[0] < mine[i] {
          assert NatKey(mine[0]) <= NatKey(mine[i]);
        }
      }
      MatchingDropLow(winning, mine);
      SortedTail(winning, NatKey);
      CountMatchesCounts(winning[1..], mine, matches);
    } else {
      assert mine[0] in winning;
      SortedTail(mine, NatKey);
      CountMatchesCounts(winning, mine[1..], matches + 1);
    }
  }

  lemma {:induction false} MatchingNone(mine: seq<nat>)
    ensures Matching([], mine) == 0
  {
    if mine != [] {
      MatchingNone(mine[1..]);
    }
  }

  /** Sorting both lists first gives the walk what it needs: it then counts the numbers
      of the unsorted lists too. */
  lemma SortedMatches(winning: seq<nat>, mine: seq<nat>)
    ensures CountMatches(SortBy(winning, NatKey), SortBy(mine, NatKey), 0) == Matching(winning, mine)
    ensures CalcScore(SortBy(winning, NatKey), SortBy(mine, NatKey), 0) == Score(Matching(winning, mine))
  {
    var ws, ms := SortBy(winning, NatKey), SortBy(mine, NatKey);
    SortBySorted(winning, NatKey);
    SortBySorted(mine, NatKey);
    SortByPermutes(mine, NatKey);
    CountMatchesCounts(ws, ms, 0);
    MatchingSameWinners(ws, winning, ms);
    MatchingPermutes(winning, ms, mine);
    CalcScoreIsScore(ws, ms, 0);
  }

  // ---------------------------------------------------------------- cards

  /** `parse_card`: the rest of the line and the card's points. */
  function ParseCard(s: string): (r: Option<(string, nat)>)
    ensures r.Some? <==> SkipPast(':', s).Some? && NumberLists(SkipPast(':', s).value).Some?
    ensures r.Some? ==>
      var (winning, mine, rest) := NumberLists(SkipPast(':', s).value).value;
      r.value == (rest, Score(Matching(winning, mine)))
  {
    match SkipPast(':', s)
    case None => None
    case Some(s1) =>
      match NumberLists(s1)
      case None => None
      case Some((winning, mine, rest)) =>
        SortedMatches(winning, mine);
        Some((rest, CalcScore(SortBy(winning, NatKey), SortBy(mine, NatKey), 0)))
  }

  /** The header of `parse_card2`: `"Card"`, spaces, the card number, `":"`. */
  function CardHeader(s: string): (r: Option<(nat, string)>)
    ensures r.Some? ==> |r.value.1| < |s|
  {
    match Tag("Card", s)
    case None => None
    case Some(s1) =>
      match Digit1(SkipChar(' ', s1))
      case None => None
      case Some((ds, s2)) =>
        match Tag(":", s2)
        case None => None
        case Some(s3) => Some((DecimalValue(ds), s3))
  }

  /** `parse_card2`: the rest of the line, the card number and the match count. */
  function ParseCard2(s: string): (r: Option<(string, (nat, nat))>)
    ensures r.Some? <==> CardHeader(s).Some? && NumberLists(CardHeader(s).value.1).Some?
    ensures r.Some? ==>
      var (winning, mine, rest) := NumberLists(CardHeader(s).value.1).value;
      r.value == (rest, (CardHeader(s).value.0, Matching(winning, mine)))
  {
    match CardHeader(s)
    case None => None
    case Some((num, s1)) =>
      match NumberLists(s1)
      case None => None
      case Some((winning, mine, rest)) =>
        SortedMatches(winning, mine);
        Some((rest, (num, CountMatches(SortBy(winning, NatKey), SortBy(mine, NatKey), 0))))
  }

  /** The `fold` of `part1`: adds up the points, and fails where any line failed. */
  function Total(points: seq<Option<nat>>): (r: Option<nat>)
    ensures r.Some? <==> forall i :: 0 <= i < |points| ==> points[i].Some?
  {
    if points == [] then Some(0)
    else match Total(points[1..])
      case None => None
      case Some(rest) =>
        if points[0].None? then None
        else
          assert forall i :: 1 <= i < |points| ==> points[i] == points[1..][i - 1];
          Some(points[0].value + rest)
  }

  /** The total of two batches of lines is the sum of their totals. */
  lemma {:induction false} TotalAppend(a: seq<Option<nat>>, b: seq<Option<nat>>)
    requires Total(a).Some? && Total(b).Some?
    ensures Total(a + b) == Some(Total(a).value + Total(b).value)
  {
    if a != [] {
      assert (a + b)[0] == a[0] && (a + b)[1..] == a[1..] + b;
      TotalAppend(a[1..], b);
    } else {
      assert a + b == b;
    }
  }

  function CardPoints(line: string): Option<nat>
  {
    match ParseCard(line)
    case None => None
    case Some((_, points)) => Some(points)
  }

  /** `part1`: the points of every card added up; `None` where a line does not parse. */
  function Part1(lines: seq<string>): (r: Option<nat>)
    ensures r.Some? <==> forall i :: 0 <= i < |lines| ==> ParseCard(lines[i]).Some?
  {
    var points := seq(|lines|, i requires 0 <= i < |lines| => CardPoints(lines[i]));
    assert forall i :: 0 <= i < |lines| ==> (points[i].Some? <==> ParseCard(lines[i]).Some?);
    Total(points)
  }

  /** A card as written: a header without a colon, then the two laid-out lists. */
  datatype CardText = CardText(header: string, winning: seq<(nat, string)>, mine: seq<(nat, string)>)

  predicate WellFormedCard(c: CardText)
  {
    ':' !in c.header && c.winning != [] && Layout(c.winning) && c.mine != [] && Layout(c.mine)
  }

  function RenderCard(c: CardText): string
  {
    c.header + ":" + Join(c.winning) + " | " + Join(c.mine)
  }

  /** The points a written card is worth: the score of its matches. */
  function CardScore(c: CardText): nat
    requires WellFormedCard(c)
  {
    Score(Matching(Values(c.winning), Values(c.mine)))
  }

  /** The points of a list of written cards, added up. */
  function SumScores(cards: seq<CardText>): nat
    requires forall i :: 0 <= i < |cards| ==> WellFormedCard(cards[i])
    decreases |cards|
  {
    if cards == [] then 0 else CardScore(cards[0]) + SumScores(cards[1..])
  }

  /** `take_until(":")` and `tag(":")` step over a header that holds no colon. */
  lemma {:induction false} SkipPastOf(header: string, body: string)
    requires ':' !in header
    ensures SkipPast(':', header + ":" + body) == Some(body)
    decreases |header|
  {
    var s := header + ":" + body;
    if header == [] {
      assert s == [':'] + body;
    } else {
      assert s[0] == header[0];
      assert s[1..] == header[1..] + ":" + body;
      SkipPastOf(header[1..], body);
    }
  }

  /** A written card is read back as the score of its matches, with nothing left. */
  lemma ParseCardOf(c: CardText)
    requires WellFormedCard(c)
    ensures ParseCard(RenderCard(c)) == Some(([], CardScore(c)))
  {
    var body := Join(c.winning) + " | " + Join(c.mine);
    assert RenderCard(c) == c.header + ":" + body by {
      Regroup(c.header, ":", Join(c.winning) + " | ", Join(c.mine));
      AppendAssoc(c.header, ":", Join(c.winning) + " | " + Join(c.mine));
    }
    SkipPastOf(c.header, body);
    assert body + [] == body;
    NumberListsOf(c.winning, c.mine, []);
  }

  /** Totals of points that are all present add up head first. */
  lemma {:induction false} TotalScores(cards: seq<CardText>, points: seq<Option<nat>>)
    requires forall i :: 0 <= i < |cards| ==> WellFormedCard(cards[i])
    requires |points| == |cards|
    requires forall i :: 0 <= i < |cards| ==> points[i] == Some(CardScore(cards[i]))
    ensures Total(points) == Some(SumScores(cards))
    decreases |cards|
  {
    if cards != [] {
      TotalScores(cards[1..], points[1..]);
    }
  }

  /** On written cards, `part1` is the sum of every card's score. */
  lemma Part1Of(cards: seq<CardText>, lines: seq<string>)
    requires forall i :: 0 <= i < |cards| ==> WellFormedCard(cards[i])
    requires |lines| == |cards|
    requires forall i :: 0 <= i < |cards| ==> lines[i] == RenderCard(cards[i])
    ensures Part1(lines) == Some(SumScores(cards))
  {
    var points := seq(|lines|, i requires 0 <= i < |lines| => CardPoints(lines[i]));
    forall i | 0 <= i < |cards|
      ensures points[i] == Some(CardScore(cards[i]))
    {
      ParseCardOf(cards[i]);
    }
    TotalScores(cards, points);
  }

  // ---------------------------------------------------------------- card copies

  /** The size of `card_counts`. */
  const CARDS: nat := 202

  /** Card i (zero-based) with `matches` matches: each of the next `matches` cards gains
      as many copies as card i has. */
  function AddCopies(counts: seq<nat>, i: nat, matches: nat): (r: seq<nat>)
    requires i < |counts| && i + 1 + matches <= |counts|
    ensures |r| == |counts|
  {
    seq(|counts|, j requires 0 <= j < |counts| =>
      if i < j <= i + matches then counts[j] + counts[i] else counts[j])
  }

  /** One line of `part2`; `None` where the Rust code panics: an unparsable line, card 0
      (`card_num - 1` underflows), a card index past the array, or a slice end past it. */
  function CardStep(counts: seq<nat>, line: string): (r: Option<seq<nat>>)
    ensures r.Some? ==> |r.value| == |counts|
  {
    match ParseCard2(line)
    case None => None
    case Some((_, (num, matches))) =>
      if num == 0 || num - 1 >= |counts| || num + matches > |counts| then None
      else Some(AddCopies(counts, num - 1, matches))
  }

  function CountsAfter(counts: seq<nat>, lines: seq<string>): (r: Option<seq<nat>>)
    ensures r.Some? ==> |r.value| == |counts|
    decreases |lines|
  {
    if lines == [] then Some(counts)
    else match CardStep(counts, lines[0])
      case None => None
      case Some(next) => CountsAfter(next, lines[1..])
  }

  function Sum(s: seq<nat>): nat
  {
    if s == [] then 0 else Sum(s[..|s| - 1]) + s[|s| - 1]
  }

  /** What `part2` returns: the number of cards once every copy is counted. */
  function Part2Result(lines: seq<string>): Option<nat>
  {
    match CountsAfter(seq(CARDS, _ => 1), lines)
    case None => None
    case Some(counts) => Some(Sum(counts))
  }

  /** Copies are only ever added: no count decreases. */
  lemma {:induction false} CountsGrow(counts: seq<nat>, lines: seq<string>)
    requires CountsAfter(counts, lines).Some?
    ensures forall j :: 0 <= j < |counts| ==> counts[j] <= CountsAfter(counts, lines).value[j]
    decreases |lines|
  {
    if lines != [] {
      var next := CardStep(counts, lines[0]).value;
      CountsGrow(next, lines[1..]);
    }
  }

  lemma {:induction false} SumAtLeast(s: seq<nat>)
    requires forall j :: 0 <= j < |s| ==> 1 <= s[j]
    ensures Sum(s) >= |s|
  {
    if s != [] {
      SumAtLeast(s[..|s| - 1]);
    }
  }

  /** Every card is there at least once, so the answer is at least 202. */
  lemma Part2AtLeast(lines: seq<string>)
    requires Part2Result(lines).Some?
    ensures Part2Result(lines).value >= CARDS
  {
    var ones := seq(CARDS, _ => 1);
    CountsGrow(ones, lines);
    SumAtLeast(CountsAfter(ones, lines).value);
  }

  /** The copy step on the array: `card_counts[i+1 .. i+1+matches]` each gain
      `card_counts[i]`. */
  method AddCopiesInPlace(counts: array<nat>, i: nat, matches: nat)
    requires i < counts.Length && i + 1 + matches <= counts.Length
    modifies counts
    ensures counts[..] == AddCopies(old(counts[..]), i, matches)
  {
    var c := counts[i];
    var j := i + 1;
    while j < i + 1 + matches
      invariant i + 1 <= j <= i + 1 + matches
      invariant forall k :: 0 <= k < counts.Length ==>
        counts[k] == if i < k < j then old(counts[k]) + c else old(counts[k])
    {
      counts[j] := counts[j] + c;
      j := j + 1;
    }
  }

  lemma CountsAfterStep(counts: seq<nat>, lines: seq<string>, next: seq<nat>)
    requires lines != [] && CardStep(counts, lines[0]) == Some(next)
    ensures CountsAfter(counts, lines) == CountsAfter(next, lines[1..])
  {
  }

  lemma CountsAfterFails(counts: seq<nat>, lines: seq<string>)
    requires lines != [] && CardStep(counts, lines[0]).None?
    ensures CountsAfter(counts, lines).None?
  {
  }

  /** `part2` over the lines of the input. */
  method Part2(lines: seq<string>) returns (r: Option<nat>)
    ensures r == Part2Result(lines)
  {
    var counts := new nat[CARDS](_ => 1);
    assert counts[..] == seq(CARDS, _ => 1);
    for n := 0 to |lines|
      invariant counts.Length == CARDS
      invariant CountsAfter(seq(CARDS, _ => 1), lines) == CountsAfter(counts[..], lines[n..])
    {
      ghost var before := counts[..];
      var parsed := ParseCard2(lines[n]);
      if parsed.None? {
        CountsAfterFails(before, lines[n..]);
        return None;
      }
      var (_, (num, matches)) := parsed.value;
      if num == 0 || num - 1 >= CARDS || num + matches > CARDS {
        CountsAfterFails(before, lines[n..]);
        return None;
      }
      AddCopiesInPlace(counts, num - 1, matches);
      CountsAfterStep(before, lines[n..], counts[..]);
      assert lines[n..][1..] == lines[n + 1..];
    }
    assert lines[|lines|..] == [];
    var total := 0;
    for k := 0 to CARDS
      invariant total == Sum(counts[..k])
    {
      assert counts[..k + 1][..k] == counts[..k];
      total := total + counts[k];
    }
    assert counts[..CARDS] == counts[..];
    r := Some(total);
  }
}
