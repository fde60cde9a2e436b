/** Day 2, the cube game: each line "Game <id>: <show>; <show>; ..." lists the handfuls
    of red, green and blue cubes drawn from a bag, a show being "<n> <color>, ...".
    Part 1 sums the ids of the games possible with 12 red, 13 green and 14 blue cubes;
    part 2 sums, over the games, the product of the largest amount of each colour. */
module CubeGame {
  import opened Wrappers
  import opened Text

  datatype Color = Red | Green | Blue

  /** `Color::as_str`. */
  function Name(c: Color): (r: string)
    ensures r != []
  {
    match c
    case Red => "red"
    case Green => "green"
    case Blue => "blue"
  }

  /** Different colours are spelled from different first letters. */
  lemma NamesDiffer(c: Color, d: Color)
    requires c != d
    ensures Name(c)[0] != Name(d)[0]
  {
  }

  /** The bag of part 1: which amount of each colour `parse_any_color` allows. */
  function Limit(c: Color): nat
  {
    match c
    case Red => 12
    case Green => 13
    case Blue => 14
  }

  // ---------------------------------------------------------------------------------
  // The parsers, on complete input; `None` is a parse error.
  // ---------------------------------------------------------------------------------

  /** `tuple((digit1, tag(" "), tag(color)))`: the amount read and what follows. */
  function ParseCube(color: Color, s: string): (r: Option<(string, nat)>)
    ensures r.Some? ==> |r.value.0| < |s|
  {
    match Digit1(s)
    case None => None
    case Some((ds, s1)) =>
      match Tag(" ", s1)
      case None => None
      case Some(s2) =>
        match Tag(Name(color), s2)
        case None => None
        case Some(s3) => Some((s3, DecimalValue(ds)))
  }

  /** `parse_color`: whether the amount is at most `max`. */
  function ParseColor(color: Color, max: nat, s: string): (r: Option<(string, bool)>)
    ensures r.Some? ==> |r.value.0| < |s|
  {
    match ParseCube(color, s)
    case None => None
    case Some((rest, n)) => Some((rest, n <= max))
  }

  /** `parse_color2`: the colour and its amount. */
  function ParseColor2(color: Color, s: string): (r: Option<(string, (Color, nat))>)
    ensures r.Some? ==> |r.value.0| < |s| && r.value.1.0 == color
  {
    match ParseCube(color, s)
    case None => None
    case Some((rest, n)) => Some((rest, (color, n)))
  }

  /** `parse_any_color`: red against 12, else green against 13, else blue against 14. */
  function ParseAnyColor(s: string): (r: Option<(string, bool)>)
    ensures r.Some? ==> |r.value.0| < |s|
  {
    match ParseColor(Red, 12, s)
    case Some(x) => Some(x)
    case None =>
      match ParseColor(Green, 13, s)
      case Some(x) => Some(x)
      case None => ParseColor(Blue, 14, s)
  }

  /** `parse_any_color2`: the first of red, green and blue that parses. */
  function ParseAnyColor2(s: string): (r: Option<(string, (Color, nat))>)
    ensures r.Some? ==> |r.value.0| < |s|
  {
    match ParseColor2(Red, s)
    case Some(x) => Some(x)
    case None =>
      match ParseColor2(Green, s)
      case Some(x) => Some(x)
      case None => ParseColor2(Blue, s)
  }

  /** `parse_show`: stops at the first cube over its limit, answering false there;
      otherwise goes on after each ", ", and a failure after ", " fails the show. */
  function ParseShow(s: string): (r: Option<(string, bool)>)
    ensures r.Some? ==> |r.value.0| < |s|
    decreases |s|
  {
    match ParseAnyColor(s)
    case None => None
    case Some((s1, possible)) =>
      if !possible then Some((s1, false))
      else
        match Tag(", ", s1)
        case Some(s2) => ParseShow(s2)
        case None => Some((s1, true))
  }

  /** Amounts of red, green and blue. */
  datatype Rgb = Rgb(r: nat, g: nat, b: nat)

  function Get(rgb: Rgb, c: Color): nat
  {
    match c
    case Red => rgb.r
    case Green => rgb.g
    case Blue => rgb.b
  }

  /** `amt` more cubes of colour `c`. */
  function Add(rgb: Rgb, c: Color, amt: nat): (r: Rgb)
    ensures Get(r, c) == Get(rgb, c) + amt
    ensures forall d :: d != c ==> Get(r, d) == Get(rgb, d)
  {
    match c
    case Red => Rgb(rgb.r + amt, rgb.g, rgb.b)
    case Green => Rgb(rgb.r, rgb.g + amt, rgb.b)
    case Blue => Rgb(rgb.r, rgb.g, rgb.b + amt)
  }

  /** `parse_show2`: adds every cube's amount to its colour. */
  function ParseShow2(s: string, rgb: Rgb): (r: Option<(string, Rgb)>)
    ensures r.Some? ==> |r.value.0| < |s|
    decreases |s|
  {
    match ParseAnyColor2(s)
    case None => None
    case Some((s1, (color, amt))) =>
      var next := Add(rgb, color, amt);
      match Tag(", ", s1)
      case Some(s2) => ParseShow2(s2, next)
      case None => Some((s1, next))
  }

  /** `parse_game`: stops at the first impossible show; otherwise goes on after "; ". */
  function ParseGame(s: string): (r: Option<(string, bool)>)
    ensures r.Some? ==> |r.value.0| < |s|
    decreases |s|
  {
    match ParseShow(s)
    case None => None
    case Some((s1, possible)) =>
      if !possible then Some((s1, false))
      else
        match Tag("; ", s1)
        case Some(s2) => ParseGame(s2)
        case None => Some((s1, true))
  }

  /** The larger amount of each colour. */
  function Join(a: Rgb, b: Rgb): (r: Rgb)
    ensures forall c :: Get(r, c) == if Get(a, c) < Get(b, c) then Get(b, c) else Get(a, c)
  {
    Rgb(if a.r < b.r then b.r else a.r, if a.g < b.g then b.g else a.g,
        if a.b < b.b then b.b else a.b)
  }

  /** `parse_game2`: each show is tallied from nothing and joined into `acc`. */
  function ParseGame2(s: string, acc: Rgb): (r: Option<(string, Rgb)>)
    ensures r.Some? ==> |r.value.0| < |s|
    decreases |s|
  {
    match ParseShow2(s, Rgb(0, 0, 0))
    case None => None
    case Some((s1, rgb)) =>
      var next := Join(rgb, acc);
      match Tag("; ", s1)
      case Some(s2) => ParseGame2(s2, next)
      case None => Some((s1, next))
  }

  /** `tuple((tag("Game "), digit1, tag(": ")))`: the game's id and what follows. */
  function Header(s: string): (r: Option<(string, nat)>)
    ensures r.Some? ==> |r.value.0| < |s|
  {
    match Tag("Game ", s)
    case None => None
    case Some(s1) =>
      match Digit1(s1)
      case None => None
      case Some((id, s2)) =>
        match Tag(": ", s2)
        case None => None
        case Some(s3) => Some((s3, DecimalValue(id)))
  }

  /** `parse_line`: the id when the game is possible. */
  function ParseLine(s: string): (r: Option<(string, Option<nat>)>)
    ensures r.Some? ==> |r.value.0| < |s|
  {
    match Header(s)
    case None => None
    case Some((s1, id)) =>
      match ParseGame(s1)
      case None => None
      case Some((s2, possible)) => Some((s2, if possible then Some(id) else None))
  }

  /** `r * g * b`. */
  function Power(rgb: Rgb): nat
  {
    rgb.r * rgb.g * rgb.b
  }

  /** `parse_line2`: the power of the largest amounts of the game. */
  function ParseLine2(s: string): (r: Option<(string, nat)>)
    ensures r.Some? ==> |r.value.0| < |s|
  {
    match Header(s)
    case None => None
    case Some((s1, _)) =>
      match ParseGame2(s1, Rgb(0, 0, 0))
      case None => None
      case Some((s2, rgb)) => Some((s2, Power(rgb)))
  }

  /** The fold of `part1` over the lines' parse results: a failed parse panics. */
  function Sum1(rs: seq<Option<(string, Option<nat>)>>): (r: Option<nat>)
    ensures r.Some? <==> forall i :: 0 <= i < |rs| ==> rs[i].Some?
    decreases |rs|
  {
    if rs == [] then Some(0)
    else
      var front := Sum1(rs[..|rs| - 1]);
      var last := rs[|rs| - 1];
      if front.None? || last.None? then None
      else Some(front.value + match last.value.1 case Some(id) => id case None => 0)
  }

  /** `part1`: the sum of the possible games' ids; `None` when any line does not parse
      (the `unwrap` panics). Whatever a line has after its game is ignored. */
  function Part1(lines: seq<string>): (r: Option<nat>)
    ensures r.Some? <==> forall i :: 0 <= i < |lines| ==> ParseLine(lines[i]).Some?
  {
    var rs := seq(|lines|, i requires 0 <= i < |lines| => ParseLine(lines[i]));
    assert forall i :: 0 <= i < |lines| ==> rs[i] == ParseLine(lines[i]);
    Sum1(rs)
  }

  /** The fold of `part2` over the lines' parse results. */
  function Sum2(rs: seq<Option<(string, nat)>>): (r: Option<nat>)
    ensures r.Some? <==> forall i :: 0 <= i < |rs| ==> rs[i].Some?
    decreases |rs|
  {
    if rs == [] then Some(0)
    else
      var front := Sum2(rs[..|rs| - 1]);
      var last := rs[|rs| - 1];
      if front.None? || last.None? then None
      else Some(front.value + last.value.1)
  }

  /** `part2`: the sum of the lines' powers; `None` when any line does not parse. */
  function Part2(lines: seq<string>): (r: Option<nat>)
    ensures r.Some? <==> forall i :: 0 <= i < |lines| ==> ParseLine2(lines[i]).Some?
  {
    var rs := seq(|lines|, i requires 0 <= i < |lines| => ParseLine2(lines[i]));
    assert forall i :: 0 <= i < |lines| ==> rs[i] == ParseLine2(lines[i]);
    Sum2(rs)
  }

  // ---------------------------------------------------------------------------------
  // The games the parsers read, and what they mean.
  // ---------------------------------------------------------------------------------

  /** "<amount> <color>". */
  datatype Cube = Cube(amount: nat, color: Color)

  /** A record of one line: the game's id and its shows, each a non-empty list of cubes. */
  datatype Record = Record(id: nat, game: seq<seq<Cube>>)

  predicate WellFormed(game: seq<seq<Cube>>)
  {
    game != [] && forall i :: 0 <= i < |game| ==> game[i] != []
  }

  function RenderCube(c: Cube): string
  {
    Digits(c.amount) + " " + Name(c.color)
  }

  function RenderShow(show: seq<Cube>): string
    requires show != []
    decreases |show|
  {
    if |show| == 1 then RenderCube(show[0])
    else RenderCube(show[0]) + ", " + RenderShow(show[1..])
  }

  function RenderGame(game: seq<seq<Cube>>): string
    requires WellFormed(game)
    decreases |game|
  {
    if |game| == 1 then RenderShow(game[0])
    else RenderShow(game[0]) + "; " + RenderGame(game[1..])
  }

  function RenderLine(rec: Record): string
    requires WellFormed(rec.game)
  {
    "Game " + Digits(rec.id) + ": " + RenderGame(rec.game)
  }

  /** Part 1's test: a single cube is within the bag's amount of its colour. */
  predicate Possible(c: Cube)
  {
    c.amount <= Limit(c.color)
  }

  predicate ShowPossible(show: seq<Cube>)
  {
    forall i :: 0 <= i < |show| ==> Possible(show[i])
  }

  predicate GamePossible(game: seq<seq<Cube>>)
  {
    forall i :: 0 <= i < |game| ==> ShowPossible(game[i])
  }

  /** The cubes of colour `c` in a show, repeated mentions added up. */
  function Count(show: seq<Cube>, c: Color): nat
    decreases |show|
  {
    if show == [] then 0
    else (if show[0].color == c then show[0].amount else 0) + Count(show[1..], c)
  }

  function Tally(show: seq<Cube>): Rgb
  {
    Rgb(Count(show, Red), Count(show, Green), Count(show, Blue))
  }

  function Plus(a: Rgb, b: Rgb): Rgb
  {
    Rgb(a.r + b.r, a.g + b.g, a.b + b.b)
  }

  /** The most cubes of colour `c` any show of the game has. */
  function MaxCount(game: seq<seq<Cube>>, c: Color): nat
    decreases |game|
  {
    if game == [] then 0
    else
      var here := Count(game[0], c);
      var later := MaxCount(game[1..], c);
      if here < later then later else here
  }

  function Need(game: seq<seq<Cube>>): Rgb
  {
    Rgb(MaxCount(game, Red), MaxCount(game, Green), MaxCount(game, Blue))
  }

  /** Every show of the game could be drawn from `bag`. */
  predicate PossibleWith(game: seq<seq<Cube>>, bag: Rgb)
  {
    forall i, c :: 0 <= i < |game| ==> Count(game[i], c) <= Get(bag, c)
  }

  function SumIds(recs: seq<Record>): nat
    decreases |recs|
  {
    if recs == [] then 0
    else
      var last := recs[|recs| - 1];
      SumIds(recs[..|recs| - 1]) + if GamePossible(last.game) then last.id else 0
  }

  function SumPowers(recs: seq<Record>): nat
    decreases |recs|
  {
    if recs == [] then 0
    else SumPowers(recs[..|recs| - 1]) + Power(Need(recs[|recs| - 1].game))
  }

  // ---------------------------------------------------------------------------------
  // Round trips: the parsers read what the grammar writes.
  // ---------------------------------------------------------------------------------

  /** A cube of the parser's colour is read back with its amount. */
  lemma ParseCubeOf(c: Cube, rest: string)
    ensures ParseCube(c.color, RenderCube(c) + rest) == Some((rest, c.amount))
  {
    var ds := Digits(c.amount);
    var tail := " " + (Name(c.color) + rest);
    assert RenderCube(c) + rest == ds + tail;
    Digit1Of(ds, tail);
    TagOf(" ", Name(c.color) + rest);
    TagOf(Name(c.color), rest);
    DigitsValue(c.amount);
  }

  /** A cube of another colour is refused by the parser. */
  lemma ParseCubeOther(c: Cube, other: Color, rest: string)
    requires other != c.color
    ensures ParseCube(other, RenderCube(c) + rest) == None
  {
    var ds := Digits(c.amount);
    var tail := " " + (Name(c.color) + rest);
    assert RenderCube(c) + rest == ds + tail;
    Digit1Of(ds, tail);
    TagOf(" ", Name(c.color) + rest);
    NamesDiffer(c.color, other);
    assert (Name(c.color) + rest)[0] == Name(c.color)[0];
  }

  /** `parse_any_color` reads any cube and tells whether it is within the bag. */
  lemma ParseAnyColorOf(c: Cube, rest: string)
    ensures ParseAnyColor(RenderCube(c) + rest) == Some((rest, Possible(c)))
  {
    ParseCubeOf(c, rest);
    forall other: Color | other != c.color
      ensures ParseCube(other, RenderCube(c) + rest) == None
    {
      ParseCubeOther(c, other, rest);
    }
  }

  /** `parse_any_color2` reads any cube with its colour and amount. */
  lemma ParseAnyColor2Of(c: Cube, rest: string)
    ensures ParseAnyColor2(RenderCube(c) + rest) == Some((rest, (c.color, c.amount)))
  {
    ParseCubeOf(c, rest);
    forall other: Color | other != c.color
      ensures ParseCube(other, RenderCube(c) + rest) == None
    {
      ParseCubeOther(c, other, rest);
    }
  }

  /** The text of a show splits into its first cube and, for several cubes, ", " and
      the text of the others. */
  lemma RenderShowSplit(show: seq<Cube>, rest: string)
    requires |show| > 1
    ensures RenderShow(show) + rest == RenderCube(show[0]) + (", " + (RenderShow(show[1..]) + rest))
  {
  }

  /** `parse_show` reads a show and tells whether every cube of it is within the bag;
      a possible show is read up to its end. */
  lemma {:induction false} ParseShowOf(show: seq<Cube>, rest: string)
    requires show != [] && !(", " <= rest)
    ensures ParseShow(RenderShow(show) + rest).Some?
    ensures ParseShow(RenderShow(show) + rest).value.1 == ShowPossible(show)
    ensures ShowPossible(show) ==> ParseShow(RenderShow(show) + rest).value.0 == rest
    decreases |show|
  {
    if |show| == 1 {
      ParseAnyColorOf(show[0], rest);
    } else {
      var more := RenderShow(show[1..]) + rest;
      RenderShowSplit(show, rest);
      ParseAnyColorOf(show[0], ", " + more);
      TagOf(", ", more);
      ParseShowOf(show[1..], rest);
      assert ShowPossible(show) <==> Possible(show[0]) && ShowPossible(show[1..]) by {
        assert forall i :: 1 <= i < |show| ==> show[i] == show[1..][i - 1];
      }
    }
  }

  /** Tallying a show is adding its first cube, then tallying the others. */
  lemma TallyStep(show: seq<Cube>, rgb: Rgb)
    requires show != []
    ensures Plus(Add(rgb, show[0].color, show[0].amount), Tally(show[1..])) == Plus(rgb, Tally(show))
  {
  }

  /** `parse_show2` reads a show and adds its tally to `rgb`. */
  lemma {:induction false} ParseShow2Of(show: seq<Cube>, rest: string, rgb: Rgb)
    requires show != [] && !(", " <= rest)
    ensures ParseShow2(RenderShow(show) + rest, rgb) == Some((rest, Plus(rgb, Tally(show))))
    decreases |show|
  {
    var c := show[0];
    var next := Add(rgb, c.color, c.amount);
    TallyStep(show, rgb);
    if |show| == 1 {
      ParseAnyColor2Of(c, rest);
      assert Plus(next, Tally(show[1..])) == next;
    } else {
      var more := RenderShow(show[1..]) + rest;
      RenderShowSplit(show, rest);
      ParseAnyColor2Of(c, ", " + more);
      TagOf(", ", more);
      ParseShow2Of(show[1..], rest, next);
    }
  }

  lemma WellFormedTail(game: seq<seq<Cube>>)
    requires WellFormed(game) && |game| > 1
    ensures WellFormed(game[1..])
  {
  }

  /** The text of a game splits into its first show and, for several shows, "; " and
      the text of the others. */
  lemma RenderGameSplit(game: seq<seq<Cube>>, rest: string)
    requires WellFormed(game) && |game| > 1
    ensures WellFormed(game[1..])
    ensures RenderGame(game) + rest == RenderShow(game[0]) + ("; " + (RenderGame(game[1..]) + rest))
  {
    WellFormedTail(game);
    var first, others := RenderShow(game[0]), RenderGame(game[1..]);
    assert RenderGame(game) == first + "; " + others;
    Assoc(first, "; ", others, rest);
  }

  lemma Assoc(a: string, b: string, c: string, d: string)
    ensures a + b + c + d == a + (b + (c + d))
  {
  }

  /** A text starting with "; " does not start with ", ". */
  lemma NoComma(x: string)
    ensures !(", " <= "; " + x)
  {
    assert ("; " + x)[0] == ';';
  }

  /** `parse_game` reads a game and tells whether every show of it is possible;
      a possible game is read up to its end. */
  lemma {:induction false} ParseGameOf(game: seq<seq<Cube>>, rest: string)
    requires WellFormed(game) && !(", " <= rest) && !("; " <= rest)
    ensures ParseGame(RenderGame(game) + rest).Some?
    ensures ParseGame(RenderGame(game) + rest).value.1 == GamePossible(game)
    ensures GamePossible(game) ==> ParseGame(RenderGame(game) + rest).value.0 == rest
    decreases |game|
  {
    if |game| == 1 {
      ParseShowOf(game[0], rest);
    } else {
      var more := RenderGame(game[1..]) + rest;
      RenderGameSplit(game, rest);
      NoComma(more);
      ParseShowOf(game[0], "; " + more);
      TagOf("; ", more);
      ParseGameOf(game[1..], rest);
      assert GamePossible(game) <==> ShowPossible(game[0]) && GamePossible(game[1..]) by {
        assert forall i :: 1 <= i < |game| ==> game[i] == game[1..][i - 1];
      }
    }
  }

  /** `parse_game2` reads a game and joins its need into `acc`. */
  lemma {:induction false} ParseGame2Of(game: seq<seq<Cube>>, rest: string, acc: Rgb)
    requires WellFormed(game) && !(", " <= rest) && !("; " <= rest)
    ensures ParseGame2(RenderGame(game) + rest, acc) == Some((rest, Join(Need(game), acc)))
    decreases |game|
  {
    var zero := Rgb(0, 0, 0);
    assert Plus(zero, Tally(game[0])) == Tally(game[0]);
    var next := Join(Tally(game[0]), acc);
    if |game| == 1 {
      ParseShow2Of(game[0], rest, zero);
      assert Need(game) == Tally(game[0]);
    } else {
      var more := RenderGame(game[1..]) + rest;
      RenderGameSplit(game, rest);
      NoComma(more);
      ParseShow2Of(game[0], "; " + more, zero);
      TagOf("; ", more);
      ParseGame2Of(game[1..], rest, next);
      assert Join(Need(game[1..]), next) == Join(Need(game), acc);
    }
  }

  /** The line header is read back with the game's id. */
  lemma HeaderOf(id: nat, rest: string)
    ensures Header("Game " + Digits(id) + ": " + rest) == Some((rest, id))
  {
    var ds := Digits(id);
    assert "Game " + ds + ": " + rest == "Game " + (ds + (": " + rest));
    TagOf("Game ", ds + (": " + rest));
    Digit1Of(ds, ": " + rest);
    TagOf(": ", rest);
    DigitsValue(id);
  }

  /** `parse_line` gives the id of a possible game and nothing for an impossible one. */
  lemma ParseLineOf(rec: Record, rest: string)
    requires WellFormed(rec.game) && !(", " <= rest) && !("; " <= rest)
    ensures ParseLine(RenderLine(rec) + rest).Some?
    ensures ParseLine(RenderLine(rec) + rest).value.1 ==
      if GamePossible(rec.game) then Some(rec.id) else None
  {
    var body := RenderGame(rec.game) + rest;
    assert RenderLine(rec) + rest == "Game " + Digits(rec.id) + ": " + body;
    HeaderOf(rec.id, body);
    ParseGameOf(rec.game, rest);
  }

  /** `parse_line2` gives the power of the game's need. */
  lemma ParseLine2Of(rec: Record, rest: string)
    requires WellFormed(rec.game) && !(", " <= rest) && !("; " <= rest)
    ensures ParseLine2(RenderLine(rec) + rest) == Some((rest, Power(Need(rec.game))))
  {
    var body := RenderGame(rec.game) + rest;
    assert RenderLine(rec) + rest == "Game " + Digits(rec.id) + ": " + body;
    HeaderOf(rec.id, body);
    ParseGame2Of(rec.game, rest, Rgb(0, 0, 0));
    assert Join(Need(rec.game), Rgb(0, 0, 0)) == Need(rec.game);
  }

  // ---------------------------------------------------------------------------------
  // What the answers mean.
  // ---------------------------------------------------------------------------------

  /** No show has more of a colour than the game's need. */
  lemma {:induction false} MaxCountBounds(game: seq<seq<Cube>>, c: Color, i: nat)
    requires i < |game|
    ensures Count(game[i], c) <= MaxCount(game, c)
    decreases |game|
  {
    if i > 0 {
      MaxCountBounds(game[1..], c, i - 1);
    }
  }

  /** The need of a colour is what some show has, or nothing for a game without shows. */
  lemma {:induction false} MaxCountAttained(game: seq<seq<Cube>>, c: Color) returns (i: nat)
    requires game != []
    ensures i < |game| && Count(game[i], c) == MaxCount(game, c)
    decreases |game|
  {
    if |game| == 1 || Count(game[0], c) >= MaxCount(game[1..], c) {
      i := 0;
    } else {
      var j := MaxCountAttained(game[1..], c);
      i := j + 1;
    }
  }

  /** Part 2's need is the fewest cubes a bag can hold for the game to be possible:
      a game is possible with a bag exactly when the bag holds at least its need. */
  lemma FewestCubes(game: seq<seq<Cube>>, bag: Rgb)
    ensures PossibleWith(game, bag) <==> forall c :: MaxCount(game, c) <= Get(bag, c)
  {
    if PossibleWith(game, bag) && game != [] {
      forall c: Color
        ensures MaxCount(game, c) <= Get(bag, c)
      {
        var i := MaxCountAttained(game, c);
      }
    }
    if forall c :: MaxCount(game, c) <= Get(bag, c) {
      forall i, c: Color | 0 <= i < |game|
        ensures Count(game[i], c) <= Get(bag, c)
      {
        MaxCountBounds(game, c, i);
      }
    }
  }

  /** A game where some colour never shows has power 0. */
  lemma {:induction false} PowerZero(game: seq<seq<Cube>>, c: Color)
    requires forall i, j :: 0 <= i < |game| && 0 <= j < |game[i]| ==> game[i][j].color != c
    ensures Power(Need(game)) == 0
  {
    assert MaxCount(game, c) == 0 by {
      if game != [] {
        var i := MaxCountAttained(game, c);
        CountAbsent(game[i], c);
      }
    }
  }

  lemma {:induction false} CountAbsent(show: seq<Cube>, c: Color)
    requires forall j :: 0 <= j < |show| ==> show[j].color != c
    ensures Count(show, c) == 0
    decreases |show|
  {
    if show != [] {
      CountAbsent(show[1..], c);
    }
  }

  /** `parse_show` answers at the first cube over its limit, whatever follows it. */
  lemma ShowStopsEarly(c: Cube, rest: string)
    requires !Possible(c)
    ensures ParseShow(RenderCube(c) + rest) == Some((rest, false))
  {
    ParseAnyColorOf(c, rest);
  }

  /** No colour is named twice in any show. */
  predicate Distinct(game: seq<seq<Cube>>)
  {
    forall i, j, k :: 0 <= i < |game| && 0 <= j < k < |game[i]| ==> game[i][j].color != game[i][k].color
  }

  /** In a show naming each colour at most once, part 1's cube-by-cube test is the bag's. */
  lemma {:induction false} ShowWithinBag(show: seq<Cube>)
    requires forall j, k :: 0 <= j < k < |show| ==> show[j].color != show[k].color
    ensures ShowPossible(show) <==> forall c :: Count(show, c) <= Limit(c)
    decreases |show|
  {
    if show != [] {
      var t := show[1..];
      assert forall j :: 0 <= j < |t| ==> t[j] == show[j + 1];
      ShowWithinBag(t);
      CountAbsent(t, show[0].color);
      assert ShowPossible(show) <==> Possible(show[0]) && ShowPossible(t);
    }
  }

  /** When no show names a colour twice, part 1's test is possibility with the bag of
      12 red, 13 green and 14 blue cubes. */
  lemma GameWithinBag(game: seq<seq<Cube>>)
    requires Distinct(game)
    ensures GamePossible(game) <==> PossibleWith(game, Rgb(12, 13, 14))
  {
    forall i | 0 <= i < |game|
      ensures ShowPossible(game[i]) <==> forall c :: Count(game[i], c) <= Limit(c)
    {
      ShowWithinBag(game[i]);
    }
    assert forall c :: Get(Rgb(12, 13, 14), c) == Limit(c);
  }

  /** A show naming a colour twice is judged cube by cube: 12 and then 1 more red pass
      part 1's test though the bag holds only 12 red cubes. */
  lemma RepeatedColor()
    ensures var game := [[Cube(12, Red), Cube(1, Red)]];
      GamePossible(game) && !PossibleWith(game, Rgb(12, 13, 14))
  {
    var show := [Cube(12, Red), Cube(1, Red)];
    var game := [show];
    assert Possible(show[0]) && Possible(show[1]);
    assert ShowPossible(game[0]);
    assert show[1..] == [Cube(1, Red)] && show[1..][1..] == [];
    assert Count(game[0], Red) == 13 > Get(Rgb(12, 13, 14), Red);
  }

  /** What part 1 makes of one record. */
  function IdIf(rec: Record): Option<nat>
  {
    if GamePossible(rec.game) then Some(rec.id) else None
  }

  /** Part 1 sums the ids the lines give. */
  lemma {:induction false} Part1Sums(recs: seq<Record>, rs: seq<Option<(string, Option<nat>)>>)
    requires |rs| == |recs|
    requires forall i :: 0 <= i < |recs| ==> rs[i].Some? && rs[i].value.1 == IdIf(recs[i])
    ensures Sum1(rs) == Some(SumIds(recs))
    decreases |recs|
  {
    if recs != [] {
      var n := |recs| - 1;
      Part1Sums(recs[..n], rs[..n]);
    }
  }

  /** Part 1 over well-formed lines is the sum of the ids of the possible games. */
  lemma {:induction false} Part1Of(recs: seq<Record>, lines: seq<string>)
    requires |lines| == |recs|
    requires forall i :: 0 <= i < |recs| ==> WellFormed(recs[i].game)
    requires forall i :: 0 <= i < |recs| ==> lines[i] == RenderLine(recs[i])
    ensures Part1(lines) == Some(SumIds(recs))
  {
    var rs := seq(|lines|, i requires 0 <= i < |lines| => ParseLine(lines[i]));
    forall i | 0 <= i < |recs|
      ensures rs[i].Some? && rs[i].value.1 == IdIf(recs[i])
    {
      ParseLineOf(recs[i], "");
      assert RenderLine(recs[i]) + "" == lines[i];
    }
    Part1Sums(recs, rs);
  }

  /** Part 2 sums the powers the lines give. */
  lemma {:induction false} Part2Sums(recs: seq<Record>, rs: seq<Option<(string, nat)>>)
    requires |rs| == |recs|
    requires forall i :: 0 <= i < |recs| ==> rs[i].Some? && rs[i].value.1 == Power(Need(recs[i].game))
    ensures Sum2(rs) == Some(SumPowers(recs))
    decreases |recs|
  {
    if recs != [] {
      var n := |recs| - 1;
      Part2Sums(recs[..n], rs[..n]);
    }
  }

  /** Part 2 over well-formed lines is the sum of the games' powers. */
  lemma {:induction false} Part2Of(recs: seq<Record>, lines: seq<string>)
    requires |lines| == |recs|
    requires forall i :: 0 <= i < |recs| ==> WellFormed(recs[i].game)
    requires forall i :: 0 <= i < |recs| ==> lines[i] == RenderLine(recs[i])
    ensures Part2(lines) == Some(SumPowers(recs))
  {
    var rs := seq(|lines|, i requires 0 <= i < |lines| => ParseLine2(lines[i]));
    forall i | 0 <= i < |recs|
      ensures rs[i].Some? && rs[i].value.1 == Power(Need(recs[i].game))
    {
      ParseLine2Of(recs[i], "");
      assert RenderLine(recs[i]) + "" == lines[i];
    }
    Part2Sums(recs, rs);
  }
}
