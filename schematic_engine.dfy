/** Day 3, the stateful half: the parsers push numbers into a list and symbols into a
    set or a map, `part1` sums the numbers next to a symbol, and `part2` lets every
    number bump the stars around it before summing the gear ratios. */
module SchematicEngine {
  import opened Wrappers
  import opened Text
  import opened Schematic

  /** A symbol as `part2` keeps it: its character, how many numbers touched it, and the
      product of their values. */
  datatype Gear = Gear(ch: char, count: nat, prod: nat)

  /** The cells of a list of recorded symbols. */
  function Cells(ys: seq<(Loc, char)>): set<Loc>
  {
    set y | y in ys :: y.0
  }

  lemma CellsCons(y: (Loc, char), ys: seq<(Loc, char)>)
    ensures Cells([y] + ys) == {y.0} + Cells(ys)
  {
    assert forall z :: z in [y] + ys <==> z == y || z in ys;
  }

  /** `parse_symbol2` inserting `(ch, 0, 1)` for each recorded symbol, in order. */
  function AddGears(g: map<Loc, Gear>, ys: seq<(Loc, char)>): map<Loc, Gear>
    decreases |ys|
  {
    if ys == [] then g else AddGears(g[ys[0].0 := Gear(ys[0].1, 0, 1)], ys[1..])
  }

  /** The numbers and symbols of a whole input, as the line fold leaves them: line k is
      read from Loc(k, 0). */
  function AllNums(lines: seq<string>): seq<Number>
  {
    if lines == [] then []
    else AllNums(lines[..|lines| - 1]) + Scan(lines[|lines| - 1], Loc(|lines| - 1, 0)).0
  }

  function AllSyms(lines: seq<string>): set<Loc>
  {
    if lines == [] then {}
    else AllSyms(lines[..|lines| - 1]) + Cells(Scan(lines[|lines| - 1], Loc(|lines| - 1, 0)).1)
  }

  function AllGears(lines: seq<string>): map<Loc, Gear>
  {
    if lines == [] then map[]
    else AddGears(AllGears(lines[..|lines| - 1]), Scan(lines[|lines| - 1], Loc(|lines| - 1, 0)).1)
  }

  // ---------------------------------------------------------------- the parser state

  class Grid {
    var nums: seq<Number>
    var syms: set<Loc>
    var gears: map<Loc, Gear>

    /** The reading block of `part1`: every line through `parse_line`, the location
        threaded by the fold from Loc(0, 0). */
    constructor Read(lines: seq<string>)
      ensures nums == AllNums(lines) && syms == AllSyms(lines) && gears == map[]
    {
      nums, syms, gears := [], {}, map[];
      new;
      var loc := Loc(0, 0);
      for i := 0 to |lines|
        invariant loc == Loc(i, 0)
        invariant nums == AllNums(lines[..i]) && syms == AllSyms(lines[..i]) && gears == map[]
      {
        loc := ParseLine(lines[i], loc);
        assert lines[..i + 1][..i] == lines[..i];
      }
      assert lines[..|lines|] == lines;
    }

    /** The reading block of `part2`, through `parse_line2`. */
    constructor Read2(lines: seq<string>)
      ensures nums == AllNums(lines) && syms == {} && gears == AllGears(lines)
    {
      nums, syms, gears := [], {}, map[];
      new;
      var loc := Loc(0, 0);
      for i := 0 to |lines|
        invariant loc == Loc(i, 0)
        invariant nums == AllNums(lines[..i]) && syms == {} && gears == AllGears(lines[..i])
      {
        loc := ParseLine2(lines[i], loc);
        assert lines[..i + 1][..i] == lines[..i];
      }
      assert lines[..|lines|] == lines;
    }

    /** `parse_number`: `digit1`, then push (start, digit count, value). */
    method ParseNumber(s: string, loc: Loc) returns (r: Option<(string, Loc)>)
      modifies this
      ensures r.Some? <==> s != [] && IsDigit(s[0])
      ensures r.Some? ==> var (ds, rest) := Digit1(s).value;
        && r.value == (rest, Loc(loc.row, loc.col + |ds|))
        && nums == old(nums) + [Number(loc, |ds|, DecimalValue(ds))]
      ensures r.None? ==> nums == old(nums)
      ensures syms == old(syms) && gears == old(gears)
    {
      var d := Digit1(s);
      if d.None? {
        return None;
      }
      var (ds, rest) := d.value;
      nums := nums + [Number(loc, |ds|, DecimalValue(ds))];
      r := Some((rest, Loc(loc.row, loc.col + |ds|)));
    }

    /** `parse_symbol`: any one character but a dot or a digit; its cell joins the set. */
    method ParseSymbol(s: string, loc: Loc) returns (r: Option<(string, Loc)>)
      modifies this
      ensures r.Some? <==> s != [] && IsSymbol(s[0])
      ensures r.Some? ==> r.value == (s[1..], Loc(loc.row, loc.col + 1)) && syms == old(syms) + {loc}
      ensures r.None? ==> syms == old(syms)
      ensures nums == old(nums) && gears == old(gears)
    {
      if s == [] || !IsSymbol(s[0]) {
        return None;
      }
      syms := syms + {loc};
      r := Some((s[1..], Loc(loc.row, loc.col + 1)));
    }

    /** `parse_symbol2`: the same token, entered in the map as (ch, 0, 1). */
    method ParseSymbol2(s: string, loc: Loc) returns (r: Option<(string, Loc)>)
      modifies this
      ensures r.Some? <==> s != [] && IsSymbol(s[0])
      ensures r.Some? ==>
        r.value == (s[1..], Loc(loc.row, loc.col + 1)) && gears == old(gears)[loc := Gear(s[0], 0, 1)]
      ensures r.None? ==> gears == old(gears)
      ensures nums == old(nums) && syms == old(syms)
    {
      if s == [] || !IsSymbol(s[0]) {
        return None;
      }
      gears := gears[loc := Gear(s[0], 0, 1)];
      r := Some((s[1..], Loc(loc.row, loc.col + 1)));
    }

    /** `parse_line`: tokens until none applies (only at the end of the line), then the
        next row from column 0. */
    method ParseLine(s: string, loc: Loc) returns (next: Loc)
      modifies this
      ensures next == Loc(loc.row + 1, 0)
      ensures nums == old(nums) + Scan(s, loc).0
      ensures syms == old(syms) + Cells(Scan(s, loc).1)
      ensures gears == old(gears)
    {
      var rest, cur := s, loc;
      while true
        invariant old(nums) + Scan(s, loc).0 == nums + Scan(rest, cur).0
        invariant old(syms) + Cells(Scan(s, loc).1) == syms + Cells(Scan(rest, cur).1)
        invariant gears == old(gears) && cur.row == loc.row
        decreases |rest|
      {
        var r := ParseDots(rest, cur);
        if r.None? {
          r := ParseNumber(rest, cur);
        }
        if r.None? {
          r := ParseSymbol(rest, cur);
          if r.Some? {
            CellsCons((cur, rest[0]), Scan(rest[1..], r.value.1).1);
          }
        }
        if r.None? {
          break;
        }
        rest, cur := r.value.0, r.value.1;
      }
      next := Loc(cur.row + 1, 0);
    }

    /** The inner `for_each` of `part2`: every cell of v that holds a star in the map
        counts one more number and multiplies its value in. */
    method BumpStars(v: seq<Loc>, value: nat)
      modifies this
      ensures gears == Bump(old(gears), v, value)
      ensures nums == old(nums) && syms == old(syms)
    {
      for j := 0 to |v|
        invariant gears == Bump(old(gears), v[..j], value)
        invariant nums == old(nums) && syms == old(syms)
      {
        var x := v[j];
        assert v[..j + 1][..j] == v[..j];
        if x in gears && gears[x].ch == '*' {
          gears := gears[x := Bumped(gears[x], value)];
        }
      }
      assert v[..|v|] == v;
    }

    /** `parse_line2`: the same, with the symbols entered in the map. */
    method ParseLine2(s: string, loc: Loc) returns (next: Loc)
      modifies this
      ensures next == Loc(loc.row + 1, 0)
      ensures nums == old(nums) + Scan(s, loc).0
      ensures gears == AddGears(old(gears), Scan(s, loc).1)
      ensures syms == old(syms)
    {
      var rest, cur := s, loc;
      while true
        invariant old(nums) + Scan(s, loc).0 == nums + Scan(rest, cur).0
        invariant AddGears(old(gears), Scan(s, loc).1) == AddGears(gears, Scan(rest, cur).1)
        invariant syms == old(syms) && cur.row == loc.row
        decreases |rest|
      {
        var r := ParseDots(rest, cur);
        if r.None? {
          r := ParseNumber(rest, cur);
        }
        if r.None? {
          r := ParseSymbol2(rest, cur);
        }
        if r.None? {
          break;
        }
        rest, cur := r.value.0, r.value.1;
      }
      next := Loc(cur.row + 1, 0);
    }
  }

  // ---------------------------------------------------------------- what the input holds

  /** n is a maximal digit run of the input, at its row and column. */
  ghost predicate NumberIn(lines: seq<string>, n: Number)
  {
    n.loc.row < |lines| && NumberAt(lines[n.loc.row], n.loc.col, n.len, n.value)
  }

  /** Cell x holds a character other than a dot or a digit. */
  predicate SymbolCell(lines: seq<string>, x: Loc)
  {
    x.row < |lines| && x.col < |lines[x.row]| && IsSymbol(lines[x.row][x.col])
  }

  /** The numbers read from the input are exactly its maximal digit runs, each listed
      once: their cells strictly increase in reading order. */
  lemma {:induction false} AllNumsAre(lines: seq<string>)
    ensures forall n :: n in AllNums(lines) <==> NumberIn(lines, n)
    ensures InReadingOrder(AllNums(lines))
    ensures forall i, j :: 0 <= i < j < |AllNums(lines)| ==> AllNums(lines)[i] != AllNums(lines)[j]
  {
    if lines != [] {
      var k := |lines| - 1;
      var front := lines[..k];
      AllNumsAre(front);
      ScanNumbers(lines[k], k, 0, 0);
      assert lines[k][0..] == lines[k];
      assert forall r :: 0 <= r < k ==> front[r] == lines[r];
      ScanInOrder(lines[k], Loc(k, 0));
      ReadingOrderAppend(AllNums(front), Scan(lines[k], Loc(k, 0)).0, k);
    }
  }

  /** The numbers of the earlier lines all lie in rows above k; those of line k in row k. */
  lemma ReadingOrderAppend(front: seq<Number>, last: seq<Number>, k: nat)
    requires InReadingOrder(front) && InReadingOrder(last)
    requires forall n :: n in front ==> n.loc.row < k
    requires forall n :: n in last ==> n.loc.row == k
    ensures InReadingOrder(front + last)
  {
    var v := front + last;
    forall i, j | 0 <= i < j < |v|
      ensures Before(v[i].loc, v[j].loc)
    {
      if j < |front| {
        assert v[i] == front[i] && v[j] == front[j];
      } else if i < |front| {
        assert v[i] in front && v[j] in last;
      } else {
        assert v[i] == last[i - |front|] && v[j] == last[j - |front|];
      }
    }
  }

  /** The symbol cells read from the input are exactly its symbol cells. */
  lemma {:induction false} AllSymsAre(lines: seq<string>)
    ensures forall x :: x in AllSyms(lines) <==> SymbolCell(lines, x)
  {
    if lines != [] {
      var k := |lines| - 1;
      var front := lines[..k];
      AllSymsAre(front);
      ScanSymbols(lines[k], k, 0, 0);
      assert lines[k][0..] == lines[k];
      assert forall r :: 0 <= r < k ==> front[r] == lines[r];
      forall x
        ensures x in Cells(Scan(lines[k], Loc(k, 0)).1) <==> x.row == k && SymbolCell(lines, x)
      {
        if x.row == k && SymbolCell(lines, x) {
          assert (x, lines[k][x.col]) in Scan(lines[k], Loc(k, 0)).1;
        }
      }
    }
  }

  /** Every entry of g sits on a symbol cell and is that symbol, untouched. */
  ghost predicate Fresh(lines: seq<string>, g: map<Loc, Gear>)
  {
    forall x :: x in g ==> SymbolCell(lines, x) && g[x] == Gear(lines[x.row][x.col], 0, 1)
  }

  lemma {:induction false} AddGearsKeys(g: map<Loc, Gear>, ys: seq<(Loc, char)>)
    ensures forall x :: x in AddGears(g, ys) <==> x in g || x in Cells(ys)
    decreases |ys|
  {
    if ys != [] {
      AddGearsKeys(g[ys[0].0 := Gear(ys[0].1, 0, 1)], ys[1..]);
      assert ys == [ys[0]] + ys[1..];
      CellsCons(ys[0], ys[1..]);
    }
  }

  lemma {:induction false} AddGearsFresh(lines: seq<string>, g: map<Loc, Gear>, ys: seq<(Loc, char)>)
    requires Fresh(lines, g)
    requires forall y :: y in ys ==> SymbolCell(lines, y.0) && y.1 == lines[y.0.row][y.0.col]
    ensures Fresh(lines, AddGears(g, ys))
    decreases |ys|
  {
    if ys != [] {
      assert ys[0] in ys;
      AddGearsFresh(lines, g[ys[0].0 := Gear(ys[0].1, 0, 1)], ys[1..]);
    }
  }

  /** After parsing, the map holds exactly the symbol cells, each as (ch, 0, 1). */
  lemma {:induction false} AllGearsAre(lines: seq<string>)
    ensures forall x :: x in AllGears(lines) <==> SymbolCell(lines, x)
    ensures Fresh(lines, AllGears(lines))
  {
    if lines != [] {
      var k := |lines| - 1;
      var front := lines[..k];
      var ys := Scan(lines[k], Loc(k, 0)).1;
      AllGearsAre(front);
      AllSymsAre(lines);
      AllSymsAre(front);
      assert forall r :: 0 <= r < k ==> front[r] == lines[r];
      assert AllSyms(lines) == AllSyms(front) + Cells(ys);
      AddGearsKeys(AllGears(front), ys);
      ScanSymbols(lines[k], k, 0, 0);
      assert lines[k][0..] == lines[k];
      AddGearsFresh(lines, AllGears(front), ys);
    }
  }

  // ---------------------------------------------------------------- part 1

  /** Some cell of the number's ring holds a symbol. */
  predicate Near(n: Number, syms: set<Loc>)
  {
    exists x :: x in syms && InRing(n.loc, n.len, x)
  }

  /** What `part1` adds up: the values of the numbers that are near a symbol. */
  function SumNear(nums: seq<Number>, syms: set<Loc>): nat
  {
    if nums == [] then 0
    else
      var n := nums[|nums| - 1];
      SumNear(nums[..|nums| - 1], syms) + if Near(n, syms) then n.value else 0
  }

  /** `iter().any(|loc| sym.contains(loc))`, stopping at the first hit. */
  method AnyIn(v: seq<Loc>, syms: set<Loc>) returns (b: bool)
    ensures b <==> exists x :: x in v && x in syms
  {
    b := false;
    var j := 0;
    while j < |v| && !b
      invariant 0 <= j <= |v|
      invariant !b ==> forall t :: 0 <= t < j ==> v[t] !in syms
      invariant b ==> exists x :: x in v && x in syms
    {
      b := v[j] in syms;
      j := j + 1;
    }
  }

  /** `part1`: read every line into the number list and symbol set, then add the value
      of each number whose ring meets the set. */
  method Part1(lines: seq<string>) returns (total: nat)
    ensures total == SumNear(AllNums(lines), AllSyms(lines))
  {
    var grid := new Grid.Read(lines);
    var nums, syms := grid.nums, grid.syms;
    total := 0;
    for i := 0 to |nums|
      invariant total == SumNear(nums[..i], syms)
    {
      var n := nums[i];
      var adj := Adjacent(n.loc, n.len);
      var near := AnyIn(adj, syms);
      RingCells(n.loc, n.len);
      if near {
        total := total + n.value;
      }
      assert nums[..i + 1][..i] == nums[..i];
    }
    assert nums[..|nums|] == nums;
  }

  // ---------------------------------------------------------------- part 2

  /** The values of the numbers (in order) whose ring contains cell x. */
  function Touching(nums: seq<Number>, x: Loc): seq<nat>
  {
    if nums == [] then []
    else
      var n := nums[|nums| - 1];
      Touching(nums[..|nums| - 1], x) + if InRing(n.loc, n.len, x) then [n.value] else []
  }

  function Product(vs: seq<nat>): nat
  {
    if vs == [] then 1 else Product(vs[..|vs| - 1]) * vs[|vs| - 1]
  }

  /** The update of one entry: a star counts one more number and multiplies it in. */
  function Bumped(g: Gear, value: nat): Gear
  {
    Gear(g.ch, g.count + 1, g.prod * value)
  }

  /** The inner `for_each`: each cell of v that holds a star in g is bumped. */
  function Bump(g: map<Loc, Gear>, v: seq<Loc>, value: nat): map<Loc, Gear>
  {
    if v == [] then g
    else
      var h, x := Bump(g, v[..|v| - 1], value), v[|v| - 1];
      if x in h && h[x].ch == '*' then h[x := Bumped(h[x], value)] else h
  }

  /** The outer `for_each`: every number bumps the stars of its ring. */
  function Spread(g: map<Loc, Gear>, nums: seq<Number>): map<Loc, Gear>
  {
    if nums == [] then g
    else
      var n := nums[|nums| - 1];
      Bump(Spread(g, nums[..|nums| - 1]), Ring(n.loc, n.len), n.value)
  }

  /** A list without repeats bumps each of its stars exactly once and nothing else. */
  lemma {:induction false} BumpAt(g: map<Loc, Gear>, v: seq<Loc>, value: nat)
    requires forall i, j :: 0 <= i < j < |v| ==> v[i] != v[j]
    ensures Bump(g, v, value).Keys == g.Keys
    ensures forall x :: x in g ==>
      Bump(g, v, value)[x] == if x in v && g[x].ch == '*' then Bumped(g[x], value) else g[x]
  {
    if v != [] {
      var front := v[..|v| - 1];
      BumpAt(g, front, value);
      assert v[|v| - 1] !in front;
      assert forall x :: x in v <==> x in front || x == v[|v| - 1];
    }
  }

  /** A number bumps exactly the stars in its ring, once each. */
  lemma BumpRing(g: map<Loc, Gear>, n: Number)
    ensures Bump(g, Ring(n.loc, n.len), n.value).Keys == g.Keys
    ensures forall x :: x in g ==>
      Bump(g, Ring(n.loc, n.len), n.value)[x] ==
        if InRing(n.loc, n.len, x) && g[x].ch == '*' then Bumped(g[x], n.value) else g[x]
  {
    RingCells(n.loc, n.len);
    BumpAt(g, Ring(n.loc, n.len), n.value);
  }

  /** One more number: a star in its ring counts it and multiplies its value in. */
  lemma SpreadStep(nums: seq<Number>, x: Loc, before: Gear, after: Gear, count: nat, prod: nat)
    requires nums != [] && before.ch == '*'
    requires var front := nums[..|nums| - 1];
      before == Gear('*', count + |Touching(front, x)|, prod * Product(Touching(front, x)))
    requires var n := nums[|nums| - 1];
      after == if InRing(n.loc, n.len, x) then Bumped(before, n.value) else before
    ensures after == Gear('*', count + |Touching(nums, x)|, prod * Product(Touching(nums, x)))
  {
    var front, n := nums[..|nums| - 1], nums[|nums| - 1];
    var t := Touching(front, x);
    if InRing(n.loc, n.len, x) {
      assert Touching(nums, x) == t + [n.value];
      assert (t + [n.value])[..|t|] == t;
      assert prod * Product(t) * n.value == prod * (Product(t) * n.value);
    } else {
      assert Touching(nums, x) == t;
    }
  }

  /** After every number has had its turn, a star has counted exactly the numbers whose
      ring holds it and multiplied in their values; other entries are as they were. */
  lemma {:induction false} SpreadAt(g: map<Loc, Gear>, nums: seq<Number>)
    ensures Spread(g, nums).Keys == g.Keys
    ensures forall x :: x in g ==>
      Spread(g, nums)[x] ==
        if g[x].ch == '*' then
          Gear('*', g[x].count + |Touching(nums, x)|, g[x].prod * Product(Touching(nums, x)))
        else g[x]
  {
    if nums != [] {
      var front, n := nums[..|nums| - 1], nums[|nums| - 1];
      var h := Spread(g, front);
      SpreadAt(g, front);
      BumpRing(h, n);
      forall x | x in g && g[x].ch == '*'
        ensures Spread(g, nums)[x] ==
          Gear('*', g[x].count + |Touching(nums, x)|, g[x].prod * Product(Touching(nums, x)))
      {
        SpreadStep(nums, x, h[x], Spread(g, nums)[x], g[x].count, g[x].prod);
      }
    }
  }

  /** A gear's ratio: the product of its two numbers, or nothing. */
  function Ratio(g: Gear): nat
  {
    if g.count == 2 then g.prod else 0
  }

  /** The final fold of `part2`, taken over the map in any order. */
  ghost function GearSum(m: map<Loc, Gear>): nat
    decreases m.Keys
  {
    if m == map[] then 0
    else
      var k :| k in m;
      assert (m - {k}).Keys < m.Keys;
      Ratio(m[k]) + GearSum(m - {k})
  }

  /** The sum does not depend on which entry is taken first. */
  lemma {:induction false} GearSumRemove(m: map<Loc, Gear>, k: Loc)
    requires k in m
    ensures GearSum(m) == Ratio(m[k]) + GearSum(m - {k})
    decreases m.Keys
  {
    var j :| j in m && GearSum(m) == Ratio(m[j]) + GearSum(m - {j});
    if j != k {
      assert (m - {j}).Keys < m.Keys && (m - {k}).Keys < m.Keys;
      GearSumRemove(m - {j}, k);
      GearSumRemove(m - {k}, j);
      assert m - {j} - {k} == m - {k} - {j};
    }
  }

  /** The entries of m at the cells in ks. */
  function Restrict(m: map<Loc, Gear>, ks: set<Loc>): map<Loc, Gear>
    requires ks <= m.Keys
  {
    map k | k in ks :: m[k]
  }

  /** `sym.iter().fold(..)`: add the ratio of every entry. */
  method SumRatios(m: map<Loc, Gear>) returns (total: nat)
    ensures total == GearSum(m)
  {
    total := 0;
    var ks := m.Keys;
    assert Restrict(m, ks) == m;
    while ks != {}
      invariant ks <= m.Keys
      invariant total + GearSum(Restrict(m, ks)) == GearSum(m)
      decreases ks
    {
      var k :| k in ks;
      GearSumRemove(Restrict(m, ks), k);
      assert Restrict(m, ks) - {k} == Restrict(m, ks - {k});
      total := total + Ratio(m[k]);
      ks := ks - {k};
    }
  }

  /** `part2`: read every line into the number list and symbol map, let every number
      bump the stars around it, then sum the ratios. */
  method Part2(lines: seq<string>) returns (total: nat)
    ensures total == GearSum(Spread(AllGears(lines), AllNums(lines)))
  {
    var grid := new Grid.Read2(lines);
    var nums, g0 := grid.nums, grid.gears;
    for i := 0 to |nums|
      invariant grid.gears == Spread(g0, nums[..i])
    {
      var n := nums[i];
      var adj := Adjacent(n.loc, n.len);
      grid.BumpStars(adj, n.value);
      assert nums[..i + 1][..i] == nums[..i];
    }
    assert nums[..|nums|] == nums;
    total := SumRatios(grid.gears);
  }

  /** The map `part2` sums, in the terms of the puzzle: one entry per symbol cell; a
      star has counted the numbers around it and multiplied their values, and any other
      symbol is still (ch, 0, 1). */
  lemma Part2Gears(lines: seq<string>)
    ensures var m, nums := Spread(AllGears(lines), AllNums(lines)), AllNums(lines);
      && (forall x :: x in m <==> SymbolCell(lines, x))
      && (forall x :: x in m ==>
        m[x] == if lines[x.row][x.col] == '*' then
          Gear('*', |Touching(nums, x)|, Product(Touching(nums, x)))
        else Gear(lines[x.row][x.col], 0, 1))
  {
    AllGearsAre(lines);
    SpreadAt(AllGears(lines), AllNums(lines));
  }
}
