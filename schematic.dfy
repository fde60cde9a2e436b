/** Day 3: the engine schematic. Lines are scanned into numbers (location, digit count,
    value) and symbols (location), and each number is checked against the ring of
    cells around it. */
module Schematic {
  import opened Wrappers
  import opened Text

  datatype Loc = Loc(row: nat, col: nat)

  /** A number as recorded: where its first digit is, how many digits, and its value. */
  datatype Number = Number(loc: Loc, len: nat, value: nat)

  /** What `none_of(".0123456789")` accepts. */
  predicate IsSymbol(ch: char) { ch != '.' && !IsDigit(ch) }

  // ---------------------------------------------------------------- the ring of a number

  function StartRow(r: nat): nat { if r == 0 then r else r - 1 }
  function StartCol(c: nat): nat { if c == 0 then c else c - 1 }

  /** The cells of the number itself: row r, columns c .. c+len-1. */
  predicate OnNumber(loc: Loc, len: nat, x: Loc)
  {
    x.row == loc.row && loc.col <= x.col < loc.col + len
  }

  /** The cells `adjacent` is meant to return: the bounding box one cell wider on every
      side (clipped at row and column 0), minus the number itself. */
  predicate InRing(loc: Loc, len: nat, x: Loc)
  {
    && StartRow(loc.row) <= x.row <= loc.row + 1
    && StartCol(loc.col) <= x.col <= loc.col + len
    && !OnNumber(loc, len, x)
  }

  /** The cells the inner loop appends for row ra, for columns StartCol(c) .. hi-1. */
  function RowCells(loc: Loc, len: nat, ra: nat, hi: nat): seq<Loc>
    decreases hi
  {
    if hi <= StartCol(loc.col) then []
    else
      var last := if OnNumber(loc, len, Loc(ra, hi - 1)) then [] else [Loc(ra, hi - 1)];
      RowCells(loc, len, ra, hi - 1) + last
  }

  /** The cells the outer loop has appended once rows StartRow(r) .. hi-1 are done. */
  function Rows(loc: Loc, len: nat, hi: nat): seq<Loc>
    decreases hi
  {
    if hi <= StartRow(loc.row) then []
    else Rows(loc, len, hi - 1) + RowCells(loc, len, hi - 1, loc.col + len + 1)
  }

  /** The list `adjacent` builds, in its order. */
  function Ring(loc: Loc, len: nat): seq<Loc>
  {
    Rows(loc, len, loc.row + 2)
  }

  /** `adjacent`: every row of the box, every column of the box, skipping the number. */
  method Adjacent(loc: Loc, len: nat) returns (v: seq<Loc>)
    ensures v == Ring(loc, len)
  {
    v := [];
    var r, c := loc.row, loc.col;
    for ra := StartRow(r) to r + 2
      invariant v == Rows(loc, len, ra)
    {
      for ca := StartCol(c) to c + len + 1
        invariant v == Rows(loc, len, ra) + RowCells(loc, len, ra, ca)
      {
        ghost var before := v;
        if !(ra == r && c <= ca < c + len) {
          v := v + [Loc(ra, ca)];
        }
        RowCellsStep(loc, len, ra, ca, before, v);
      }
    }
  }

  /** One step of the inner loop of `adjacent` extends the row's cells by one column. */
  lemma RowCellsStep(loc: Loc, len: nat, ra: nat, ca: nat, before: seq<Loc>, after: seq<Loc>)
    requires StartCol(loc.col) <= ca
    requires before == Rows(loc, len, ra) + RowCells(loc, len, ra, ca)
    requires after == if OnNumber(loc, len, Loc(ra, ca)) then before else before + [Loc(ra, ca)]
    ensures after == Rows(loc, len, ra) + RowCells(loc, len, ra, ca + 1)
  {
    if !OnNumber(loc, len, Loc(ra, ca)) {
      var front, row := Rows(loc, len, ra), RowCells(loc, len, ra, ca);
      assert (front + row) + [Loc(ra, ca)] == front + (row + [Loc(ra, ca)]);
    }
  }

  /** Cells in reading order: by row, then by column. */
  predicate Before(x: Loc, y: Loc)
  {
    x.row < y.row || (x.row == y.row && x.col < y.col)
  }

  predicate Increasing(v: seq<Loc>)
  {
    forall i, j :: 0 <= i < j < |v| ==> Before(v[i], v[j])
  }

  /** Two increasing runs, the first wholly before the second, make one. */
  lemma IncreasingAppend(front: seq<Loc>, last: seq<Loc>)
    requires Increasing(front) && Increasing(last)
    requires forall x, y :: x in front && y in last ==> Before(x, y)
    ensures Increasing(front + last)
  {
    var v := front + last;
    forall i, j | 0 <= i < j < |v|
      ensures Before(v[i], v[j])
    {
      if j < |front| {
        assert v[i] == front[i] && v[j] == front[j];
      } else if i < |front| {
        assert v[i] in front && v[j] in last;
      } else {
        assert v[i] == last[i - |front|] && v[j] == last[j - |front|];
      }
    }
  }

  lemma {:induction false} RowCellsShape(loc: Loc, len: nat, ra: nat, hi: nat)
    ensures Increasing(RowCells(loc, len, ra, hi))
    ensures forall x :: x in RowCells(loc, len, ra, hi) <==>
      x.row == ra && StartCol(loc.col) <= x.col < hi && !OnNumber(loc, len, x)
    decreases hi
  {
    if hi > StartCol(loc.col) {
      RowCellsShape(loc, len, ra, hi - 1);
      var front := RowCells(loc, len, ra, hi - 1);
      var last := if OnNumber(loc, len, Loc(ra, hi - 1)) then [] else [Loc(ra, hi - 1)];
      IncreasingAppend(front, last);
    }
  }

  lemma {:induction false} RowsMembers(loc: Loc, len: nat, hi: nat)
    ensures forall x :: x in Rows(loc, len, hi) <==>
      StartRow(loc.row) <= x.row < hi && StartCol(loc.col) <= x.col <= loc.col + len &&
      !OnNumber(loc, len, x)
    decreases hi
  {
    if hi > StartRow(loc.row) {
      RowsMembers(loc, len, hi - 1);
      RowCellsShape(loc, len, hi - 1, loc.col + len + 1);
    }
  }

  lemma {:induction false} RowsShape(loc: Loc, len: nat, hi: nat)
    ensures Increasing(Rows(loc, len, hi))
    decreases hi
  {
    if hi > StartRow(loc.row) {
      var front, last := Rows(loc, len, hi - 1), RowCells(loc, len, hi - 1, loc.col + len + 1);
      RowsShape(loc, len, hi - 1);
      assert Increasing(last) by {
        RowCellsShape(loc, len, hi - 1, loc.col + len + 1);
      }
      assert forall x, y :: x in front && y in last ==> Before(x, y) by {
        RowsBeforeRow(loc, len, hi - 1);
      }
      IncreasingAppend(front, last);
    }
  }

  /** Every cell of the rows done comes before every cell of the next row. */
  lemma RowsBeforeRow(loc: Loc, len: nat, hi: nat)
    ensures forall x, y :: x in Rows(loc, len, hi) && y in RowCells(loc, len, hi, loc.col + len + 1) ==>
      Before(x, y)
  {
    RowsMembers(loc, len, hi);
    RowCellsShape(loc, len, hi, loc.col + len + 1);
  }

  /** The ring holds exactly the cells of the box around the number, never a cell of the
      number, and each cell once. */
  lemma RingCells(loc: Loc, len: nat)
    ensures forall x :: x in Ring(loc, len) <==> InRing(loc, len, x)
    ensures forall x :: x in Ring(loc, len) ==> !OnNumber(loc, len, x)
    ensures forall i, j :: 0 <= i < j < |Ring(loc, len)| ==> Ring(loc, len)[i] != Ring(loc, len)[j]
  {
    RowsMembers(loc, len, loc.row + 2);
    RowsShape(loc, len, loc.row + 2);
  }

  lemma {:induction false} RowCellsSize(loc: Loc, len: nat, ra: nat, hi: nat)
    requires loc.col + len <= hi
    ensures |RowCells(loc, len, ra, hi)| ==
      hi - StartCol(loc.col) - (if ra == loc.row then len else 0)
    decreases hi
  {
    var c0 := StartCol(loc.col);
    if hi > c0 {
      if hi - 1 >= loc.col + len {
        RowCellsSize(loc, len, ra, hi - 1);
      } else {
        // hi == loc.col + len: the last column of the number itself
        RowCellsFrom(loc, len, ra, hi);
      }
    }
  }

  /** Up to the end of the number a row has its cells left of the number, plus the
      number's columns only when it is another row. */
  lemma {:induction false} RowCellsFrom(loc: Loc, len: nat, ra: nat, hi: nat)
    requires hi <= loc.col + len
    ensures |RowCells(loc, len, ra, hi)| ==
      if hi <= StartCol(loc.col) then 0
      else if ra == loc.row && hi > loc.col then loc.col - StartCol(loc.col)
      else hi - StartCol(loc.col)
    decreases hi
  {
    if hi > StartCol(loc.col) {
      RowCellsFrom(loc, len, ra, hi - 1);
    }
  }

  /** The ring has one row fewer at row 0 and one column fewer at column 0. */
  lemma RingSizeAll(loc: Loc, len: nat)
    ensures |Ring(loc, len)| ==
      (if loc.row == 0 then 2 else 3) * (loc.col + len + 1 - StartCol(loc.col)) - len
  {
    var r, hi := loc.row, loc.col + len + 1;
    var w := hi - StartCol(loc.col);
    RowCellsSize(loc, len, r, hi);
    RowCellsSize(loc, len, r + 1, hi);
    assert Ring(loc, len) == Rows(loc, len, r + 1) + RowCells(loc, len, r + 1, hi);
    assert Rows(loc, len, r + 1) == Rows(loc, len, r) + RowCells(loc, len, r, hi);
    if r > 0 {
      RowCellsSize(loc, len, r - 1, hi);
      assert Rows(loc, len, r) == Rows(loc, len, r - 1) + RowCells(loc, len, r - 1, hi);
      assert Rows(loc, len, r - 1) == [];
      assert |Ring(loc, len)| == w + (w - len) + w;
    } else {
      assert Rows(loc, len, r) == [];
      assert |Ring(loc, len)| == (w - len) + w;
    }
  }

  /** Away from row and column 0 the ring has exactly 2*len + 6 cells. */
  lemma RingSize(loc: Loc, len: nat)
    requires loc.row > 0 && loc.col > 0
    ensures |Ring(loc, len)| == 2 * len + 6
  {
    RingSizeAll(loc, len);
  }

  // ---------------------------------------------------------------- the tokens of a line

  /** `parse_dots`: `is_a(".")` takes the whole leading run of dots (at least one), the
      column moves past it and nothing is recorded. */
  function ParseDots(s: string, loc: Loc): (r: Option<(string, Loc)>)
    ensures r.Some? <==> s != [] && s[0] == '.'
    ensures r.Some? ==> var (rest, next) := r.value; var k := |s| - |rest|;
      && 0 < k && rest == s[k..] && (forall i :: 0 <= i < k ==> s[i] == '.')
      && (rest == [] || rest[0] != '.') && next == Loc(loc.row, loc.col + k)
  {
    if s != [] && s[0] == '.' then
      var rest := SkipChar('.', s);
      SkipCharSuffix('.', s);
      Some((rest, Loc(loc.row, loc.col + (|s| - |rest|))))
    else None
  }

  /** What `many0(alt((parse_dots, parse_number, parse_symbol)))` records from the input
      `s` read from `loc` on: the numbers in order, and each symbol with its cell. */
  function Scan(s: string, loc: Loc): (seq<Number>, seq<(Loc, char)>)
    decreases |s|
  {
    if s == [] then ([], [])
    else if s[0] == '.' then
      var (rest, next) := ParseDots(s, loc).value;
      Scan(rest, next)
    else if IsDigit(s[0]) then
      var (ds, rest) := Digit1(s).value;
      var (ns, ys) := Scan(rest, Loc(loc.row, loc.col + |ds|));
      ([Number(loc, |ds|, DecimalValue(ds))] + ns, ys)
    else
      var (ns, ys) := Scan(s[1..], Loc(loc.row, loc.col + 1));
      (ns, [(loc, s[0])] + ys)
  }

  /** `line` has a maximal run of k digits at index j, whose decimal value is v. */
  predicate NumberAt(line: string, j: nat, k: nat, v: nat)
  {
    && 0 < k && j + k <= |line|
    && AllDigits(line[j..j + k])
    && (j == 0 || !IsDigit(line[j - 1]))
    && (j + k == |line| || !IsDigit(line[j + k]))
    && v == DecimalValue(line[j..j + k])
  }

  /** A maximal run that starts inside another maximal run is that run. */
  lemma RunUnique(line: string, i: nat, k: nat, v: nat, j: nat, k2: nat, v2: nat)
    requires NumberAt(line, i, k, v) && NumberAt(line, j, k2, v2) && i <= j < i + k
    ensures j == i && k2 == k && v2 == v
  {
    RunDigits(line, i, k);
    RunDigits(line, j, k2);
  }

  lemma RunDigits(line: string, i: nat, k: nat)
    requires i + k <= |line| && AllDigits(line[i..i + k])
    ensures forall t :: i <= t < i + k ==> IsDigit(line[t])
  {
    forall t | i <= t < i + k
      ensures IsDigit(line[t])
    {
      assert line[i..i + k][t - i] == line[t];
    }
  }

  lemma RunStart(line: string, j: nat, k: nat, v: nat)
    requires NumberAt(line, j, k, v)
    ensures IsDigit(line[j])
  {
    assert line[j..j + k][0] == line[j];
  }

  /** Index i of `line` is not inside a run of digits. */
  predicate Boundary(line: string, i: nat)
  {
    i <= |line| && (i == 0 || i == |line| || !IsDigit(line[i - 1]) || !IsDigit(line[i]))
  }

  /** A line read at a dot skips the whole run of dots. */
  lemma ScanDotsStep(line: string, row: nat, c: nat, i: nat) returns (k: nat)
    requires i < |line| && line[i] == '.'
    ensures 0 < k && i + k <= |line| && (forall t :: i <= t < i + k ==> line[t] == '.')
    ensures i + k == |line| || line[i + k] != '.'
    ensures Scan(line[i..], Loc(row, c + i)) == Scan(line[i + k..], Loc(row, c + (i + k)))
  {
    var s := line[i..];
    var (rest, next) := ParseDots(s, Loc(row, c + i)).value;
    k := |s| - |rest|;
    assert rest == line[i + k..];
    assert forall t :: i <= t < i + k ==> line[t] == s[t - i];
  }

  /** A line read at a digit records the whole run of digits as one number. */
  lemma ScanDigitsStep(line: string, row: nat, c: nat, i: nat) returns (k: nat)
    requires i < |line| && IsDigit(line[i])
    ensures 0 < k && i + k <= |line| && AllDigits(line[i..i + k])
    ensures i + k == |line| || !IsDigit(line[i + k])
    ensures var after := Scan(line[i + k..], Loc(row, c + (i + k)));
      Scan(line[i..], Loc(row, c + i)) ==
        ([Number(Loc(row, c + i), k, DecimalValue(line[i..i + k]))] + after.0, after.1)
  {
    var s := line[i..];
    var (ds, rest) := Digit1(s).value;
    k := |ds|;
    assert ds == line[i..i + k] && rest == line[i + k..];
  }

  /** A line read at any other character records it as a symbol. */
  lemma ScanSymbolStep(line: string, row: nat, c: nat, i: nat)
    requires i < |line| && IsSymbol(line[i])
    ensures var after := Scan(line[i + 1..], Loc(row, c + (i + 1)));
      Scan(line[i..], Loc(row, c + i)) == (after.0, [(Loc(row, c + i), line[i])] + after.1)
  {
    assert line[i..][1..] == line[i + 1..];
  }

  /** `ns` holds exactly the maximal digit runs of `line` from index i on, each at
      its cell in row `row` (columns counted from c). */
  ghost predicate NumbersFrom(line: string, row: nat, c: nat, i: nat, ns: seq<Number>)
  {
    forall n :: n in ns <==>
      n.loc.row == row && c + i <= n.loc.col && NumberAt(line, n.loc.col - c, n.len, n.value)
  }

  /** `ys` holds exactly the symbol cells of `line` from index i on, with their characters. */
  ghost predicate SymbolsFrom(line: string, row: nat, c: nat, i: nat, ys: seq<(Loc, char)>)
  {
    forall y :: y in ys <==>
      && y.0.row == row && c + i <= y.0.col < c + |line|
      && y.1 == line[y.0.col - c] && IsSymbol(y.1)
  }

  lemma NumbersPastDots(line: string, row: nat, c: nat, i: nat, k: nat, ns: seq<Number>)
    requires i + k <= |line| && forall t :: i <= t < i + k ==> line[t] == '.'
    requires NumbersFrom(line, row, c, i + k, ns)
    ensures NumbersFrom(line, row, c, i, ns)
  {
    forall n: Number | c + i <= n.loc.col < c + i + k
      ensures !NumberAt(line, n.loc.col - c, n.len, n.value)
    {
      var j := n.loc.col - c;
      if NumberAt(line, j, n.len, n.value) {
        RunStart(line, j, n.len, n.value);
        assert false;
      }
    }
  }

  lemma NumbersPastRun(line: string, row: nat, c: nat, i: nat, k: nat, ns: seq<Number>)
    requires Boundary(line, i) && 0 < k && i + k <= |line| && AllDigits(line[i..i + k])
    requires i + k == |line| || !IsDigit(line[i + k])
    requires NumbersFrom(line, row, c, i + k, ns)
    ensures NumbersFrom(line, row, c, i,
      [Number(Loc(row, c + i), k, DecimalValue(line[i..i + k]))] + ns)
  {
    var v := DecimalValue(line[i..i + k]);
    assert line[i..i + k][0] == line[i];
    assert NumberAt(line, i, k, v);
    forall n: Number | n.loc.row == row && c + i <= n.loc.col < c + i + k &&
        NumberAt(line, n.loc.col - c, n.len, n.value)
      ensures n == Number(Loc(row, c + i), k, v)
    {
      RunUnique(line, i, k, v, n.loc.col - c, n.len, n.value);
    }
  }

  lemma NumbersPastSymbol(line: string, row: nat, c: nat, i: nat, ns: seq<Number>)
    requires i < |line| && !IsDigit(line[i])
    requires NumbersFrom(line, row, c, i + 1, ns)
    ensures NumbersFrom(line, row, c, i, ns)
  {
    forall n: Number | n.loc.col == c + i
      ensures !NumberAt(line, n.loc.col - c, n.len, n.value)
    {
      if NumberAt(line, i, n.len, n.value) {
        RunStart(line, i, n.len, n.value);
        assert false;
      }
    }
  }

  lemma {:induction false} NumbersDots(line: string, row: nat, c: nat, i: nat)
    requires i < |line| && line[i] == '.'
    ensures NumbersFrom(line, row, c, i, Scan(line[i..], Loc(row, c + i)).0)
    decreases |line| - i, 1
  {
    var k := ScanDotsStep(line, row, c, i);
    ScanNumbers(line, row, c, i + k);
    NumbersPastDots(line, row, c, i, k, Scan(line[i + k..], Loc(row, c + (i + k))).0);
  }

  lemma {:induction false} NumbersRun(line: string, row: nat, c: nat, i: nat)
    requires Boundary(line, i) && i < |line| && IsDigit(line[i])
    ensures NumbersFrom(line, row, c, i, Scan(line[i..], Loc(row, c + i)).0)
    decreases |line| - i, 1
  {
    var k := ScanDigitsStep(line, row, c, i);
    NumbersAfterRun(line, row, c, i, k);
  }

  /** The numbers from i on are the run at i followed by those after it. */
  lemma {:induction false} NumbersAfterRun(line: string, row: nat, c: nat, i: nat, k: nat)
    requires Boundary(line, i) && 0 < k && i + k <= |line| && AllDigits(line[i..i + k])
    requires i + k == |line| || !IsDigit(line[i + k])
    ensures NumbersFrom(line, row, c, i, [Number(Loc(row, c + i), k, DecimalValue(line[i..i + k]))]
      + Scan(line[i + k..], Loc(row, c + (i + k))).0)
    decreases |line| - i, 0
  {
    ScanNumbers(line, row, c, i + k);
    NumbersPastRun(line, row, c, i, k, Scan(line[i + k..], Loc(row, c + (i + k))).0);
  }

  lemma {:induction false} NumbersSymbol(line: string, row: nat, c: nat, i: nat)
    requires i < |line| && IsSymbol(line[i])
    ensures NumbersFrom(line, row, c, i, Scan(line[i..], Loc(row, c + i)).0)
    decreases |line| - i, 1
  {
    ScanSymbolStep(line, row, c, i);
    ScanNumbers(line, row, c, i + 1);
    NumbersPastSymbol(line, row, c, i, Scan(line[i + 1..], Loc(row, c + (i + 1))).0);
  }

  /** The numbers of a list stand at strictly increasing cells in reading order, so
      no cell, and no number, is listed twice. */
  predicate InReadingOrder(ns: seq<Number>)
  {
    forall i, j :: 0 <= i < j < |ns| ==> Before(ns[i].loc, ns[j].loc)
  }

  /** Every token moves the column forward, so `many0` records the numbers of a line
      from left to right, all in the row it was started in and at or after its column. */
  lemma {:induction false} ScanInOrder(s: string, loc: Loc)
    ensures forall n :: n in Scan(s, loc).0 ==> n.loc.row == loc.row && loc.col <= n.loc.col
    ensures InReadingOrder(Scan(s, loc).0)
    decreases |s|
  {
    if s == [] {
    } else if s[0] == '.' {
      var (rest, next) := ParseDots(s, loc).value;
      ScanInOrder(rest, next);
    } else if IsDigit(s[0]) {
      var (ds, rest) := Digit1(s).value;
      var after := Loc(loc.row, loc.col + |ds|);
      ScanInOrder(rest, after);
      var tail := Scan(rest, after).0;
      var ns := [Number(loc, |ds|, DecimalValue(ds))] + tail;
      assert Scan(s, loc).0 == ns;
      forall i, j | 0 <= i < j < |ns|
        ensures Before(ns[i].loc, ns[j].loc)
      {
        assert ns[j] == tail[j - 1];
        if i > 0 {
          assert ns[i] == tail[i - 1];
        }
      }
    } else {
      ScanInOrder(s[1..], Loc(loc.row, loc.col + 1));
    }
  }

  /** Read from a boundary, the numbers recorded are exactly the maximal digit runs from
      there on, each at its own cell with its length and value, in reading order. */
  lemma {:induction false} ScanNumbers(line: string, row: nat, c: nat, i: nat)
    requires Boundary(line, i)
    ensures NumbersFrom(line, row, c, i, Scan(line[i..], Loc(row, c + i)).0)
    ensures InReadingOrder(Scan(line[i..], Loc(row, c + i)).0)
    decreases |line| - i, 2
  {
    ScanInOrder(line[i..], Loc(row, c + i));
    if i == |line| {
      assert line[i..] == [];
    } else if line[i] == '.' {
      NumbersDots(line, row, c, i);
    } else if IsDigit(line[i]) {
      NumbersRun(line, row, c, i);
    } else {
      NumbersSymbol(line, row, c, i);
    }
  }

  lemma SymbolsPastPlain(line: string, row: nat, c: nat, i: nat, k: nat, ys: seq<(Loc, char)>)
    requires i + k <= |line| && forall t :: i <= t < i + k ==> !IsSymbol(line[t])
    requires SymbolsFrom(line, row, c, i + k, ys)
    ensures SymbolsFrom(line, row, c, i, ys)
  {
  }

  lemma SymbolsPastSymbol(line: string, row: nat, c: nat, i: nat, ys: seq<(Loc, char)>)
    requires i < |line| && IsSymbol(line[i])
    requires SymbolsFrom(line, row, c, i + 1, ys)
    ensures SymbolsFrom(line, row, c, i, [(Loc(row, c + i), line[i])] + ys)
  {
  }

  /** A run of digits holds no symbol and adds none to what the rest of the line gives. */
  lemma RunSymbolsStep(line: string, row: nat, c: nat, i: nat) returns (k: nat)
    requires i < |line| && IsDigit(line[i])
    ensures 0 < k && i + k <= |line| && forall t :: i <= t < i + k ==> !IsSymbol(line[t])
    ensures Scan(line[i..], Loc(row, c + i)).1 == Scan(line[i + k..], Loc(row, c + (i + k))).1
  {
    k := ScanDigitsStep(line, row, c, i);
    RunDigits(line, i, k);
  }

  lemma {:induction false} SymbolsDots(line: string, row: nat, c: nat, i: nat)
    requires i < |line| && line[i] == '.'
    ensures SymbolsFrom(line, row, c, i, Scan(line[i..], Loc(row, c + i)).1)
    decreases |line| - i, 1
  {
    var k := ScanDotsStep(line, row, c, i);
    SymbolsAfterPlain(line, row, c, i, k);
  }

  lemma {:induction false} SymbolsRun(line: string, row: nat, c: nat, i: nat)
    requires i < |line| && IsDigit(line[i])
    ensures SymbolsFrom(line, row, c, i, Scan(line[i..], Loc(row, c + i)).1)
    decreases |line| - i, 1
  {
    var k := RunSymbolsStep(line, row, c, i);
    SymbolsAfterPlain(line, row, c, i, k);
  }

  /** The symbols from i on are those after a run of k characters that are no symbol. */
  lemma {:induction false} SymbolsAfterPlain(line: string, row: nat, c: nat, i: nat, k: nat)
    requires 0 < k && i + k <= |line| && forall t :: i <= t < i + k ==> !IsSymbol(line[t])
    ensures SymbolsFrom(line, row, c, i, Scan(line[i + k..], Loc(row, c + (i + k))).1)
    decreases |line| - i, 0
  {
    ScanSymbols(line, row, c, i + k);
    SymbolsPastPlain(line, row, c, i, k, Scan(line[i + k..], Loc(row, c + (i + k))).1);
  }

  lemma {:induction false} SymbolsSymbol(line: string, row: nat, c: nat, i: nat)
    requires i < |line| && IsSymbol(line[i])
    ensures SymbolsFrom(line, row, c, i, Scan(line[i..], Loc(row, c + i)).1)
    decreases |line| - i, 1
  {
    ScanSymbolStep(line, row, c, i);
    SymbolsAfterSymbol(line, row, c, i);
  }

  /** The symbols from i on are the one at i and those after it. */
  lemma {:induction false} SymbolsAfterSymbol(line: string, row: nat, c: nat, i: nat)
    requires i < |line| && IsSymbol(line[i])
    ensures SymbolsFrom(line, row, c, i,
      [(Loc(row, c + i), line[i])] + Scan(line[i + 1..], Loc(row, c + (i + 1))).1)
    decreases |line| - i, 0
  {
    ScanSymbols(line, row, c, i + 1);
    SymbolsPastSymbol(line, row, c, i, Scan(line[i + 1..], Loc(row, c + (i + 1))).1);
  }

  /** The symbols recorded are exactly the cells from there on holding a character
      other than a dot or a digit, each with that character. */
  lemma {:induction false} ScanSymbols(line: string, row: nat, c: nat, i: nat)
    requires i <= |line|
    ensures SymbolsFrom(line, row, c, i, Scan(line[i..], Loc(row, c + i)).1)
    decreases |line| - i, 2
  {
    if i == |line| {
      assert line[i..] == [];
    } else if line[i] == '.' {
      SymbolsDots(line, row, c, i);
    } else if IsDigit(line[i]) {
      SymbolsRun(line, row, c, i);
    } else {
      SymbolsSymbol(line, row, c, i);
    }
  }
}
