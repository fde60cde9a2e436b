/** The piecewise-offset maps of src/day-05.rs as values: a map is a list of
    (destination start, source start, length) triples. This module holds the
    scalar lookup (`Map::get`) and the completion of a partial map into a total
    one (`Map::complete`), with the laws they obey. The class that owns a map and
    changes it in place is in module Almanac. */
module RangeMap {
  import opened Sorting

  /** `u64::MAX / 2`: completion covers the domain [0, MAX]. */
  const MAX: nat := 0x7FFF_FFFF_FFFF_FFFF

  /** `u64::MAX`, the start value of the scalar minimum. */
  const U64_MAX: nat := 0xFFFF_FFFF_FFFF_FFFF

  /** Maps source values [src, src + len) to [dest, dest + len) by a constant offset. */
  datatype Triple = Triple(dest: nat, src: nat, len: nat)

  function SrcEnd(t: Triple): nat { t.src + t.len }

  function DestEnd(t: Triple): nat { t.dest + t.len }

  predicate InSrc(t: Triple, x: nat) { t.src <= x < t.src + t.len }

  function Apply(t: Triple, x: nat): nat
    requires t.src <= x
  {
    x - t.src + t.dest
  }

  function Identity(start: nat, len: nat): Triple { Triple(start, start, len) }

  /** `Map::get`: the first triple, in list order, whose source range holds `x`
      maps it; a value no triple holds maps to itself. */
  function Lookup(m: seq<Triple>, x: nat): nat
  {
    if m == [] then x
    else if InSrc(m[0], x) then Apply(m[0], x)
    else Lookup(m[1..], x)
  }

  predicate Covered(m: seq<Triple>, x: nat)
  {
    exists t :: t in m && InSrc(t, x)
  }

  /** Every triple that holds `x` sends it to the same value, so the order of the
      list does not matter to Lookup. */
  ghost predicate Functional(m: seq<Triple>)
  {
    forall t, u, x: nat {:trigger InSrc(t, x), InSrc(u, x)} :: t in m && u in m && InSrc(t, x) && InSrc(u, x) ==> Apply(t, x) == Apply(u, x)
  }

  /** Every triple has a non-empty range (the data's `length > 0`). */
  predicate Positive(m: seq<Triple>)
  {
    forall t :: t in m ==> t.len > 0
  }

  predicate Disjoint(t: Triple, u: Triple)
  {
    SrcEnd(t) <= u.src || SrcEnd(u) <= t.src
  }

  /** Distinct triples have disjoint source ranges. */
  predicate SrcDisjoint(m: seq<Triple>)
  {
    forall t, u :: t in m && u in m && t != u ==> Disjoint(t, u)
  }

  predicate SrcBounded(m: seq<Triple>)
  {
    forall t :: t in m ==> SrcEnd(t) <= MAX + 1
  }

  predicate DestBounded(m: seq<Triple>)
  {
    forall t :: t in m ==> DestEnd(t) <= MAX + 1
  }

  ghost predicate CoversDomain(m: seq<Triple>)
  {
    forall x: nat :: x <= MAX ==> Covered(m, x)
  }

  // ---------------------------------------------------------------------------
  // Lookup

  /** A value outside every source range is returned unchanged. */
  lemma {:induction false} LookupUncovered(m: seq<Triple>, x: nat)
    requires !Covered(m, x)
    ensures Lookup(m, x) == x
  {
    if m != [] {
      assert m[0] in m;
      assert forall t :: t in m[1..] ==> t in m;
      LookupUncovered(m[1..], x);
    }
  }

  /** A value is mapped by the first triple (in list order) that holds it. */
  lemma {:induction false} LookupFirst(m: seq<Triple>, k: nat, x: nat)
    requires k < |m| && InSrc(m[k], x)
    requires forall j :: 0 <= j < k ==> !InSrc(m[j], x)
    ensures Lookup(m, x) == Apply(m[k], x)
  {
    if k > 0 {
      LookupFirst(m[1..], k - 1, x);
    }
  }

  /** When all triples holding `x` agree on `v`, Lookup returns `v`. */
  lemma {:induction false} LookupAgrees(m: seq<Triple>, x: nat, v: nat)
    requires Covered(m, x)
    requires forall u :: u in m && InSrc(u, x) ==> Apply(u, x) == v
    ensures Lookup(m, x) == v
  {
    if !InSrc(m[0], x) {
      var t :| t in m && InSrc(t, x);
      assert t in m[1..] by { assert m == [m[0]] + m[1..]; }
      assert forall u :: u in m[1..] ==> u in m;
      LookupAgrees(m[1..], x, v);
    }
  }

  /** On a functional map, any triple holding `x` gives Lookup's answer. */
  lemma LookupCovered(m: seq<Triple>, t: Triple, x: nat)
    requires Functional(m) && t in m && InSrc(t, x)
    ensures Lookup(m, x) == Apply(t, x)
  {
    LookupAgrees(m, x, Apply(t, x));
  }

  lemma {:induction false} LookupAppend(a: seq<Triple>, b: seq<Triple>, x: nat)
    ensures Lookup(a + b, x) == if Covered(a, x) then Lookup(a, x) else Lookup(b, x)
  {
    if a == [] {
      assert a + b == b;
    } else {
      assert (a + b)[0] == a[0];
      assert (a + b)[1..] == a[1..] + b;
      LookupAppend(a[1..], b, x);
      assert a == [a[0]] + a[1..];
      assert Covered(a, x) <==> InSrc(a[0], x) || Covered(a[1..], x);
    }
  }

  /** A map made only of identity triples is the identity. */
  lemma {:induction false} LookupIdentities(m: seq<Triple>, x: nat)
    requires forall t :: t in m ==> t.dest == t.src
    ensures Lookup(m, x) == x
  {
    if m != [] {
      assert m[0] in m;
      assert forall t :: t in m[1..] ==> t in m;
      LookupIdentities(m[1..], x);
    }
  }

  /** Two lists with the same triples give the same functional map. */
  lemma SameTriplesLookup(a: seq<Triple>, b: seq<Triple>, x: nat)
    requires Functional(a)
    requires forall t :: t in a <==> t in b
    ensures Functional(b)
    ensures Covered(a, x) <==> Covered(b, x)
    ensures Lookup(a, x) == Lookup(b, x)
  {
    if Covered(a, x) {
      var t :| t in a && InSrc(t, x);
      LookupCovered(a, t, x);
      LookupCovered(b, t, x);
    } else {
      LookupUncovered(a, x);
      LookupUncovered(b, x);
    }
  }

  lemma DisjointIsFunctional(m: seq<Triple>)
    requires SrcDisjoint(m)
    ensures Functional(m)
  {
    forall t, u, x: nat | t in m && u in m && InSrc(t, x) && InSrc(u, x)
      ensures Apply(t, x) == Apply(u, x)
    {
    }
  }

  // ---------------------------------------------------------------------------
  // Completion

  function SrcKey(t: Triple): nat { t.src }

  function DestKey(t: Triple): nat { t.dest }

  /** `sort_by` on the source start. */
  function SortBySrc(m: seq<Triple>): (r: seq<Triple>)
    ensures |r| == |m|
    ensures forall t :: t in r <==> t in m
  {
    SortBy(m, SrcKey)
  }

  /** `sort_by` on the destination start. */
  function SortByDest(m: seq<Triple>): (r: seq<Triple>)
    ensures |r| == |m|
    ensures forall t :: t in r <==> t in m
  {
    SortBy(m, DestKey)
  }

  /** The fill below the first source range, when it does not start at 0. */
  function Leading(v: seq<Triple>): seq<Triple>
    requires v != []
  {
    if v[0].src > 0 then [Identity(0, v[0].src)] else []
  }

  /** The fill for the window (v[k], v[k+1]) when the first ends before the second starts. */
  function GapAt(v: seq<Triple>, k: nat): seq<Triple>
    requires k + 1 < |v|
  {
    var e := SrcEnd(v[k]);
    if e < v[k + 1].src then [Identity(e, v[k + 1].src - e)] else []
  }

  /** The fills of the windows `v.windows(2)` that lie inside v[..n], in order. */
  function GapsBefore(v: seq<Triple>, n: nat): seq<Triple>
    requires n <= |v|
  {
    if n < 2 then [] else GapsBefore(v, n - 1) + GapAt(v, n - 2)
  }

  /** The fill from the end of the last source range up to MAX inclusive. */
  function TailFill(v: seq<Triple>): seq<Triple>
    requires v != []
  {
    var last := SrcEnd(v[|v| - 1]);
    if last <= MAX then [Identity(last, MAX - last + 1)] else []
  }

  /** The `additional` vector that `complete` builds from the sorted list. */
  function Additional(v: seq<Triple>): seq<Triple>
    requires v != []
  {
    Leading(v) + GapsBefore(v, |v|) + TailFill(v)
  }

  /** The list `complete` leaves behind: sorted by source, then the fills. */
  function Completed(m: seq<Triple>): seq<Triple>
    requires m != []
  {
    var v := SortBySrc(m);
    v + Additional(v)
  }

  /** Every fill is an identity triple with a non-empty range. */
  lemma {:induction false} GapsAreIdentities(v: seq<Triple>, n: nat)
    requires n <= |v|
    ensures forall g :: g in GapsBefore(v, n) ==> g.dest == g.src && g.len > 0
  {
    if n >= 2 {
      GapsAreIdentities(v, n - 1);
    }
  }

  /** Each fill between neighbours is the gap of one window. */
  lemma {:induction false} GapsShape(v: seq<Triple>, n: nat)
    requires n <= |v|
    ensures forall g :: g in GapsBefore(v, n) ==>
      exists k :: 0 <= k && k + 1 < n && SrcEnd(v[k]) < v[k + 1].src &&
                  g == Identity(SrcEnd(v[k]), v[k + 1].src - SrcEnd(v[k]))
  {
    if n >= 2 {
      GapsShape(v, n - 1);
    }
  }

  /** Each window with a hole produces its fill. */
  lemma {:induction false} GapsHave(v: seq<Triple>, n: nat, k: nat)
    requires n <= |v| && k + 1 < n && SrcEnd(v[k]) < v[k + 1].src
    ensures Identity(SrcEnd(v[k]), v[k + 1].src - SrcEnd(v[k])) in GapsBefore(v, n)
  {
    if k + 2 < n {
      GapsHave(v, n - 1, k);
    }
  }

  /** On a list sorted by source with disjoint non-empty ranges, an earlier triple
      either repeats a later one or ends where the later one starts or before. */
  lemma SortedBefore(v: seq<Triple>, i: nat, j: nat)
    requires SortedBy(v, SrcKey) && SrcDisjoint(v) && Positive(v)
    requires i < j < |v|
    ensures v[i] == v[j] || SrcEnd(v[i]) <= v[j].src
    ensures SrcEnd(v[i]) <= SrcEnd(v[j])
  {
    assert SrcKey(v[i]) <= SrcKey(v[j]);
    assert v[i] in v && v[j] in v;
    if v[i] != v[j] {
      assert Disjoint(v[i], v[j]);
    }
  }

  /** Completion keeps every triple of the map, with its multiplicity. */
  lemma CompletedKeeps(m: seq<Triple>)
    requires m != []
    ensures multiset(m) <= multiset(Completed(m))
  {
    SortByPermutes(m, SrcKey);
  }

  /** Completion appends only identity triples with non-empty ranges, each lying
      outside every original source range. */
  lemma CompletedFills(m: seq<Triple>)
    requires m != [] && Positive(m) && SrcDisjoint(m)
    ensures forall g :: g in Completed(m)[|m|..] ==>
      g.dest == g.src && g.len > 0 && forall t :: t in m ==> Disjoint(t, g)
  {
    var v := SortBySrc(m);
    SortBySorted(m, SrcKey);
    assert Completed(m)[|m|..] == Additional(v);
    GapsAreIdentities(v, |v|);
    CrossDisjoint(v);
  }

  /** Completion does not change what Lookup answers. */
  lemma CompletedLookup(m: seq<Triple>, x: nat)
    requires m != [] && Functional(m)
    ensures Lookup(Completed(m), x) == Lookup(m, x)
  {
    var v := SortBySrc(m);
    SortBySorted(m, SrcKey);
    var add := Additional(v);
    LookupAppend(v, add, x);
    SameTriplesLookup(m, v, x);
    if !Covered(v, x) {
      GapsAreIdentities(v, |v|);
      LookupIdentities(add, x);
      LookupUncovered(m, x);
    }
  }

  predicate Ordered(s: seq<Triple>)
  {
    forall p, q :: 0 <= p < q < |s| ==> SrcEnd(s[p]) <= s[q].src
  }

  lemma OrderedAppend(a: seq<Triple>, b: seq<Triple>)
    requires Ordered(a) && Ordered(b)
    requires forall t, u :: t in a && u in b ==> SrcEnd(t) <= u.src
    ensures Ordered(a + b)
  {
    forall p, q | 0 <= p < q < |a + b| ensures SrcEnd((a + b)[p]) <= (a + b)[q].src {
      if q < |a| {
      } else if p < |a| {
        assert (a + b)[p] in a && (a + b)[q] in b;
      } else {
        assert (a + b)[p] == b[p - |a|] && (a + b)[q] == b[q - |a|];
      }
    }
  }

  lemma OrderedIsDisjoint(s: seq<Triple>)
    requires Ordered(s)
    ensures SrcDisjoint(s)
  {
    forall t, u | t in s && u in s && t != u ensures Disjoint(t, u) {
      var p :| 0 <= p < |s| && s[p] == t;
      var q :| 0 <= q < |s| && s[q] == u;
      assert p != q;
    }
  }

  /** The fills between neighbours lie between the end of the first source range
      and the start of the last one considered. */
  lemma {:induction false} GapsWithin(v: seq<Triple>, n: nat)
    requires SortedBy(v, SrcKey) && SrcDisjoint(v) && Positive(v)
    requires 2 <= n <= |v|
    ensures forall g :: g in GapsBefore(v, n) ==> SrcEnd(v[0]) <= g.src && SrcEnd(g) <= v[n - 1].src
  {
    if n > 2 {
      GapsWithin(v, n - 1);
      SortedBefore(v, n - 2, n - 1);
      SortedBefore(v, 0, n - 2);
    } else {
      SortedBefore(v, 0, 1);
    }
  }

  /** The fills between neighbours come out in ascending, non-overlapping order. */
  lemma {:induction false} GapsOrdered(v: seq<Triple>, n: nat)
    requires SortedBy(v, SrcKey) && SrcDisjoint(v) && Positive(v)
    requires 2 <= n <= |v|
    ensures Ordered(GapsBefore(v, n))
    ensures forall g :: g in GapsBefore(v, n) ==> SrcEnd(v[0]) <= g.src && SrcEnd(g) <= v[n - 1].src
  {
    GapsWithin(v, n);
    if n > 2 {
      GapsOrdered(v, n - 1);
      var a := GapsBefore(v, n - 1);
      var b := GapAt(v, n - 2);
      GapsWithin(v, n - 1);
      SortedBefore(v, n - 2, n - 1);
      forall t, u | t in a && u in b ensures SrcEnd(t) <= u.src {
        assert SrcEnd(t) <= v[n - 2].src;
      }
      OrderedAppend(a, b);
    }
  }

  /** The whole `additional` vector is ascending and non-overlapping. */
  lemma AdditionalOrdered(v: seq<Triple>)
    requires v != [] && SortedBy(v, SrcKey) && SrcDisjoint(v) && Positive(v)
    ensures Ordered(Additional(v))
  {
    var n := |v|;
    var l, g, t := Leading(v), GapsBefore(v, n), TailFill(v);
    if n >= 2 {
      GapsOrdered(v, n);
      SortedBefore(v, n - 2, n - 1);
      forall a, b | a in l && b in g ensures SrcEnd(a) <= b.src {
        assert SrcEnd(a) == v[0].src;
      }
      OrderedAppend(l, g);
      forall a, b | a in l + g && b in t ensures SrcEnd(a) <= b.src {
        if a in l {
          SortedBefore(v, 0, n - 1);
        } else {
          assert SrcEnd(a) <= v[n - 1].src;
        }
      }
      OrderedAppend(l + g, t);
    } else {
      assert g == [];
      assert l + g == l;
      OrderedAppend(l, t);
    }
  }

  /** Each fill is disjoint from each triple of the sorted list. */
  lemma CrossDisjoint(v: seq<Triple>)
    requires v != [] && SortedBy(v, SrcKey) && SrcDisjoint(v) && Positive(v)
    ensures forall t, g :: t in v && g in Additional(v) ==> Disjoint(t, g)
  {
    forall t, g | t in v && g in Additional(v) ensures Disjoint(t, g) {
      var i :| 0 <= i < |v| && v[i] == t;
      CrossOne(v, i, g);
    }
  }

  lemma CrossOne(v: seq<Triple>, i: nat, g: Triple)
    requires v != [] && SortedBy(v, SrcKey) && SrcDisjoint(v) && Positive(v)
    requires i < |v| && g in Additional(v)
    ensures Disjoint(v[i], g)
  {
    var n := |v|;
    if g in Leading(v) {
      assert SrcKey(v[0]) <= SrcKey(v[i]);
    } else if g in TailFill(v) {
      if i < n - 1 { SortedBefore(v, i, n - 1); }
    } else {
      assert g in GapsBefore(v, n);
      GapsShape(v, n);
      var k :| 0 <= k && k + 1 < n && SrcEnd(v[k]) < v[k + 1].src &&
               g == Identity(SrcEnd(v[k]), v[k + 1].src - SrcEnd(v[k]));
      CrossGap(v, i, k);
    }
  }

  lemma CrossGap(v: seq<Triple>, i: nat, k: nat)
    requires SortedBy(v, SrcKey) && SrcDisjoint(v) && Positive(v)
    requires i < |v| && k + 1 < |v| && SrcEnd(v[k]) < v[k + 1].src
    ensures Disjoint(v[i], Identity(SrcEnd(v[k]), v[k + 1].src - SrcEnd(v[k])))
  {
    if i < k {
      SortedBefore(v, i, k);
    } else if i > k + 1 {
      assert SrcKey(v[k + 1]) <= SrcKey(v[i]);
    }
  }

  /** Every value of [0, MAX] from the start of v[k] on lies in some piece. */
  lemma {:induction false} CoverFrom(v: seq<Triple>, k: nat, x: nat)
    requires v != [] && k < |v| && v[k].src <= x <= MAX
    ensures Covered(v + Additional(v), x)
    decreases |v| - k
  {
    var c := v + Additional(v);
    if x < SrcEnd(v[k]) {
      assert v[k] in c;
    } else if k + 1 < |v| {
      if x < v[k + 1].src {
        GapsHave(v, |v|, k);
        var g := Identity(SrcEnd(v[k]), v[k + 1].src - SrcEnd(v[k]));
        assert g in Additional(v);
        assert g in c && InSrc(g, x);
      } else {
        CoverFrom(v, k + 1, x);
      }
    } else {
      var last := SrcEnd(v[|v| - 1]);
      assert Identity(last, MAX - last + 1) in TailFill(v);
      assert Identity(last, MAX - last + 1) in c;
    }
  }

  /** After completion the source ranges tile [0, MAX]: they are non-empty and
      disjoint, cover every value up to MAX, and (for a map inside the domain) no
      value beyond. */
  lemma CompletedTiles(m: seq<Triple>)
    requires m != [] && Positive(m) && SrcDisjoint(m)
    ensures Positive(Completed(m)) && SrcDisjoint(Completed(m)) && CoversDomain(Completed(m))
    ensures SrcBounded(m) ==> SrcBounded(Completed(m)) && forall x: nat :: Covered(Completed(m), x) <==> x <= MAX
    ensures DestBounded(m) && SrcBounded(m) ==> DestBounded(Completed(m))
  {
    var v := SortBySrc(m);
    SortBySorted(m, SrcKey);
    var add := Additional(v);
    var c := v + add;
    GapsAreIdentities(v, |v|);
    AdditionalOrdered(v);
    OrderedIsDisjoint(add);
    CrossDisjoint(v);
    forall t, u | t in c && u in c && t != u ensures Disjoint(t, u) {
      if t in v && u in v {
      } else if t in v {
      } else if u in v {
        assert Disjoint(u, t);
      }
    }
    forall x: nat | x <= MAX ensures Covered(c, x) {
      if x < v[0].src {
        assert Identity(0, v[0].src) in c;
      } else {
        CoverFrom(v, 0, x);
      }
    }
    if SrcBounded(m) {
      GapBounds(v);
      forall x: nat ensures Covered(c, x) <==> x <= MAX {
        if Covered(c, x) {
          var t :| t in c && InSrc(t, x);
        }
      }
    }
  }

  /** Fills end no later than MAX + 1 when the sorted list does. */
  lemma GapBounds(v: seq<Triple>)
    requires v != [] && SrcBounded(v)
    ensures SrcBounded(Additional(v))
  {
    var l, gs, t := Leading(v), GapsBefore(v, |v|), TailFill(v);
    GapsShape(v, |v|);
    assert SrcBounded(gs) by {
      forall g | g in gs ensures SrcEnd(g) <= MAX + 1 {
        var k :| 0 <= k && k + 1 < |v| && SrcEnd(v[k]) < v[k + 1].src &&
                 g == Identity(SrcEnd(v[k]), v[k + 1].src - SrcEnd(v[k]));
        assert v[k + 1] in v;
      }
    }
    assert SrcBounded(l) by {
      assert v[0] in v;
    }
    assert Additional(v) == l + gs + t;
  }

  /** A map that already tiles [0, MAX] gets no fills. */
  lemma TiledAddsNothing(m: seq<Triple>)
    requires m != [] && Positive(m) && SrcDisjoint(m) && SrcBounded(m) && CoversDomain(m)
    ensures Additional(SortBySrc(m)) == []
    ensures Completed(m) == SortBySrc(m)
  {
    var v := SortBySrc(m);
    SortBySorted(m, SrcKey);
    var n := |v|;
    assert CoversDomain(v) by {
      forall x: nat | x <= MAX ensures Covered(v, x) { assert Covered(m, x); }
    }
    TiledNoLeading(v);
    forall k | 0 <= k && k + 1 < n ensures GapAt(v, k) == [] {
      TiledNoGap(v, k);
    }
    NoGaps(v, n);
    TiledNoTail(v);
  }

  lemma TiledNoLeading(v: seq<Triple>)
    requires v != [] && SortedBy(v, SrcKey) && CoversDomain(v)
    ensures Leading(v) == []
  {
    assert Covered(v, 0);
    var z :| z in v && InSrc(z, 0);
    var iz :| 0 <= iz < |v| && v[iz] == z;
    if iz > 0 { assert SrcKey(v[0]) <= SrcKey(v[iz]); }
  }

  lemma TiledNoGap(v: seq<Triple>, k: nat)
    requires SortedBy(v, SrcKey) && SrcDisjoint(v) && Positive(v) && SrcBounded(v) && CoversDomain(v)
    requires k + 1 < |v|
    ensures GapAt(v, k) == []
  {
    var e := SrcEnd(v[k]);
    if e < v[k + 1].src {
      assert v[k + 1] in v;
      assert Covered(v, e);
      var t :| t in v && InSrc(t, e);
      var i :| 0 <= i < |v| && v[i] == t;
      if i < k {
        SortedBefore(v, i, k);
      }
    }
  }

  lemma TiledNoTail(v: seq<Triple>)
    requires v != [] && SortedBy(v, SrcKey) && SrcDisjoint(v) && Positive(v) && CoversDomain(v)
    ensures TailFill(v) == []
  {
    var n := |v|;
    assert Covered(v, MAX);
    var t :| t in v && InSrc(t, MAX);
    var i :| 0 <= i < n && v[i] == t;
    if i < n - 1 { SortedBefore(v, i, n - 1); }
  }

  lemma {:induction false} NoGaps(v: seq<Triple>, n: nat)
    requires n <= |v|
    requires forall k :: 0 <= k && k + 1 < n ==> GapAt(v, k) == []
    ensures GapsBefore(v, n) == []
  {
    if n >= 2 {
      NoGaps(v, n - 1);
    }
  }

  /** Completing twice adds nothing the second time: the second pass only
      re-sorts the list the first one produced. */
  lemma CompleteIdempotent(m: seq<Triple>)
    requires m != [] && Positive(m) && SrcDisjoint(m) && SrcBounded(m)
    ensures Completed(Completed(m)) == SortBySrc(Completed(m))
    ensures multiset(Completed(Completed(m))) == multiset(Completed(m))
  {
    CompletedTiles(m);
    TiledAddsNothing(Completed(m));
    SortByPermutes(Completed(m), SrcKey);
  }
}
