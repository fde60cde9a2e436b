/** Composition of two maps of src/day-05.rs (`_merge` and `Map::merge`): the left
    map's destination ranges are intersected with the right map's source ranges,
    and each overlap becomes one triple of the composed map. */
module RangeMerge {
  import opened Sorting
  import opened RangeMap

  /** The destination range of `a` and the source range of `b` share a value. */
  predicate Overlaps(a: Triple, b: Triple)
  {
    !(DestEnd(a) <= b.src) && !(SrcEnd(b) <= a.dest)
  }

  function Max(x: nat, y: nat): nat { if x < y then y else x }

  function Min(x: nat, y: nat): nat { if x < y then x else y }

  /** The triple `_merge` emits for an overlapping pair: the overlap [lb, ub) of
      the two middle ranges, taken back through `a` and forward through `b`. */
  function Compose(a: Triple, b: Triple): (c: Triple)
    requires Overlaps(a, b)
    ensures a.len > 0 && b.len > 0 ==> c.len > 0
    ensures a.src <= c.src && SrcEnd(c) <= SrcEnd(a)
    ensures b.dest <= c.dest && DestEnd(c) <= DestEnd(b)
    ensures forall x: nat :: InSrc(c, x) <==> InSrc(a, x) && InSrc(b, Apply(a, x))
    ensures forall x: nat :: InSrc(c, x) ==>
      InSrc(a, x) && InSrc(b, Apply(a, x)) && Apply(c, x) == Apply(b, Apply(a, x))
  {
    var lb := Max(a.dest, b.src);
    var ub := Min(DestEnd(a), SrcEnd(b));
    Triple(b.dest + lb - b.src, a.src + lb - a.dest, ub - lb)
  }

  /** `_merge(v, w, dest)`: `v` is the left map sorted by destination start, `w`
      the right map sorted by source start; emitted triples are pushed onto `dest`. */
  function Walk(v: seq<Triple>, w: seq<Triple>, dest: seq<Triple>): (r: seq<Triple>)
    ensures |dest| <= |r| && r[..|dest|] == dest
    ensures v == [] || w == [] ==> r == dest
    decreases |v| + |w|
  {
    if v == [] || w == [] then dest
    else if DestEnd(v[0]) <= w[0].src then Walk(v[1..], w, dest)
    else if SrcEnd(w[0]) <= v[0].dest then Walk(v, w[1..], dest)
    else if |v| == 1 then Walk(v, w[1..], dest + [Compose(v[0], w[0])])
    else
      var inner := Walk(v[..1], w, dest);
      var r := Walk(v[1..], w, inner);
      assert r[..|dest|] == inner[..|dest|];
      r
  }

  /** The triple `t` is the composition of some overlapping pair from `v` and `w`. */
  ghost predicate Emitted(v: seq<Triple>, w: seq<Triple>, t: Triple)
  {
    exists a, b :: a in v && b in w && Overlaps(a, b) && t == Compose(a, b)
  }

  /** Everything `_merge` appends composes a left triple with a right one. */
  lemma {:induction false} WalkEmits(v: seq<Triple>, w: seq<Triple>, dest: seq<Triple>)
    ensures forall i :: |dest| <= i < |Walk(v, w, dest)| ==> Emitted(v, w, Walk(v, w, dest)[i])
    decreases |v| + |w|
  {
    var r := Walk(v, w, dest);
    if v == [] || w == [] {
    } else if DestEnd(v[0]) <= w[0].src {
      WalkEmits(v[1..], w, dest);
      forall i | |dest| <= i < |r| ensures Emitted(v, w, r[i]) {
        assert Emitted(v[1..], w, r[i]);
        var a, b :| a in v[1..] && b in w && Overlaps(a, b) && r[i] == Compose(a, b);
        assert a in v;
      }
    } else if SrcEnd(w[0]) <= v[0].dest {
      WalkEmits(v, w[1..], dest);
      forall i | |dest| <= i < |r| ensures Emitted(v, w, r[i]) {
        assert Emitted(v, w[1..], r[i]);
        var a, b :| a in v && b in w[1..] && Overlaps(a, b) && r[i] == Compose(a, b);
        assert b in w;
      }
    } else if |v| == 1 {
      var d' := dest + [Compose(v[0], w[0])];
      WalkEmits(v, w[1..], d');
      forall i | |dest| <= i < |r| ensures Emitted(v, w, r[i]) {
        if i == |dest| {
          assert r[i] == d'[i];
          assert v[0] in v && w[0] in w;
        } else {
          assert Emitted(v, w[1..], r[i]);
          var a, b :| a in v && b in w[1..] && Overlaps(a, b) && r[i] == Compose(a, b);
          assert b in w;
        }
      }
    } else {
      var inner := Walk(v[..1], w, dest);
      WalkEmits(v[..1], w, dest);
      WalkEmits(v[1..], w, inner);
      forall i | |dest| <= i < |r| ensures Emitted(v, w, r[i]) {
        if i < |inner| {
          assert r[i] == inner[i];
          assert Emitted(v[..1], w, inner[i]);
          var a, b :| a in v[..1] && b in w && Overlaps(a, b) && inner[i] == Compose(a, b);
          assert a in v;
        } else {
          assert Emitted(v[1..], w, r[i]);
          var a, b :| a in v[1..] && b in w && Overlaps(a, b) && r[i] == Compose(a, b);
          assert a in v;
        }
      }
    }
  }

  /** With `v` sorted by destination and `w` by source, `_merge` emits the
      composition of every overlapping pair. */
  lemma {:induction false} WalkFinds(v: seq<Triple>, w: seq<Triple>, dest: seq<Triple>, a: Triple, b: Triple)
    requires SortedBy(v, DestKey) && SortedBy(w, SrcKey)
    requires a in v && b in w && Overlaps(a, b)
    ensures Compose(a, b) in Walk(v, w, dest)
    decreases |v| + |w|
  {
    var r := Walk(v, w, dest);
    var i :| 0 <= i < |v| && v[i] == a;
    var j :| 0 <= j < |w| && w[j] == b;
    if DestEnd(v[0]) <= w[0].src {
      if j > 0 { assert SrcKey(w[0]) <= SrcKey(w[j]); }
      assert i > 0;
      assert a == v[1..][i - 1];
      WalkFinds(v[1..], w, dest, a, b);
    } else if SrcEnd(w[0]) <= v[0].dest {
      if i > 0 { assert DestKey(v[0]) <= DestKey(v[i]); }
      assert j > 0;
      assert b == w[1..][j - 1];
      WalkFinds(v, w[1..], dest, a, b);
    } else if |v| == 1 {
      var d' := dest + [Compose(v[0], w[0])];
      if j == 0 {
        assert r[..|d'|] == d';
        assert r[|dest|] == d'[|dest|];
      } else {
        assert b == w[1..][j - 1];
        WalkFinds(v, w[1..], d', a, b);
      }
    } else {
      var inner := Walk(v[..1], w, dest);
      if i == 0 {
        assert a in v[..1];
        WalkFinds(v[..1], w, dest, a, b);
        var k :| 0 <= k < |inner| && inner[k] == Compose(a, b);
        assert r[..|inner|] == inner;
        assert r[k] == inner[k];
      } else {
        assert a == v[1..][i - 1];
        WalkFinds(v[1..], w, inner, a, b);
      }
    }
  }

  /** `Map::merge`: sort the left map by destination, the right one by source, walk. */
  function Merged(a: seq<Triple>, b: seq<Triple>): seq<Triple>
  {
    Walk(SortByDest(a), SortBySrc(b), [])
  }

  /** The composed map holds exactly the compositions of the overlapping pairs. */
  lemma MergedTriples(a: seq<Triple>, b: seq<Triple>)
    ensures forall c :: c in Merged(a, b) ==> Emitted(a, b, c)
    ensures forall t, u :: t in a && u in b && Overlaps(t, u) ==> Compose(t, u) in Merged(a, b)
  {
    var v, w := SortByDest(a), SortBySrc(b);
    SortBySorted(a, DestKey);
    SortBySorted(b, SrcKey);
    var m := Merged(a, b);
    WalkEmits(v, w, []);
    forall c | c in m ensures Emitted(a, b, c) {
      var i :| 0 <= i < |m| && m[i] == c;
      assert Emitted(v, w, m[i]);
    }
    forall t, u | t in a && u in b && Overlaps(t, u) ensures Compose(t, u) in m {
      WalkFinds(v, w, [], t, u);
    }
  }

  /** The composed map holds `x` exactly when `a` holds it and `b` holds its image
      under some triple of `a`. */
  lemma MergedCovered(a: seq<Triple>, b: seq<Triple>, x: nat)
    ensures Covered(Merged(a, b), x) <==>
      exists t, u :: t in a && u in b && InSrc(t, x) && InSrc(u, Apply(t, x))
  {
    MergedTriples(a, b);
    var m := Merged(a, b);
    if Covered(m, x) {
      var c :| c in m && InSrc(c, x);
      assert Emitted(a, b, c);
      var t, u :| t in a && u in b && Overlaps(t, u) && c == Compose(t, u);
      assert InSrc(t, x) && InSrc(u, Apply(t, x));
    }
    if exists t, u :: t in a && u in b && InSrc(t, x) && InSrc(u, Apply(t, x)) {
      var t, u :| t in a && u in b && InSrc(t, x) && InSrc(u, Apply(t, x));
      assert Overlaps(t, u);
      assert Compose(t, u) in m && InSrc(Compose(t, u), x);
    }
  }

  /** Composition law: where the composed map is defined it applies `a`, then `b`. */
  lemma MergedLookup(a: seq<Triple>, b: seq<Triple>, x: nat)
    requires Functional(a) && Functional(b)
    requires Covered(a, x) && Covered(b, Lookup(a, x))
    ensures Covered(Merged(a, b), x)
    ensures Lookup(Merged(a, b), x) == Lookup(b, Lookup(a, x))
  {
    var m := Merged(a, b);
    var t :| t in a && InSrc(t, x);
    LookupCovered(a, t, x);
    var y := Lookup(a, x);
    var u :| u in b && InSrc(u, y);
    LookupCovered(b, u, y);
    MergedCovered(a, b, x);
    MergedTriples(a, b);
    forall c | c in m && InSrc(c, x) ensures Apply(c, x) == Lookup(b, y) {
      assert Emitted(a, b, c);
      var t', u' :| t' in a && u' in b && Overlaps(t', u') && c == Compose(t', u');
      assert Apply(t', x) == y;
      LookupCovered(b, u', y);
    }
    LookupAgrees(m, x, Lookup(b, y));
  }

  /** Outside the part where both maps are defined, the composed map is the identity. */
  lemma MergedUncovered(a: seq<Triple>, b: seq<Triple>, x: nat)
    requires Functional(a)
    requires !Covered(a, x) || !Covered(b, Lookup(a, x))
    ensures !Covered(Merged(a, b), x) && Lookup(Merged(a, b), x) == x
  {
    MergedCovered(a, b, x);
    if Covered(Merged(a, b), x) {
      var t, u :| t in a && u in b && InSrc(t, x) && InSrc(u, Apply(t, x));
      LookupCovered(a, t, x);
      assert false;
    }
    LookupUncovered(Merged(a, b), x);
  }

  /** Composition keeps maps functional, non-empty and inside the domain. */
  lemma MergedWellFormed(a: seq<Triple>, b: seq<Triple>)
    requires Functional(a) && Functional(b)
    ensures Functional(Merged(a, b))
    ensures Positive(a) && Positive(b) ==> Positive(Merged(a, b))
    ensures SrcBounded(a) ==> SrcBounded(Merged(a, b))
    ensures DestBounded(b) ==> DestBounded(Merged(a, b))
  {
    var m := Merged(a, b);
    MergedTriples(a, b);
    forall c1, c2, x: nat | c1 in m && c2 in m && InSrc(c1, x) && InSrc(c2, x)
      ensures Apply(c1, x) == Apply(c2, x)
    {
      assert Emitted(a, b, c1) && Emitted(a, b, c2);
      var t1, u1 :| t1 in a && u1 in b && Overlaps(t1, u1) && c1 == Compose(t1, u1);
      var t2, u2 :| t2 in a && u2 in b && Overlaps(t2, u2) && c2 == Compose(t2, u2);
      assert Apply(t1, x) == Apply(t2, x);
    }
    if Positive(a) && Positive(b) {
      forall c | c in m ensures c.len > 0 {
        assert Emitted(a, b, c);
      }
    }
    if SrcBounded(a) {
      forall c | c in m ensures SrcEnd(c) <= MAX + 1 {
        assert Emitted(a, b, c);
      }
    }
    if DestBounded(b) {
      forall c | c in m ensures DestEnd(c) <= MAX + 1 {
        assert Emitted(a, b, c);
      }
    }
  }

  /** A completed map is functional, total on [0, MAX], and agrees with the partial
      map it came from. */
  lemma CompletedFacts(m: seq<Triple>)
    requires m != [] && Positive(m) && SrcDisjoint(m) && SrcBounded(m) && DestBounded(m)
    ensures Functional(m) && Functional(Completed(m)) && CoversDomain(Completed(m))
    ensures DestBounded(Completed(m)) && SrcBounded(Completed(m)) && Positive(Completed(m))
    ensures forall x: nat :: Lookup(Completed(m), x) == Lookup(m, x)
  {
    CompletedTiles(m);
    DisjointIsFunctional(m);
    DisjointIsFunctional(Completed(m));
    forall x: nat ensures Lookup(Completed(m), x) == Lookup(m, x) {
      CompletedLookup(m, x);
    }
  }

  /** A functional map whose destinations stay inside the domain sends [0, MAX]
      into [0, MAX]. */
  lemma LookupInDomain(m: seq<Triple>, x: nat)
    requires Functional(m) && DestBounded(m) && Covered(m, x)
    ensures Lookup(m, x) <= MAX
  {
    var t :| t in m && InSrc(t, x);
    LookupCovered(m, t, x);
  }

  /** `merge` of two completed maps gets, on all of [0, MAX], what `get` on the
      first and then `get` on the second gets. */
  lemma MergeCompleted(a: seq<Triple>, b: seq<Triple>, x: nat)
    requires a != [] && Positive(a) && SrcDisjoint(a) && SrcBounded(a) && DestBounded(a)
    requires b != [] && Positive(b) && SrcDisjoint(b) && SrcBounded(b) && DestBounded(b)
    requires x <= MAX
    ensures Lookup(Merged(Completed(a), Completed(b)), x) == Lookup(b, Lookup(a, x))
  {
    var ca, cb := Completed(a), Completed(b);
    CompletedFacts(a);
    CompletedFacts(b);
    LookupInDomain(ca, x);
    MergedLookup(ca, cb, x);
  }

  /** Composition is associative on every value where the three maps chain. */
  lemma MergeAssociative(a: seq<Triple>, b: seq<Triple>, c: seq<Triple>, x: nat)
    requires Functional(a) && Functional(b) && Functional(c)
    requires Covered(a, x) && Covered(b, Lookup(a, x)) && Covered(c, Lookup(b, Lookup(a, x)))
    ensures Lookup(Merged(Merged(a, b), c), x) == Lookup(Merged(a, Merged(b, c)), x)
    ensures Lookup(Merged(a, Merged(b, c)), x) == Lookup(c, Lookup(b, Lookup(a, x)))
  {
    MergedWellFormed(a, b);
    MergedWellFormed(b, c);
    MergedLookup(a, b, x);
    MergedLookup(Merged(a, b), c, x);
    MergedLookup(b, c, Lookup(a, x));
    MergedLookup(a, Merged(b, c), x);
  }
}
