/** A stable sort by a natural-number key, the behaviour of Rust's `sort` and `sort_by`
    (both stable, so their result is determined by the input). */
module Sorting {

  predicate SortedBy<T>(s: seq<T>, key: T -> nat)
  {
    forall i, j :: 0 <= i < j < |s| ==> key(s[i]) <= key(s[j])
  }

  /** Dropping the head of a sorted list leaves a sorted list. */
  lemma SortedTail<T>(s: seq<T>, key: T -> nat)
    requires s != [] && SortedBy(s, key)
    ensures SortedBy(s[1..], key)
  {
    forall i, j | 0 <= i < j < |s| - 1 ensures key(s[1..][i]) <= key(s[1..][j]) {
      assert s[1..][i] == s[i + 1] && s[1..][j] == s[j + 1];
    }
  }

  /** Puts `x` in front of the first element whose key is not smaller. */
  function Insert<T(==,!new)>(x: T, s: seq<T>, key: T -> nat): (r: seq<T>)
    ensures |r| == |s| + 1
    ensures forall y :: y in r <==> y in s || y == x
  {
    if s == [] || key(x) <= key(s[0]) then
      [x] + s
    else
      assert s == [s[0]] + s[1..];
      [s[0]] + Insert(x, s[1..], key)
  }

  function SortBy<T(==,!new)>(s: seq<T>, key: T -> nat): (r: seq<T>)
    ensures |r| == |s|
    ensures forall y :: y in r <==> y in s
  {
    if s == [] then []
    else
      assert s == [s[0]] + s[1..];
      Insert(s[0], SortBy(s[1..], key), key)
  }

  /** A lower bound on every key of `s`. */
  predicate KeysAtLeast<T>(s: seq<T>, b: nat, key: T -> nat)
  {
    forall i :: 0 <= i < |s| ==> b <= key(s[i])
  }

  /** A head no larger than every key of a sorted tail gives a sorted list. */
  lemma ConsSorted<T>(h: T, t: seq<T>, key: T -> nat)
    requires SortedBy(t, key) && KeysAtLeast(t, key(h), key)
    ensures SortedBy([h] + t, key)
  {
    var r := [h] + t;
    forall i, j | 0 <= i < j < |r| ensures key(r[i]) <= key(r[j]) {
      assert r[j] == t[j - 1];
      if i > 0 {
        assert r[i] == t[i - 1];
      }
    }
  }

  /** Insertion keeps a lower bound that `x` also meets. */
  lemma {:induction false} InsertAtLeast<T(!new)>(x: T, s: seq<T>, b: nat, key: T -> nat)
    requires b <= key(x) && KeysAtLeast(s, b, key)
    ensures KeysAtLeast(Insert(x, s, key), b, key)
  {
    if s != [] && key(x) > key(s[0]) {
      assert KeysAtLeast(s[1..], b, key) by {
        forall i | 0 <= i < |s[1..]| ensures b <= key(s[1..][i]) {
          assert s[1..][i] == s[i + 1];
        }
      }
      InsertAtLeast(x, s[1..], b, key);
      var rest := Insert(x, s[1..], key);
      var r := [s[0]] + rest;
      forall i | 0 <= i < |r| ensures b <= key(r[i]) {
        if i > 0 {
          assert r[i] == rest[i - 1];
        }
      }
    }
  }

  /** Insertion into a sorted list keeps it sorted. */
  lemma {:induction false} InsertSorted<T(!new)>(x: T, s: seq<T>, key: T -> nat)
    requires SortedBy(s, key)
    ensures SortedBy(Insert(x, s, key), key)
  {
    if s == [] || key(x) <= key(s[0]) {
      assert KeysAtLeast(s, key(x), key) by {
        forall i | 0 <= i < |s| ensures key(x) <= key(s[i]) {
          assert key(s[0]) <= key(s[i]);
        }
      }
      ConsSorted(x, s, key);
    } else {
      var t := s[1..];
      assert SortedBy(t, key) && KeysAtLeast(t, key(s[0]), key) by {
        forall i | 0 <= i < |t| ensures t[i] == s[i + 1] {
        }
      }
      InsertSorted(x, t, key);
      InsertAtLeast(x, t, key(s[0]), key);
      ConsSorted(s[0], Insert(x, t, key), key);
    }
  }

  /** The sort orders its result by key. */
  lemma {:induction false} SortBySorted<T(!new)>(s: seq<T>, key: T -> nat)
    ensures SortedBy(SortBy(s, key), key)
  {
    if s != [] {
      SortBySorted(s[1..], key);
      InsertSorted(s[0], SortBy(s[1..], key), key);
    }
  }

  /** Insertion adds exactly one occurrence of `x`. */
  lemma {:induction false} InsertPermutes<T(!new)>(x: T, s: seq<T>, key: T -> nat)
    ensures multiset(Insert(x, s, key)) == multiset(s) + multiset{x}
  {
    if s != [] && key(x) > key(s[0]) {
      InsertPermutes(x, s[1..], key);
      assert s == [s[0]] + s[1..];
    }
  }

  /** The sort is a permutation of its input. */
  lemma {:induction false} SortByPermutes<T(!new)>(s: seq<T>, key: T -> nat)
    ensures multiset(SortBy(s, key)) == multiset(s)
  {
    if s != [] {
      SortByPermutes(s[1..], key);
      InsertPermutes(s[0], SortBy(s[1..], key), key);
      assert s == [s[0]] + s[1..];
    }
  }
}
