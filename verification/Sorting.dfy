/** The stable sort by an integer key. */
module Sorting {
  import opened Primitives

  predicate SortedBy<T>(s: seq<T>, key: T -> int) {
    forall i, j :: 0 <= i < j < |s| ==> key(s[i]) <= key(s[j])
  }

  predicate StrictBy<T>(s: seq<T>, key: T -> int) {
    forall i, j :: 0 <= i < j < |s| ==> key(s[i]) < key(s[j])
  }

  predicate DistinctBy<T>(s: seq<T>, key: T -> int) {
    forall i, j :: 0 <= i < j < |s| ==> key(s[i]) != key(s[j])
  }

  /** Insert after every element of the same key, so that the sort is stable. */
  function Insert<T>(s: seq<T>, x: T, key: T -> int): (r: seq<T>)
    ensures multiset(r) == multiset(s) + multiset{x}
  {
    if s == [] || key(s[|s| - 1]) <= key(x) then s + [x]
    else
      assert s == s[..|s| - 1] + [s[|s| - 1]];
      Insert(s[..|s| - 1], x, key) + [s[|s| - 1]]
  }

  lemma {:induction false} InsertSorted<T>(s: seq<T>, x: T, key: T -> int)
    requires SortedBy(s, key)
    ensures SortedBy(Insert(s, x, key), key)
  {
    if s != [] && key(s[|s| - 1]) > key(x) {
      var front, last := s[..|s| - 1], s[|s| - 1];
      InsertSorted(front, x, key);
      var r := Insert(front, x, key);
      forall i | 0 <= i < |r| ensures key(r[i]) <= key(last) {
        assert r[i] in multiset(r);
        assert r[i] == x || r[i] in multiset(front);
        if r[i] != x {
          var j :| 0 <= j < |front| && front[j] == r[i];
          assert key(s[j]) <= key(s[|s| - 1]);
        }
      }
    }
  }

  function Sort<T>(s: seq<T>, key: T -> int): (r: seq<T>)
    ensures SortedBy(r, key) && multiset(r) == multiset(s)
  {
    if s == [] then []
    else
      assert s == s[..|s| - 1] + [s[|s| - 1]];
      InsertSorted(Sort(s[..|s| - 1], key), s[|s| - 1], key);
      Insert(Sort(s[..|s| - 1], key), s[|s| - 1], key)
  }

  /** The elements of one key, in their order. */
  function OfKey<T>(s: seq<T>, key: T -> int, k: int): seq<T> {
    if s == [] then []
    else OfKey(s[..|s| - 1], key, k) + if key(s[|s| - 1]) == k then [s[|s| - 1]] else []
  }

  lemma OfKeySnoc<T>(s: seq<T>, x: T, key: T -> int, k: int)
    ensures OfKey(s + [x], key, k) == OfKey(s, key, k) + if key(x) == k then [x] else []
  {
    assert (s + [x])[..|s|] == s;
  }

  lemma {:induction false} InsertStable<T>(s: seq<T>, x: T, key: T -> int, k: int)
    requires SortedBy(s, key)
    ensures OfKey(Insert(s, x, key), key, k) == OfKey(s, key, k) + if key(x) == k then [x] else []
  {
    if s == [] || key(s[|s| - 1]) <= key(x) {
      OfKeySnoc(s, x, key, k);
    } else {
      var front, last := s[..|s| - 1], s[|s| - 1];
      InsertStable(front, x, key, k);
      OfKeySnoc(Insert(front, x, key), last, key, k);
    }
  }

  /** The sort is stable: elements of one key keep their order. */
  lemma {:induction false} SortStable<T>(s: seq<T>, key: T -> int, k: int)
    ensures OfKey(Sort(s, key), key, k) == OfKey(s, key, k)
  {
    if s != [] {
      SortStable(s[..|s| - 1], key, k);
      InsertStable(Sort(s[..|s| - 1], key), s[|s| - 1], key, k);
    }
  }

  lemma SameMembers<T>(s: seq<T>, key: T -> int)
    ensures |Sort(s, key)| == |s|
    ensures forall x :: x in Sort(s, key) <==> x in s
  {
    var r := Sort(s, key);
    assert |multiset(r)| == |r| && |multiset(s)| == |s|;
    forall x ensures x in r <==> x in s {
      assert x in r <==> x in multiset(r);
      assert x in s <==> x in multiset(s);
    }
  }

  /** Two strictly sorted sequences with the same members are the same. */
  lemma {:induction false} StrictUnique<T>(a: seq<T>, b: seq<T>, key: T -> int)
    requires StrictBy(a, key) && StrictBy(b, key)
    requires forall x :: x in a <==> x in b
    ensures a == b
  {
    if a == [] {
      if b != [] {
        HasMember(b);
      }
    } else {
      assert a[|a| - 1] in b;
      assert b[|b| - 1] in a;
      var x, y := a[|a| - 1], b[|b| - 1];
      assert x == y;
      var a', b' := a[..|a| - 1], b[..|b| - 1];
      forall z ensures z in a' <==> z in b' {
        if z in a' { assert z in b && z != x; }
        if z in b' { assert z in a && z != x; }
      }
      StrictUnique(a', b', key);
    }
  }

  lemma KeyOnce<T>(s: seq<T>, x: T, y: T, key: T -> int)
    requires DistinctBy(s, key) && x in s && y in s && key(x) == key(y)
    ensures x == y
  {
    var i :| 0 <= i < |s| && s[i] == x;
    var j :| 0 <= j < |s| && s[j] == y;
  }

  lemma {:induction false} MultiplicityOne<T>(s: seq<T>, x: T, key: T -> int)
    requires DistinctBy(s, key)
    ensures multiset(s)[x] <= 1
  {
    if s != [] {
      var front, last := s[..|s| - 1], s[|s| - 1];
      assert s == front + [last];
      MultiplicityOne(front, x, key);
      forall i | 0 <= i < |front| ensures front[i] != last {
        assert key(s[i]) != key(s[|s| - 1]);
      }
    }
  }

  lemma TwiceIn<T>(r: seq<T>, i: nat, j: nat)
    requires i < j < |r| && r[i] == r[j]
    ensures multiset(r)[r[i]] >= 2
  {
    assert r == r[..j] + r[j..];
    assert r[..j][i] == r[i] && r[j..][0] == r[i];
  }

  lemma KeysStayDistinct<T>(s: seq<T>, r: seq<T>, i: nat, j: nat, key: T -> int)
    requires DistinctBy(s, key) && multiset(r) == multiset(s) && i < j < |r|
    ensures key(r[i]) != key(r[j])
  {
    if key(r[i]) == key(r[j]) {
      assert r[i] in multiset(r) && r[j] in multiset(r);
      assert r[i] in s && r[j] in s;
      KeyOnce(s, r[i], r[j], key);
      TwiceIn(r, i, j);
      MultiplicityOne(s, r[i], key);
    }
  }

  lemma SortStrict<T>(s: seq<T>, key: T -> int)
    requires DistinctBy(s, key)
    ensures StrictBy(Sort(s, key), key)
  {
    var r := Sort(s, key);
    forall i, j | 0 <= i < j < |r| ensures key(r[i]) < key(r[j]) {
      KeysStayDistinct(s, r, i, j, key);
    }
  }

  /** With distinct keys the order of the input does not matter. */
  lemma OrderIndependent<T>(a: seq<T>, b: seq<T>, key: T -> int)
    requires DistinctBy(a, key) && DistinctBy(b, key)
    requires forall x :: x in a <==> x in b
    ensures Sort(a, key) == Sort(b, key)
  {
    SortStrict(a, key);
    SortStrict(b, key);
    SameMembers(a, key);
    SameMembers(b, key);
    StrictUnique(Sort(a, key), Sort(b, key), key);
  }

  /** A list that holds each element of a strictly sorted one exactly once, at
      whatever place, sorts to it: `pos` and `inv` are inverse placements. */
  lemma ShuffleSorts<T>(s: seq<T>, h: seq<T>, pos: seq<nat>, inv: seq<nat>, key: T -> int)
    requires StrictBy(h, key)
    requires |pos| == |s| && |inv| == |h|
    requires forall i :: 0 <= i < |s| ==> pos[i] < |h| && s[i] == h[pos[i]] && inv[pos[i]] == i
    requires forall j :: 0 <= j < |h| ==> inv[j] < |s| && pos[inv[j]] == j
    ensures Sort(s, key) == h
  {
    forall i, j | 0 <= i < j < |s| ensures key(s[i]) != key(s[j]) {
      assert inv[pos[i]] != inv[pos[j]];
    }
    forall x ensures x in s <==> x in h {
      if x in h {
        var j :| 0 <= j < |h| && h[j] == x;
        assert s[inv[j]] == x;
      }
    }
    SortStrict(s, key);
    SameMembers(s, key);
    StrictUnique(Sort(s, key), h, key);
  }
}
