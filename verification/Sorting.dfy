/** Stable sorting by a key, in place, and what determines its result: the order of keys,
    and the original order among equal keys. */
module Sorting {
  ghost predicate Sorted<T>(s: seq<T>, key: T -> int) {
    forall i, j | 0 <= i < j < |s| :: key(s[i]) <= key(s[j])
  }

  /** The elements with a given key, in order. */
  function Pick<T>(s: seq<T>, key: T -> int, k: int): seq<T> {
    if s == [] then []
    else Pick(s[..|s| - 1], key, k) + if key(s[|s| - 1]) == k then [s[|s| - 1]] else []
  }

  /** `x` put behind all elements whose keys do not exceed its own, given that `s` is sorted. */
  function Place<T>(s: seq<T>, key: T -> int, x: T): seq<T> {
    if s == [] || key(s[|s| - 1]) <= key(x) then s + [x]
    else Place(s[..|s| - 1], key, x) + [s[|s| - 1]]
  }

  function StableSort<T>(s: seq<T>, key: T -> int): (r: seq<T>)
    ensures |s| == 0 ==> |r| == 0
  {
    if s == [] then [] else Place(StableSort(s[..|s| - 1], key), key, s[|s| - 1])
  }

  method SortInPlace<T>(a: array<T>, key: T -> int)
    modifies a
    ensures a[..] == StableSort(old(a[..]), key)
  {
    ghost var before := a[..];
    assert before[..0] == [] && before[0..] == before && [] + before == before;
    for n := 0 to a.Length
      invariant a[..] == StableSort(before[..n], key) + before[n..]
    {
      SortedFurther(before, n, key);
      hide *;
      Sink(a, n, key);
    }
    assert before[..a.Length] == before && before[a.Length..] == [];
  }

  /** Element `n` put in its place among those before it. */
  function Placed<T>(s: seq<T>, n: nat, key: T -> int): seq<T>
    requires n < |s|
  {
    Place(s[..n], key, s[n]) + s[n + 1..]
  }

  lemma SortedFurther<T>(before: seq<T>, n: nat, key: T -> int)
    requires n < |before|
    ensures var s := StableSort(before[..n], key) + before[n..];
            n < |s| && Placed(s, n, key) == StableSort(before[..n + 1], key) + before[n + 1..]
  {
    StableSortCorrect(before[..n], key);
    SortSnoc(before, n, key);
    hide *;
    PlacedAfter(StableSort(before[..n], key), before[n..], key);
    assert before[n..][1..] == before[n + 1..];
  }

  lemma SortSnoc<T>(before: seq<T>, n: nat, key: T -> int)
    requires n < |before|
    ensures StableSort(before[..n + 1], key) == Place(StableSort(before[..n], key), key, before[n])
  {
    assert before[..n + 1][..n] == before[..n] && before[..n + 1][n] == before[n];
  }

  lemma PlacedAfter<T>(t: seq<T>, rest: seq<T>, key: T -> int)
    requires rest != []
    ensures Placed(t + rest, |t|, key) == Place(t, key, rest[0]) + rest[1..]
  {
    var s, n := t + rest, |t|;
    assert s[..n] == t && s[n] == rest[0] && s[n + 1..] == rest[1..];
  }

  /** Moves element `n` down past those with greater keys. */
  method Sink<T>(a: array<T>, n: nat, key: T -> int)
    requires n < a.Length
    modifies a
    ensures a[..] == Placed(old(a[..]), n, key)
  {
    PlacedFrom(a[..], n, key);
    hide *;
    if n > 0 && key(a[n - 1]) > key(a[n]) {
      SwapDown(a, n);
      Sink(a, n - 1, key);
    }
  }

  function Swapped<T>(s: seq<T>, j: nat): (r: seq<T>)
    requires 0 < j < |s|
    ensures |r| == |s|
  {
    s[j - 1 := s[j]][j := s[j - 1]]
  }

  method SwapDown<T>(a: array<T>, j: nat)
    requires 0 < j < a.Length
    modifies a
    ensures a[..] == Swapped(old(a[..]), j)
  {
    a[j - 1], a[j] := a[j], a[j - 1];
  }

  /** An element is in its place, or belongs below the one before it. */
  lemma PlacedFrom<T>(s: seq<T>, n: nat, key: T -> int)
    requires n < |s|
    ensures Placed(s, n, key) ==
            if n > 0 && key(s[n - 1]) > key(s[n]) then Placed(Swapped(s, n), n - 1, key) else s
  {
    if n > 0 && key(s[n - 1]) > key(s[n]) {
      var t := Swapped(s, n);
      assert t[..n - 1] == s[..n][..n - 1] && t[n - 1] == s[n] && t[n..] == [s[n - 1]] + s[n + 1..];
      assert s[..n] != [] && s[..n][n - 1] == s[n - 1];
    } else {
      PlaceHere(s[..n], key, s[n]);
      assert s == s[..n] + [s[n]] + s[n + 1..];
    }
  }

  lemma PlaceHere<T>(s: seq<T>, key: T -> int, x: T)
    requires s == [] || key(s[|s| - 1]) <= key(x)
    ensures Place(s, key, x) == s + [x]
  {
  }

  lemma PlaceLength<T>(s: seq<T>, key: T -> int, x: T)
    ensures |Place(s, key, x)| == |s| + 1
  {
  }

  lemma PlaceElement<T>(s: seq<T>, key: T -> int, x: T, y: T)
    ensures y in Place(s, key, x) <==> y in s || y == x
  {
    if s != [] && key(s[|s| - 1]) > key(x) {
      PlaceElement(s[..|s| - 1], key, x, y);
      assert s == s[..|s| - 1] + [s[|s| - 1]];
    }
  }

  lemma SortElement<T>(s: seq<T>, key: T -> int, y: T)
    ensures y in StableSort(s, key) <==> y in s
  {
    if s != [] {
      var front, x := s[..|s| - 1], s[|s| - 1];
      SortElement(front, key, y);
      PlaceElement(StableSort(front, key), key, x, y);
      assert s == front + [x];
    }
  }

  lemma {:induction false} PlaceSorted<T>(s: seq<T>, key: T -> int, x: T)
    requires Sorted(s, key)
    ensures Sorted(Place(s, key, x), key)
  {
    if s != [] && key(s[|s| - 1]) > key(x) {
      var front, last := s[..|s| - 1], s[|s| - 1];
      PlaceSorted(front, key, x);
      forall y | y in Place(front, key, x)
        ensures key(y) <= key(last)
      {
        PlaceElement(front, key, x, y);
        if y in front {
          assert exists i :: 0 <= i < |front| && front[i] == y;
          var i :| 0 <= i < |front| && front[i] == y;
          assert s[i] == y && s[|s| - 1] == last;
        }
      }
    }
  }

  lemma PickSnoc<T>(s: seq<T>, x: T, key: T -> int, k: int)
    ensures Pick(s + [x], key, k) == Pick(s, key, k) + if key(x) == k then [x] else []
  {
    assert (s + [x])[..|s|] == s;
  }

  lemma {:induction false} PlacePick<T>(s: seq<T>, key: T -> int, x: T, k: int)
    requires Sorted(s, key)
    ensures Pick(Place(s, key, x), key, k) == Pick(s, key, k) + if key(x) == k then [x] else []
  {
    if s == [] || key(s[|s| - 1]) <= key(x) {
      PickSnoc(s, x, key, k);
    } else {
      var front, last := s[..|s| - 1], s[|s| - 1];
      PlacePick(front, key, x, k);
      PickSnoc(Place(front, key, x), last, key, k);
      if key(last) == k {
        assert Pick(Place(front, key, x), key, k) == Pick(front, key, k);
      }
    }
  }

  /** Sorting orders the keys and keeps the order among equal keys. */
  lemma {:induction false} StableSortCorrect<T>(s: seq<T>, key: T -> int)
    ensures Sorted(StableSort(s, key), key)
    ensures forall k :: Pick(StableSort(s, key), key, k) == Pick(s, key, k)
    ensures |StableSort(s, key)| == |s|
  {
    if s != [] {
      var front, x := s[..|s| - 1], s[|s| - 1];
      StableSortCorrect(front, key);
      PlaceSorted(StableSort(front, key), key, x);
      PlaceLength(StableSort(front, key), key, x);
      forall k
        ensures Pick(StableSort(s, key), key, k) == Pick(s, key, k)
      {
        PlacePick(StableSort(front, key), key, x, k);
      }
    }
  }

  lemma PickIn<T>(s: seq<T>, key: T -> int, k: int, x: T)
    ensures x in Pick(s, key, k) <==> x in s && key(x) == k
  {
    if s != [] {
      PickIn(s[..|s| - 1], key, k, x);
      assert s == s[..|s| - 1] + [s[|s| - 1]];
    }
  }

  lemma LastKeys<T>(s: seq<T>, t: seq<T>, key: T -> int)
    requires |s| > 0 && Sorted(t, key)
    requires forall k :: Pick(s, key, k) == Pick(t, key, k)
    ensures |t| > 0 && key(s[|s| - 1]) <= key(t[|t| - 1])
  {
    var x := s[|s| - 1];
    PickIn(s, key, key(x), x);
    PickIn(t, key, key(x), x);
  }

  /** Nothing else is needed to determine the result. */
  lemma {:induction false} SortedUnique<T>(s: seq<T>, t: seq<T>, key: T -> int)
    requires Sorted(s, key) && Sorted(t, key)
    requires forall k :: Pick(s, key, k) == Pick(t, key, k)
    ensures s == t
  {
    if s == [] {
      if t != [] {
        LastKeys(t, s, key);
      }
    } else {
      LastKeys(s, t, key);
      LastKeys(t, s, key);
      var m, n := |s| - 1, |t| - 1;
      var k := key(s[m]);
      assert Pick(s, key, k)[|Pick(s, key, k)| - 1] == s[m] && Pick(t, key, k)[|Pick(t, key, k)| - 1] == t[n];
      forall l
        ensures Pick(s[..m], key, l) == Pick(t[..n], key, l)
      {
        var p := Pick(s, key, l);
        assert p == Pick(t, key, l);
        var q, r := Pick(s[..m], key, l), Pick(t[..n], key, l);
        if l == k {
          assert q == p[..|p| - 1] && r == p[..|p| - 1];
        } else {
          assert q + [] == q == p && r + [] == r == p;
        }
      }
      SortedUnique(s[..m], t[..n], key);
      assert s == s[..m] + [s[m]] && t == t[..n] + [t[n]];
    }
  }

  lemma SortIdempotent<T>(s: seq<T>, key: T -> int)
    ensures StableSort(StableSort(s, key), key) == StableSort(s, key)
  {
    StableSortCorrect(s, key);
    StableSortCorrect(StableSort(s, key), key);
    SortedUnique(StableSort(StableSort(s, key), key), StableSort(s, key), key);
  }

  // ---- Permutations

  predicate DistinctKeys<T>(s: seq<T>, key: T -> int) {
    forall i, j | 0 <= i < j < |s| :: key(s[i]) != key(s[j])
  }

  lemma PickNone<T>(s: seq<T>, key: T -> int, k: int)
    requires forall i | 0 <= i < |s| :: key(s[i]) != k
    ensures Pick(s, key, k) == []
  {
  }

  lemma PickOne<T>(s: seq<T>, key: T -> int, k: int)
    requires DistinctKeys(s, key)
    ensures |Pick(s, key, k)| <= 1
  {
    if s != [] {
      var n := |s| - 1;
      PickOne(s[..n], key, k);
      if key(s[n]) == k {
        PickNone(s[..n], key, k);
      }
    }
  }

  /** With distinct keys the order in which the elements are given makes no difference. */
  lemma PermutationSorts<T>(s: seq<T>, t: seq<T>, key: T -> int)
    requires multiset(s) == multiset(t) && DistinctKeys(s, key) && DistinctKeys(t, key)
    ensures StableSort(s, key) == StableSort(t, key)
  {
    forall k
      ensures Pick(s, key, k) == Pick(t, key, k)
    {
      PickOne(s, key, k);
      PickOne(t, key, k);
      forall x
        ensures x in Pick(s, key, k) <==> x in Pick(t, key, k)
      {
        PickIn(s, key, k, x);
        PickIn(t, key, k, x);
        assert x in s <==> x in multiset(s);
      }
      SameSingleton(Pick(s, key, k), Pick(t, key, k));
    }
    StableSortCorrect(s, key);
    StableSortCorrect(t, key);
    SortedUnique(StableSort(s, key), StableSort(t, key), key);
  }

  lemma SameSingleton<T>(a: seq<T>, b: seq<T>)
    requires |a| <= 1 && |b| <= 1 && forall x :: x in a <==> x in b
    ensures a == b
  {
    assert |a| > 0 ==> a[0] in a;
    assert |b| > 0 ==> b[0] in b;
  }
}
