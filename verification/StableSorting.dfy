/** Sorting by insertion behind everything that may stay in front, which is what any stable sort computes. */
module StableSorting {
  import opened Sequences

  /** Any two elements can be put in order, and orders chain. */
  ghost predicate IsOrder<T(!new)>(le: (T, T) -> bool) {
    && (forall a, b :: le(a, b) || le(b, a))
    && (forall a, b, c :: le(a, b) && le(b, c) ==> le(a, c))
  }

  function Insert<T>(sorted: seq<T>, x: T, le: (T, T) -> bool): (r: seq<T>)
    ensures |r| == |sorted| + 1
  {
    if sorted == [] || le(sorted[|sorted| - 1], x) then sorted + [x]
    else Insert(sorted[..|sorted| - 1], x, le) + [sorted[|sorted| - 1]]
  }

  function Sorted<T>(s: seq<T>, le: (T, T) -> bool): (r: seq<T>)
    ensures |r| == |s|
  {
    if s == [] then [] else Insert(Sorted(s[..|s| - 1], le), s[|s| - 1], le)
  }

  ghost predicate SameElements<T(!new)>(a: seq<T>, b: seq<T>) {
    forall x :: x in a <==> x in b
  }

  ghost predicate IsSymmetric<T(!new)>(related: (T, T) -> bool) {
    forall a, b :: related(a, b) ==> related(b, a)
  }

  lemma {:induction false} InsertKeepsElements<T(!new)>(sorted: seq<T>, x: T, le: (T, T) -> bool)
    ensures SameElements(Insert(sorted, x, le), sorted + [x])
  {
    if sorted != [] && !le(sorted[|sorted| - 1], x) {
      var n := |sorted| - 1;
      InsertKeepsElements(sorted[..n], x, le);
      assert sorted == sorted[..n] + [sorted[n]];
    }
  }

  lemma {:induction false} InsertKeepsOrder<T(!new)>(sorted: seq<T>, x: T, le: (T, T) -> bool)
    requires IsOrder(le) && Pairwise(sorted, le)
    ensures Pairwise(Insert(sorted, x, le), le)
  {
    if sorted != [] && !le(sorted[|sorted| - 1], x) {
      var n := |sorted| - 1;
      InsertKeepsOrder(sorted[..n], x, le);
      InsertKeepsElements(sorted[..n], x, le);
      var r := Insert(sorted[..n], x, le);
      forall j | 0 <= j < |r|
        ensures le(r[j], sorted[n])
      {
        assert r[j] in sorted[..n] + [x];
      }
    } else {
      forall j | 0 <= j < |sorted|
        ensures le(sorted[j], x)
      {
        assert j < |sorted| - 1 ==> le(sorted[j], sorted[|sorted| - 1]);
      }
    }
  }

  lemma {:induction false} InsertKeepsPairs<T(!new)>(sorted: seq<T>, x: T, le: (T, T) -> bool, apart: (T, T) -> bool)
    requires IsSymmetric(apart) && Pairwise(sorted, apart) && forall k :: 0 <= k < |sorted| ==> apart(sorted[k], x)
    ensures Pairwise(Insert(sorted, x, le), apart)
  {
    if sorted != [] && !le(sorted[|sorted| - 1], x) {
      var n := |sorted| - 1;
      InsertKeepsPairs(sorted[..n], x, le, apart);
      InsertKeepsElements(sorted[..n], x, le);
      var r := Insert(sorted[..n], x, le);
      forall j | 0 <= j < |r|
        ensures apart(r[j], sorted[n])
      {
        assert r[j] in sorted[..n] + [x];
      }
    }
  }

  /** Sorting loses and invents nothing. */
  lemma {:induction false} SortingKeepsElements<T(!new)>(s: seq<T>, le: (T, T) -> bool)
    ensures SameElements(Sorted(s, le), s)
  {
    if s != [] {
      var n := |s| - 1;
      SortingKeepsElements(s[..n], le);
      InsertKeepsElements(Sorted(s[..n], le), s[n], le);
      assert s == s[..n] + [s[n]];
    }
  }

  /** Sorting orders. */
  lemma {:induction false} SortingOrders<T(!new)>(s: seq<T>, le: (T, T) -> bool)
    requires IsOrder(le)
    ensures Pairwise(Sorted(s, le), le)
  {
    if s != [] {
      SortingOrders(s[..|s| - 1], le);
      InsertKeepsOrder(Sorted(s[..|s| - 1], le), s[|s| - 1], le);
    }
  }

  /** What holds between any two elements still does. */
  lemma {:induction false} SortingKeepsPairs<T(!new)>(s: seq<T>, le: (T, T) -> bool, apart: (T, T) -> bool)
    requires IsSymmetric(apart) && Pairwise(s, apart)
    ensures Pairwise(Sorted(s, le), apart)
  {
    if s != [] {
      var n := |s| - 1;
      var before := Sorted(s[..n], le);
      SortingKeepsPairs(s[..n], le, apart);
      SortingKeepsElements(s[..n], le);
      forall k | 0 <= k < |before|
        ensures apart(before[k], s[n])
      {
        assert before[k] in s[..n];
      }
      InsertKeepsPairs(before, s[n], le, apart);
    }
  }
}
