/**
 * Forests numbered so that a parent has a smaller number than its children, and the list a
 * recursive walk makes of one when it goes below some nodes and not below others.
 */
module Forests {
  import opened Sequences

  /** Where a node is: nowhere, on top, or below another. */
  datatype Place = Absent | Top | Below(parent: nat)

  /** place[i] is where node i is; kids and roots are the lists a walk follows, in its order. */
  datatype Forest = Forest(place: seq<Place>, kids: seq<seq<nat>>, roots: seq<nat>)

  predicate NoRepeats(s: seq<nat>) {
    forall j, k :: 0 <= j < k < |s| ==> s[j] != s[k]
  }

  predicate ParentsFirst(f: Forest) {
    forall i :: 0 <= i < |f.place| && f.place[i].Below? ==> f.place[i].parent < i
  }

  /** A list holds exactly the nodes that name `p`, each once. */
  predicate ListsChildrenOf(f: Forest, list: seq<nat>, p: Place) {
    && NoRepeats(list)
    && (forall k :: 0 <= k < |list| ==> list[k] < |f.place| && f.place[list[k]] == p)
    && (forall i :: 0 <= i < |f.place| && f.place[i] == p ==> i in list)
  }

  predicate Consistent(f: Forest) {
    && ParentsFirst(f)
    && |f.kids| == |f.place|
    && ListsChildrenOf(f, f.roots, Top)
    && forall p :: 0 <= p < |f.kids| ==> ListsChildrenOf(f, f.kids[p], Below(p))
  }

  predicate AllFrom(f: Forest, list: seq<nat>, low: nat) {
    forall k :: 0 <= k < |list| ==> low <= list[k] < |f.place|
  }

  lemma ListedOnce(i: nat, j: nat)
    ensures Times([i], j) == if i == j then 1 else 0
  {
  }

  /** The walk from node i: the node, then its children's walks if it is open. */
  function Walk(f: Forest, open: set<nat>, i: nat): seq<nat>
    requires Consistent(f) && i < |f.place|
    decreases |f.place| - i, 0
  {
    if i in open then [i] + WalkAll(f, open, f.kids[i], i + 1) else [i]
  }

  /** The walks of a list, one after the other. */
  function WalkAll(f: Forest, open: set<nat>, list: seq<nat>, low: nat): seq<nat>
    requires Consistent(f) && low <= |f.place| && AllFrom(f, list, low)
    decreases |f.place| - low, |list| + 1
  {
    if list == [] then []
    else WalkAll(f, open, list[..|list| - 1], low) + Walk(f, open, list[|list| - 1])
  }

  /** The whole list. */
  function Listing(f: Forest, open: set<nat>): seq<nat>
    requires Consistent(f)
  {
    WalkAll(f, open, f.roots, 0)
  }

  /** Climbing from j meets `top`, through open nodes only; `top` itself need be open only if it is not j. */
  predicate Under(f: Forest, open: set<nat>, top: nat, j: nat)
    requires ParentsFirst(f)
    decreases j
  {
    j < |f.place| && (
      j == top ||
      (f.place[j].Below? && f.place[j].parent in open && Under(f, open, top, f.place[j].parent)))
  }

  /** All of j's ancestors are open. */
  predicate Shown(f: Forest, open: set<nat>, j: nat)
    requires ParentsFirst(f)
    decreases j
  {
    j < |f.place| && (
      f.place[j].Top? ||
      (f.place[j].Below? && f.place[j].parent in open && Shown(f, open, f.place[j].parent)))
  }

  lemma {:induction false} UnderIsBelow(f: Forest, open: set<nat>, top: nat, j: nat)
    requires ParentsFirst(f) && Under(f, open, top, j)
    ensures top <= j
    decreases j
  {
    if j != top {
      UnderIsBelow(f, open, top, f.place[j].parent);
    }
  }

  /** Going one step further up. */
  lemma {:induction false} UnderParent(f: Forest, open: set<nat>, top: nat, j: nat)
    requires ParentsFirst(f) && Under(f, open, top, j)
    requires top < |f.place| && f.place[top].Below? && f.place[top].parent in open
    ensures Under(f, open, f.place[top].parent, j)
    decreases j
  {
    if j != top {
      UnderParent(f, open, top, f.place[j].parent);
    }
  }

  /** Two siblings are never both above the same node. */
  lemma {:induction false} SiblingsAreApart(f: Forest, open: set<nat>, a: nat, b: nat, j: nat)
    requires ParentsFirst(f) && a != b && a < |f.place| && b < |f.place| && f.place[a] == f.place[b]
    ensures !(Under(f, open, a, j) && Under(f, open, b, j))
    decreases j
  {
    if Under(f, open, a, j) && Under(f, open, b, j) {
      if j == a {
        UnderIsBelow(f, open, b, f.place[j].parent);
      } else if j == b {
        UnderIsBelow(f, open, a, f.place[j].parent);
      } else {
        SiblingsAreApart(f, open, a, b, f.place[j].parent);
      }
    }
  }

  /** A node strictly under p is under one of p's children, and p is open. */
  lemma {:induction false} UnderSomeChild(f: Forest, open: set<nat>, p: nat, j: nat) returns (c: nat)
    requires Consistent(f) && Under(f, open, p, j) && p != j
    ensures p < |f.place| && p in open && c in f.kids[p] && Under(f, open, c, j)
    decreases j
  {
    var q := f.place[j].parent;
    if q == p {
      c := j;
    } else {
      c := UnderSomeChild(f, open, p, q);
    }
  }

  predicate UnderOneOf(f: Forest, open: set<nat>, list: seq<nat>, j: nat)
    requires ParentsFirst(f)
  {
    list != [] && (UnderOneOf(f, open, list[..|list| - 1], j) || Under(f, open, list[|list| - 1], j))
  }

  lemma {:induction false} UnderThatOne(f: Forest, open: set<nat>, list: seq<nat>, k: nat, j: nat)
    requires ParentsFirst(f) && k < |list| && Under(f, open, list[k], j)
    ensures UnderOneOf(f, open, list, j)
  {
    if k < |list| - 1 {
      UnderThatOne(f, open, list[..|list| - 1], k, j);
    }
  }

  lemma {:induction false} UnderWhich(f: Forest, open: set<nat>, list: seq<nat>, j: nat) returns (k: nat)
    requires ParentsFirst(f) && UnderOneOf(f, open, list, j)
    ensures k < |list| && Under(f, open, list[k], j)
  {
    if Under(f, open, list[|list| - 1], j) {
      k := |list| - 1;
    } else {
      k := UnderWhich(f, open, list[..|list| - 1], j);
    }
  }

  lemma UnderIsSelfOrBelowAKid(f: Forest, open: set<nat>, i: nat, j: nat)
    requires Consistent(f) && i < |f.place| && i in open
    ensures Under(f, open, i, j) <==> j == i || UnderOneOf(f, open, f.kids[i], j)
    ensures !UnderOneOf(f, open, f.kids[i], i)
  {
    if UnderOneOf(f, open, f.kids[i], i) {
      var k := UnderWhich(f, open, f.kids[i], i);
      UnderIsBelow(f, open, f.kids[i][k], i);
    }
    if UnderOneOf(f, open, f.kids[i], j) {
      var k := UnderWhich(f, open, f.kids[i], j);
      UnderParent(f, open, f.kids[i][k], j);
    } else if j != i && Under(f, open, i, j) {
      var c := UnderSomeChild(f, open, i, j);
      var k :| 0 <= k < |f.kids[i]| && f.kids[i][k] == c;
      UnderThatOne(f, open, f.kids[i], k, j);
    }
  }

  predicate SameParent(f: Forest, list: seq<nat>, p: Place) {
    NoRepeats(list) && forall k :: 0 <= k < |list| ==> list[k] < |f.place| && f.place[list[k]] == p
  }

  lemma KidsComeLater(f: Forest, i: nat)
    requires Consistent(f) && i < |f.place|
    ensures ParentsFirst(f) && |f.kids| == |f.place|
    ensures SameParent(f, f.kids[i], Below(i)) && AllFrom(f, f.kids[i], i + 1)
  {
  }

  /** One step of the walk. */
  lemma WalkUnfolds(f: Forest, open: set<nat>, i: nat)
    requires Consistent(f) && i < |f.place|
    ensures |f.kids| == |f.place| && AllFrom(f, f.kids[i], i + 1)
    ensures Walk(f, open, i) == if i in open then [i] + WalkAll(f, open, f.kids[i], i + 1) else [i]
  {
    KidsComeLater(f, i);
    hide Consistent, AllFrom, SameParent, ParentsFirst, WalkAll;
  }

  lemma RootsAreOnTop(f: Forest)
    requires Consistent(f)
    ensures ParentsFirst(f) && SameParent(f, f.roots, Top) && AllFrom(f, f.roots, 0)
  {
  }

  lemma LastApart(f: Forest, list: seq<nat>, p: Place, low: nat)
    requires AllFrom(f, list, low) && SameParent(f, list, p) && list != []
    ensures AllFrom(f, list[..|list| - 1], low) && SameParent(f, list[..|list| - 1], p)
    ensures low <= list[|list| - 1] < |f.place|
  {
  }

  /** A node appears in a walk exactly when it is under the start of the walk, and then once. */
  lemma {:induction false} WalkCounts(f: Forest, open: set<nat>, i: nat, j: nat)
    requires Consistent(f) && i < |f.place|
    ensures Times(Walk(f, open, i), j) == if Under(f, open, i, j) then 1 else 0
    decreases |f.place| - i, 0
  {
    hide Consistent, Times, NoRepeats, WalkAll;
    ListedOnce(i, j);
    KidsComeLater(f, i);
    if i in open {
      WalkAllCounts(f, open, f.kids[i], Below(i), i + 1, j);
      TimesConcat([i], WalkAll(f, open, f.kids[i], i + 1), j);
      UnderIsSelfOrBelowAKid(f, open, i, j);
    } else if j != i && Under(f, open, i, j) {
      var c := UnderSomeChild(f, open, i, j);
    }
  }

  lemma NotLastAndBefore(f: Forest, open: set<nat>, list: seq<nat>, p: Place, j: nat)
    requires ParentsFirst(f) && list != [] && SameParent(f, list, p)
    ensures !(UnderOneOf(f, open, list[..|list| - 1], j) && Under(f, open, list[|list| - 1], j))
  {
    var n := |list| - 1;
    if UnderOneOf(f, open, list[..n], j) {
      var k := UnderWhich(f, open, list[..n], j);
      SiblingsAreApart(f, open, list[k], list[n], j);
    }
  }

  lemma {:induction false} WalkAllCounts(
    f: Forest, open: set<nat>, list: seq<nat>, p: Place, low: nat, j: nat)
    requires Consistent(f) && low <= |f.place| && AllFrom(f, list, low) && SameParent(f, list, p)
    ensures Times(WalkAll(f, open, list, low), j) == if UnderOneOf(f, open, list, j) then 1 else 0
    decreases |f.place| - low, |list| + 1
  {
    hide Consistent, Times, SameParent, AllFrom, Walk, Under;
    RootsAreOnTop(f);
    if list == [] {
      assert Times([], j) == 0 by {
        NeverListed([], j);
      }
    } else {
      var n := |list| - 1;
      LastApart(f, list, p, low);
      WalkAllCounts(f, open, list[..n], p, low, j);
      WalkCounts(f, open, list[n], j);
      NotLastAndBefore(f, open, list, p, j);
      TimesConcat(WalkAll(f, open, list[..n], low), Walk(f, open, list[n]), j);
    }
  }

  lemma {:induction false} ShownIsUnderARoot(f: Forest, open: set<nat>, j: nat)
    requires Consistent(f)
    ensures Shown(f, open, j) <==> UnderOneOf(f, open, f.roots, j)
    decreases j
  {
    if UnderOneOf(f, open, f.roots, j) {
      var k := UnderWhich(f, open, f.roots, j);
      UnderARootIsShown(f, open, f.roots[k], j);
    }
    if Shown(f, open, j) {
      if f.place[j].Top? {
        var k :| 0 <= k < |f.roots| && f.roots[k] == j;
        UnderThatOne(f, open, f.roots, k, j);
      } else {
        ShownIsUnderARoot(f, open, f.place[j].parent);
        var k := UnderWhich(f, open, f.roots, f.place[j].parent);
        UnderThatOne(f, open, f.roots, k, j);
      }
    }
  }

  lemma {:induction false} UnderARootIsShown(f: Forest, open: set<nat>, r: nat, j: nat)
    requires ParentsFirst(f) && r < |f.place| && f.place[r].Top? && Under(f, open, r, j)
    ensures Shown(f, open, j)
    decreases j
  {
    if j != r {
      UnderARootIsShown(f, open, r, f.place[j].parent);
    }
  }

  /** The listing shows exactly the nodes all of whose ancestors are open, each once. */
  lemma ListingShowsOnce(f: Forest, open: set<nat>, j: nat)
    requires Consistent(f)
    ensures Times(Listing(f, open), j) == if Shown(f, open, j) then 1 else 0
  {
    RootsAreOnTop(f);
    WalkAllCounts(f, open, f.roots, Top, 0, j);
    ShownIsUnderARoot(f, open, j);
  }

  /** Opening i changes no walk that does not meet i. */
  lemma {:induction false} WalkWithoutIsUnchanged(f: Forest, open: set<nat>, x: nat, i: nat)
    requires Consistent(f) && x < |f.place| && i < |f.place| && !Under(f, open, x, i)
    ensures Walk(f, open + {i}, x) == Walk(f, open, x)
    decreases |f.place| - x, 0
  {
    if x in open {
      UnderIsSelfOrBelowAKid(f, open, x, i);
      WalkAllWithoutIsUnchanged(f, open, f.kids[x], x + 1, i);
    }
  }

  lemma {:induction false} WalkAllWithoutIsUnchanged(f: Forest, open: set<nat>, list: seq<nat>, low: nat, i: nat)
    requires Consistent(f) && low <= |f.place| && AllFrom(f, list, low)
    requires i < |f.place| && !UnderOneOf(f, open, list, i)
    ensures WalkAll(f, open + {i}, list, low) == WalkAll(f, open, list, low)
    decreases |f.place| - low, |list| + 1
  {
    if list != [] {
      var n := |list| - 1;
      WalkAllWithoutIsUnchanged(f, open, list[..n], low, i);
      WalkWithoutIsUnchanged(f, open, list[n], i);
    }
  }

  /** `after` is `before` with a block put in right behind position k. */
  predicate BlockInserted(before: seq<nat>, k: nat, block: seq<nat>, after: seq<nat>) {
    k < |before| && after == before[..k + 1] + block + before[k + 1..]
  }

  lemma InsertedLeft(a: seq<nat>, k: nat, block: seq<nat>, a': seq<nat>, b: seq<nat>)
    requires BlockInserted(a, k, block, a')
    ensures BlockInserted(a + b, k, block, a' + b) && (a + b)[k] == a[k]
  {
    assert (a + b)[..k + 1] == a[..k + 1];
    assert (a + b)[k + 1..] == a[k + 1..] + b;
  }

  lemma InsertedRight(a: seq<nat>, b: seq<nat>, k: nat, block: seq<nat>, b': seq<nat>)
    requires BlockInserted(b, k, block, b')
    ensures BlockInserted(a + b, |a| + k, block, a + b') && (a + b)[|a| + k] == b[k]
  {
    assert (a + b)[..|a| + k + 1] == a + b[..k + 1];
    assert (a + b)[|a| + k + 1..] == b[k + 1..];
  }

  /** What shows up when node i is opened. */
  function BlockOf(f: Forest, open: set<nat>, i: nat): seq<nat>
    requires Consistent(f) && i < |f.place|
  {
    WalkAll(f, open, f.kids[i], i + 1)
  }

  lemma {:induction false} WalkOpened(f: Forest, open: set<nat>, x: nat, i: nat) returns (k: nat)
    requires Consistent(f) && x < |f.place| && i !in open && Under(f, open, x, i)
    ensures BlockInserted(Walk(f, open, x), k, BlockOf(f, open, i), Walk(f, open + {i}, x))
    ensures Walk(f, open, x)[k] == i
    decreases |f.place| - x, 0
  {
    hide Consistent, SameParent, NoRepeats, WalkAll;
    KidsComeLater(f, x);
    if x == i {
      k := 0;
      if UnderOneOf(f, open, f.kids[i], i) {
        var n := UnderWhich(f, open, f.kids[i], i);
        UnderIsBelow(f, open, f.kids[i][n], i);
      }
      WalkAllWithoutIsUnchanged(f, open, f.kids[i], i + 1, i);
      assert Walk(f, open, x)[..1] == [i];
    } else {
      var c := UnderSomeChild(f, open, x, i);
      UnderIsSelfOrBelowAKid(f, open, x, i);
      var m := WalkAllOpened(f, open, f.kids[x], Below(x), x + 1, i);
      InsertedRight([x], WalkAll(f, open, f.kids[x], x + 1), m, BlockOf(f, open, i),
                    WalkAll(f, open + {i}, f.kids[x], x + 1));
      k := m + 1;
    }
  }

  lemma {:induction false} WalkAllOpened(
    f: Forest, open: set<nat>, list: seq<nat>, p: Place, low: nat, i: nat) returns (k: nat)
    requires Consistent(f) && low <= |f.place| && AllFrom(f, list, low) && SameParent(f, list, p)
    requires i !in open && i < |f.place| && UnderOneOf(f, open, list, i)
    ensures BlockInserted(WalkAll(f, open, list, low), k, BlockOf(f, open, i), WalkAll(f, open + {i}, list, low))
    ensures WalkAll(f, open, list, low)[k] == i
    decreases |f.place| - low, |list| + 1
  {
    hide Consistent, SameParent, AllFrom, Under, Walk, BlockOf, BlockInserted;
    RootsAreOnTop(f);
    var n := |list| - 1;
    LastApart(f, list, p, low);
    var before, last := WalkAll(f, open, list[..n], low), Walk(f, open, list[n]);
    NotLastAndBefore(f, open, list, p, i);
    if Under(f, open, list[n], i) {
      WalkAllWithoutIsUnchanged(f, open, list[..n], low, i);
      var m := WalkOpened(f, open, list[n], i);
      InsertedRight(before, last, m, BlockOf(f, open, i), Walk(f, open + {i}, list[n]));
      k := |before| + m;
    } else {
      WalkWithoutIsUnchanged(f, open, list[n], i);
      k := WalkAllOpened(f, open, list[..n], p, low, i);
      InsertedLeft(before, k, BlockOf(f, open, i), WalkAll(f, open + {i}, list[..n], low), last);
    }
  }

  /** Opening a shown node puts one block right behind it and moves nothing else. */
  lemma ListingOpened(f: Forest, open: set<nat>, i: nat) returns (k: nat)
    requires Consistent(f) && i !in open && Shown(f, open, i)
    ensures BlockInserted(Listing(f, open), k, BlockOf(f, open, i), Listing(f, open + {i}))
    ensures Listing(f, open)[k] == i
  {
    ShownIsUnderARoot(f, open, i);
    RootsAreOnTop(f);
    k := WalkAllOpened(f, open, f.roots, Top, 0, i);
  }
}
