/** Sums and occurrences in sequences, and the doubling rule that every growable array of the agent uses. */
module Sequences {

  function Least(a: nat, b: nat): nat {
    if a < b then a else b
  }

  /** What is left of a when b is taken away, 0 if b is more. */
  function Minus(a: nat, b: nat): nat { if a > b then a - b else 0 }

  predicate EndsWith(s: string, suffix: string) {
    |suffix| <= |s| && s[|s| - |suffix|..] == suffix
  }

  /** Every earlier element stands in the relation to every later one. */
  predicate Pairwise<T>(s: seq<T>, related: (T, T) -> bool) {
    forall j, k :: 0 <= j < k < |s| ==> related(s[j], s[k])
  }

  lemma Regroup<T>(a: seq<T>, b: seq<T>, c: seq<T>)
    ensures a + (b + c) == (a + b) + c
  {
  }

  /** How often a number is listed. */
  function Times(s: seq<nat>, j: nat): nat {
    if s == [] then 0 else Times(s[..|s| - 1], j) + (if s[|s| - 1] == j then 1 else 0)
  }

  lemma {:induction false} TimesConcat(s: seq<nat>, t: seq<nat>, j: nat)
    ensures Times(s + t, j) == Times(s, j) + Times(t, j)
  {
    if t == [] {
      assert s + t == s;
    } else {
      assert (s + t)[..|s + t| - 1] == s + t[..|t| - 1];
      TimesConcat(s, t[..|t| - 1], j);
    }
  }

  lemma {:induction false} NeverListed(s: seq<nat>, j: nat)
    requires forall k :: 0 <= k < |s| ==> s[k] != j
    ensures Times(s, j) == 0
  {
    if s != [] {
      NeverListed(s[..|s| - 1], j);
    }
  }

  function Sum(s: seq<int>): int {
    if s == [] then 0 else Sum(s[..|s| - 1]) + s[|s| - 1]
  }

  lemma {:induction false} SumConcat(s: seq<int>, t: seq<int>)
    ensures Sum(s + t) == Sum(s) + Sum(t)
  {
    if t == [] {
      assert s + t == s;
    } else {
      var t' := t[..|t| - 1];
      assert (s + t)[..|s + t| - 1] == s + t';
      SumConcat(s, t');
    }
  }

  lemma {:induction false} SumUpdate(s: seq<int>, i: nat, x: int)
    requires i < |s|
    ensures Sum(s[i := x]) == Sum(s) - s[i] + x
  {
    var n := |s| - 1;
    if i == n {
      assert s[i := x][..n] == s[..n];
    } else {
      assert s[i := x][..n] == s[..n][i := x];
      SumUpdate(s[..n], i, x);
    }
  }

  lemma {:induction false} SumZeros(s: seq<int>)
    requires forall i :: 0 <= i < |s| ==> s[i] == 0
    ensures Sum(s) == 0
  {
    if s != [] {
      SumZeros(s[..|s| - 1]);
    }
  }

  lemma {:induction false} SumNonNegative(s: seq<int>)
    requires forall i :: 0 <= i < |s| ==> s[i] >= 0
    ensures Sum(s) >= 0
  {
    if s != [] {
      SumNonNegative(s[..|s| - 1]);
    }
  }

  lemma {:induction false} SumAtMost(s: seq<int>, t: seq<int>)
    requires |s| == |t| && forall i :: 0 <= i < |s| ==> s[i] <= t[i]
    ensures Sum(s) <= Sum(t)
  {
    if s != [] {
      SumAtMost(s[..|s| - 1], t[..|t| - 1]);
    }
  }

  /** The length an array of `length` slots grows to when `required` slots are needed. */
  function GrownLength(length: nat, required: int): (n: nat)
    requires length > 0
    ensures n >= length && n >= required
    decreases required - length
  {
    if length >= required then length else GrownLength(2 * length, required)
  }

  /** A counter array after making room for `required` slots: old slots kept, new ones 0. */
  function Grown(s: seq<int>, required: int): (t: seq<int>)
    requires |s| > 0
    ensures |t| >= |s| && |t| >= required && s <= t
    ensures forall i :: |s| <= i < |t| ==> t[i] == 0
  {
    s + seq(GrownLength(|s|, required) - |s|, _ => 0)
  }

  lemma GrownKeepsSum(s: seq<int>, required: int)
    requires |s| > 0
    ensures Sum(Grown(s, required)) == Sum(s)
  {
    var zeros := seq(GrownLength(|s|, required) - |s|, _ => 0);
    SumConcat(s, zeros);
    SumZeros(zeros);
  }

  /** The doubling loop shared by every growable array of the agent. */
  method NewLength(length: nat, required: nat) returns (newLength: nat)
    requires length > 0
    ensures newLength == GrownLength(length, required)
  {
    newLength := length;
    while newLength < required
      invariant newLength >= length
      invariant GrownLength(newLength, required) == GrownLength(length, required)
      decreases required - newLength
    {
      newLength := newLength * 2;
    }
  }

  /** A longer array with the same leading slots, the rest zero. */
  method Copied<T>(source: array<T>, newLength: nat, zero: T) returns (copy: array<T>)
    requires source.Length <= newLength
    ensures fresh(copy) && copy.Length == newLength
    ensures forall i :: 0 <= i < source.Length ==> copy[i] == source[i]
    ensures forall i :: source.Length <= i < newLength ==> copy[i] == zero
  {
    copy := new T[newLength](_ => zero);
    forall i | 0 <= i < source.Length {
      copy[i] := source[i];
    }
  }
}
