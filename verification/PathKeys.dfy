/** The text keys that both agents build from call paths: decimal ids joined by '>'. */
module PathKeys {

  function Digit(d: nat): (c: char)
    requires d < 10
    ensures IsDigit(c) && DigitValue(c) == d
  {
    '0' + (d as char)
  }

  function DigitValue(c: char): (d: nat)
    requires IsDigit(c)
  {
    (c as int) - ('0' as int)
  }

  predicate IsDigit(c: char) {
    '0' <= c <= '9'
  }

  function Decimal(n: nat): (s: string)
    ensures s != [] && forall k :: 0 <= k < |s| ==> IsDigit(s[k])
  {
    if n < 10 then [Digit(n)] else Decimal(n / 10) + [Digit(n % 10)]
  }

  /** The value of a run of digits. */
  function Value(s: string): nat
    requires forall k :: 0 <= k < |s| ==> IsDigit(s[k])
  {
    if s == [] then 0 else 10 * Value(s[..|s| - 1]) + DigitValue(s[|s| - 1])
  }

  lemma {:induction false} DecimalRoundTrip(n: nat)
    ensures Value(Decimal(n)) == n
  {
    var s := Decimal(n);
    if n >= 10 {
      DecimalRoundTrip(n / 10);
      assert s[..|s| - 1] == Decimal(n / 10);
    } else {
      assert s[..0] == [];
    }
  }

  function PathKey(path: seq<nat>): string {
    if path == [] then ""
    else if |path| == 1 then Decimal(path[0])
    else PathKey(path[..|path| - 1]) + ">" + Decimal(path[|path| - 1])
  }

  /** How many digits end a text. */
  function TrailingDigits(s: string): (n: nat)
    ensures n <= |s|
  {
    if s == [] || !IsDigit(s[|s| - 1]) then 0 else TrailingDigits(s[..|s| - 1]) + 1
  }

  lemma {:induction false} TrailingDigitsOfNumber(s: string)
    requires forall k :: 0 <= k < |s| ==> IsDigit(s[k])
    ensures TrailingDigits(s) == |s|
  {
    if s != [] {
      TrailingDigitsOfNumber(s[..|s| - 1]);
    }
  }

  lemma {:induction false} TrailingDigitsAfterMark(before: string, s: string)
    requires forall k :: 0 <= k < |s| ==> IsDigit(s[k])
    ensures TrailingDigits(before + ">" + s) == |s|
  {
    var t := before + ">" + s;
    if s == [] {
      assert t[|t| - 1] == '>';
    } else {
      assert t[..|t| - 1] == before + ">" + s[..|s| - 1];
      TrailingDigitsAfterMark(before, s[..|s| - 1]);
    }
  }

  lemma KeyEndsWithLastId(path: seq<nat>)
    requires path != []
    ensures
      var last := Decimal(path[|path| - 1]);
      var key := PathKey(path);
      && TrailingDigits(key) == |last|
      && key[|key| - |last|..] == last
      && (if |path| == 1 then |key| == |last|
          else |key| > |last| && key[..|key| - |last| - 1] == PathKey(path[..|path| - 1]))
  {
    var last := Decimal(path[|path| - 1]);
    if |path| == 1 {
      TrailingDigitsOfNumber(last);
    } else {
      TrailingDigitsAfterMark(PathKey(path[..|path| - 1]), last);
    }
  }

  lemma SameKeySameLastId(p: seq<nat>, q: seq<nat>)
    requires p != [] && q != [] && PathKey(p) == PathKey(q)
    ensures p[|p| - 1] == q[|q| - 1] && (|p| == 1 <==> |q| == 1)
    ensures |p| > 1 ==> PathKey(p[..|p| - 1]) == PathKey(q[..|q| - 1])
  {
    hide PathKey, Decimal, Value, TrailingDigits;
    KeyEndsWithLastId(p);
    KeyEndsWithLastId(q);
    DecimalRoundTrip(p[|p| - 1]);
    DecimalRoundTrip(q[|q| - 1]);
  }

  /** Two paths with the same key are the same path. */
  lemma {:induction false} PathKeyIsInjective(p: seq<nat>, q: seq<nat>)
    requires PathKey(p) == PathKey(q)
    ensures p == q
  {
    hide Decimal, TrailingDigits;
    if p == [] || q == [] {
      if p != [] {
        KeyEndsWithLastId(p);
      }
      if q != [] {
        KeyEndsWithLastId(q);
      }
    } else {
      SameKeySameLastId(p, q);
      if |p| > 1 {
        PathKeyIsInjective(p[..|p| - 1], q[..|q| - 1]);
        assert p == p[..|p| - 1] + [p[|p| - 1]] && q == q[..|q| - 1] + [q[|q| - 1]];
      }
    }
  }
}
