/** Which class names the include and exclude patterns accept, told by positions in the pattern text. */
module ClassPatterns {
  import Sequences
  import opened ClassFilter

  predicate IsSeparator(c: char) {
    c == '|' || c == ','
  }

  /** The characters from i up to j are one of the patterns in the list. */
  predicate IsPart(s: string, i: int, j: int) {
    && 0 <= i <= j <= |s| && (i == 0 || IsSeparator(s[i - 1])) && (j == |s| || IsSeparator(s[j]))
    && forall k :: i <= k < j ==> !IsSeparator(s[k])
  }

  /** From a up to b is what remains of i up to j without blanks and control characters at both ends. */
  predicate IsCore(s: string, i: int, j: int, a: int, b: int) {
    && 0 <= i <= a <= b <= j <= |s|
    && (forall k :: i <= k < a ==> s[k] <= ' ') && (forall k :: b <= k < j ==> s[k] <= ' ')
    && (a < b ==> s[a] > ' ' && s[b - 1] > ' ')
  }

  /** A name starts with this pattern, whose dots stand for slashes. */
  predicate Begins(pattern: string, name: string) {
    |pattern| <= |name| && forall k :: 0 <= k < |pattern| ==> name[k] == if pattern[k] == '.' then '/' else pattern[k]
  }

  /** The pattern from i up to j, trimmed and without one star at its end, is not empty and begins the name. */
  predicate AcceptsAt(s: string, i: int, j: int, a: int, b: int, name: string) {
    && IsPart(s, i, j) && IsCore(s, i, j, a, b) && a < b
    && var end := if s[b - 1] == '*' then b - 1 else b;
       a < end && Begins(s[a..end], name)
  }

  ghost predicate Accepts(patterns: string, name: string) {
    exists i, j, a, b :: AcceptsAt(patterns, i, j, a, b, name)
  }

  // ---- trimming

  lemma {:induction false} TrimEndIs(s: string, b: nat)
    requires b <= |s| && (forall k :: b <= k < |s| ==> s[k] <= ' ') && (b > 0 ==> s[b - 1] > ' ')
    ensures TrimEnd(s) == s[..b]
  {
    if b < |s| {
      TrimEndIs(s[..|s| - 1], b);
      assert s[..|s| - 1][..b] == s[..b];
    } else {
      assert s[..b] == s;
    }
  }

  lemma {:induction false} BlankTrims(s: string)
    requires forall k :: 0 <= k < |s| ==> s[k] <= ' '
    ensures Trim(s) == ""
    decreases |s|
  {
    if s != "" {
      BlankTrims(s[1..]);
    }
  }

  lemma {:induction false} TrimIs(s: string, a: int, b: int)
    requires IsCore(s, 0, |s|, a, b)
    ensures Trim(s) == s[a..b]
    decreases |s|
  {
    if a == b {
      BlankTrims(s);
    } else if a == 0 {
      TrimEndIs(s, b);
    } else {
      TrimIs(s[1..], a - 1, b - 1);
      assert s[1..][a - 1..b - 1] == s[a..b];
    }
  }

  lemma {:induction false} HasCore(s: string, i: int, j: int) returns (a: int, b: int)
    requires 0 <= i <= j <= |s|
    ensures IsCore(s, i, j, a, b)
    decreases j - i
  {
    if i < j && s[i] <= ' ' {
      a, b := HasCore(s, i + 1, j);
    } else if i < j && s[j - 1] <= ' ' {
      a, b := HasCore(s, i, j - 1);
    } else {
      a, b := i, j;
    }
  }

  /** The core, read inside the piece. */
  lemma TrimPart(s: string, i: int, j: int, a: int, b: int)
    requires IsCore(s, i, j, a, b)
    ensures Trim(s[i..j]) == s[a..b]
  {
    hide Trim;
    var piece := s[i..j];
    forall k | 0 <= k < |piece| ensures piece[k] == s[i + k] {
    }
    TrimIs(piece, a - i, b - i);
    assert piece[a - i..b - i] == s[a..b];
  }

  // ---- one pattern

  lemma SlashesBegin(pattern: string, name: string)
    ensures WithSlashes(pattern) <= name <==> Begins(pattern, name)
  {
    var slashed := WithSlashes(pattern);
    if Begins(pattern, name) {
      assert name[..|pattern|] == slashed;
    }
    if slashed <= name {
      assert forall k :: 0 <= k < |pattern| ==> name[k] == slashed[k];
    }
  }

  lemma StarIsDropped(s: string, a: int, b: int)
    requires 0 <= a < b <= |s|
    ensures
      var core := WithSlashes(s[a..b]);
      && (s[b - 1] == '*' <==> Sequences.EndsWith(core, "*"))
      && (if Sequences.EndsWith(core, "*") then core[..|core| - 1] else core)
        == WithSlashes(s[a..if s[b - 1] == '*' then b - 1 else b])
  {
    var core := WithSlashes(s[a..b]);
    assert core[|core| - 1..] == [core[|core| - 1]];
    assert s[a..b][..|core| - 1] == s[a..b - 1];
    assert core[..|core| - 1] == WithSlashes(s[a..b - 1]);
  }

  /** The pattern a piece of the list stands for, if there is more to it than blanks. */
  lemma PrefixOfPart(s: string, i: int, j: int, a: int, b: int)
    requires IsCore(s, i, j, a, b)
    ensures a == b ==> PrefixOf(s[i..j]) == ""
    ensures a < b ==> PrefixOf(s[i..j]) == WithSlashes(s[a..if s[b - 1] == '*' then b - 1 else b])
  {
    hide Trim, WithSlashes, Sequences.EndsWith, IsCore;
    CoreInRange(s, i, j, a, b);
    TrimPart(s, i, j, a, b);
    if a < b {
      StarIsDropped(s, a, b);
    } else {
      NoPattern();
    }
  }

  lemma CoreInRange(s: string, i: int, j: int, a: int, b: int)
    requires IsCore(s, i, j, a, b)
    ensures 0 <= i <= a <= b <= j <= |s|
  {
  }

  lemma NoPattern()
    ensures WithSlashes("") == "" && !Sequences.EndsWith("", "*")
  {
  }

  lemma OnePattern(s: string, i: int, j: int, a: int, b: int, name: string)
    requires IsPart(s, i, j) && IsCore(s, i, j, a, b)
    ensures PrefixOf(s[i..j]) != "" && PrefixOf(s[i..j]) <= name <==> AcceptsAt(s, i, j, a, b, name)
  {
    hide PrefixOf, Begins, IsPart, IsCore;
    CoreInRange(s, i, j, a, b);
    PrefixOfPart(s, i, j, a, b);
    if a < b {
      SlashesBegin(s[a..if s[b - 1] == '*' then b - 1 else b], name);
    }
  }

  // ---- the pieces of the list

  /** A part of the text without its last character, or that part grown by it. */
  lemma PartGrows(s: string, i: int, j: int)
    requires s != "" && IsPart(s[..|s| - 1], i, j)
    ensures
      var n := |s| - 1;
      var end := if j == n && !IsSeparator(s[n]) then n + 1 else j;
      && IsPart(s, i, end) && (end == |s| <==> j == n && !IsSeparator(s[n]))
      && s[i..end] == s[..n][i..j] + if end == j then [] else [s[n]]
  {
    var most := s[..|s| - 1];
    assert forall k :: 0 <= k < |most| ==> most[k] == s[k];
  }

  lemma PartShrinks(s: string, i: int, j: int)
    requires s != "" && IsPart(s, i, j) && i < |s|
    ensures
      var n := |s| - 1;
      var end := if j > n then n else j;
      && IsPart(s[..n], i, end) && (end == n <==> j == n + 1 || (j == n && IsSeparator(s[n])))
      && (j == n + 1 ==> !IsSeparator(s[n]))
      && s[i..j] == s[..n][i..end] + if end == j then [] else [s[n]]
  {
    var most := s[..|s| - 1];
    assert forall k :: 0 <= k < |most| ==> most[k] == s[k];
  }

  lemma EmptyPart(s: string)
    requires s == "" || IsSeparator(s[|s| - 1])
    ensures IsPart(s, |s|, |s|) && s[|s|..|s|] == ""
  {
  }

  /** How one character more changes the pieces. */
  lemma PiecesGrow(s: string)
    requires s != ""
    ensures
      var n := |s| - 1;
      var before := Split(s[..n]);
      var last := |before| - 1;
      if IsSeparator(s[n]) then
        && |Split(s)| == |before| + 1 && Split(s)[|before|] == ""
        && forall k :: 0 <= k <= last ==> Split(s)[k] == before[k]
      else
        && |Split(s)| == |before| && Split(s)[last] == before[last] + [s[n]]
        && forall k :: 0 <= k < last ==> Split(s)[k] == before[k]
  {
  }

  lemma {:induction false} PieceIsPart(s: string, k: nat) returns (i: int, j: int)
    requires k < |Split(s)|
    ensures IsPart(s, i, j) && Split(s)[k] == s[i..j] && (j == |s| <==> k == |Split(s)| - 1)
  {
    i, j := |s|, |s|;
    if s == "" {
      EmptyPart(s);
    } else {
      hide Split, IsPart;
      var n := |s| - 1;
      PiecesGrow(s);
      if k == |Split(s[..n])| {
        EmptyPart(s);
      } else {
        i, j := PieceIsPart(s[..n], k);
        PartGrows(s, i, j);
        j := if j == n && !IsSeparator(s[n]) then n + 1 else j;
        PartBounds(s, i, j);
      }
    }
  }

  lemma {:induction false} PartIsPiece(s: string, i: int, j: int) returns (k: nat)
    requires IsPart(s, i, j)
    ensures k < |Split(s)| && s[i..j] == Split(s)[k] && (j == |s| <==> k == |Split(s)| - 1)
  {
    hide Split, IsPart;
    k := |Split(s)| - 1;
    PartBounds(s, i, j);
    if s == "" {
      NoPieces();
    } else {
      PiecesGrow(s);
      if i == |s| {
        LastStartsBehindSeparator(s, i, j);
      } else {
        PartShrinks(s, i, j);
        k := PartIsPiece(s[..|s| - 1], i, if j > |s| - 1 then |s| - 1 else j);
      }
    }
  }

  lemma NoPieces()
    ensures Split("") == [""]
  {
  }

  lemma LastStartsBehindSeparator(s: string, i: int, j: int)
    requires s != "" && i == |s| && IsPart(s, i, j)
    ensures j == |s| && IsSeparator(s[|s| - 1]) && s[i..j] == ""
  {
  }

  /** A list of patterns matches a name exactly if one of its patterns accepts it. */
  lemma ListMatchesByPart(name: Name, patterns: string)
    ensures MatchesAnyPrefix(name, patterns) <==> Accepts(patterns, name.text)
  {
    hide Split, PrefixOf, AcceptsAt, IsPart, IsCore;
    var parts := Split(patterns);
    if MatchesAnyPrefix(name, patterns) {
      var k :| 0 <= k < |parts| && PrefixOf(parts[k]) != "" && PrefixOf(parts[k]) <= name.text;
      var i, j := PieceIsPart(patterns, k);
      PartBounds(patterns, i, j);
      var a, b := HasCore(patterns, i, j);
      OnePattern(patterns, i, j, a, b, name.text);
    }
    if Accepts(patterns, name.text) {
      var i, j, a, b :| AcceptsAt(patterns, i, j, a, b, name.text);
      AcceptedPart(patterns, i, j, a, b, name.text);
      var k := PartIsPiece(patterns, i, j);
      OnePattern(patterns, i, j, a, b, name.text);
      assert parts[k] == patterns[i..j];
    }
  }

  lemma PartBounds(s: string, i: int, j: int)
    requires IsPart(s, i, j)
    ensures 0 <= i <= j <= |s|
  {
  }

  lemma AcceptedPart(s: string, i: int, j: int, a: int, b: int, name: string)
    requires AcceptsAt(s, i, j, a, b, name)
    ensures IsPart(s, i, j) && IsCore(s, i, j, a, b) && 0 <= i <= j <= |s|
  {
  }

  // ---- the whole list trimmed

  /** A position in the trimmed list, as one in the whole list: the ends are the ends. */
  function Outer(lo: int, hi: int, length: int, k: int, isEnd: bool): int {
    if k == 0 && !isEnd then 0 else if k == hi - lo && isEnd then length else lo + k
  }

  lemma PartOutside(s: string, lo: int, hi: int, i: int, j: int)
    requires IsCore(s, 0, |s|, lo, hi) && IsPart(s[lo..hi], i, j)
    ensures IsPart(s, Outer(lo, hi, |s|, i, false), Outer(lo, hi, |s|, j, true))
  {
    var first, last := Outer(lo, hi, |s|, i, false), Outer(lo, hi, |s|, j, true);
    forall k | first <= k < last ensures !IsSeparator(s[k]) {
      assert lo <= k < hi ==> s[lo..hi][k - lo] == s[k];
    }
    assert i > 0 ==> s[lo..hi][i - 1] == s[lo + i - 1];
    assert j < hi - lo ==> s[lo..hi][j] == s[lo + j];
  }

  lemma CoreOutside(s: string, lo: int, hi: int, i: int, j: int, a: int, b: int)
    requires IsCore(s, 0, |s|, lo, hi) && IsCore(s[lo..hi], i, j, a, b) && a < b
    ensures IsCore(s, Outer(lo, hi, |s|, i, false), Outer(lo, hi, |s|, j, true), lo + a, lo + b)
  {
    assert forall k :: lo <= k < hi ==> s[lo..hi][k - lo] == s[k];
  }

  lemma SameSlice(s: string, lo: int, hi: int, a: int, b: int)
    requires 0 <= lo <= hi <= |s| && 0 <= a <= b <= hi - lo
    ensures s[lo..hi][a..b] == s[lo + a..lo + b]
    ensures a < b ==> s[lo..hi][b - 1] == s[lo + b - 1]
  {
    forall k | 0 <= k < b - a ensures s[lo..hi][a..b][k] == s[lo + a..lo + b][k] {
    }
  }

  lemma AcceptedInside(s: string, lo: int, hi: int, i: int, j: int, a: int, b: int, name: string)
    requires IsCore(s, 0, |s|, lo, hi) && AcceptsAt(s[lo..hi], i, j, a, b, name)
    ensures AcceptsAt(s, Outer(lo, hi, |s|, i, false), Outer(lo, hi, |s|, j, true), lo + a, lo + b, name)
  {
    hide Begins, IsPart, IsCore, Outer;
    CoreInRange(s, 0, |s|, lo, hi);
    CoreInRange(s[lo..hi], i, j, a, b);
    PartOutside(s, lo, hi, i, j);
    CoreOutside(s, lo, hi, i, j, a, b);
    SameSlice(s, lo, hi, a, b);
    SameSlice(s, lo, hi, a, b - 1);
  }

  lemma PartInside(s: string, lo: int, hi: int, i: int, j: int)
    requires IsCore(s, 0, |s|, lo, hi) && IsPart(s, i, j) && i < hi && lo < j
    ensures IsPart(s[lo..hi], if i < lo then 0 else i - lo, if j > hi then hi - lo else j - lo)
  {
    assert forall k :: lo <= k < hi ==> s[lo..hi][k - lo] == s[k];
  }

  lemma CoreInside(s: string, lo: int, hi: int, i: int, j: int, a: int, b: int)
    requires IsCore(s, 0, |s|, lo, hi) && IsCore(s, i, j, a, b) && a < b
    ensures lo <= a && b <= hi
    ensures IsCore(s[lo..hi], if i < lo then 0 else i - lo, if j > hi then hi - lo else j - lo, a - lo, b - lo)
  {
    CoresNest(s, lo, hi, i, j, a, b);
    assert forall k :: lo <= k < hi ==> s[lo..hi][k - lo] == s[k];
  }

  lemma CoresNest(s: string, lo: int, hi: int, i: int, j: int, a: int, b: int)
    requires IsCore(s, 0, |s|, lo, hi) && IsCore(s, i, j, a, b) && a < b
    ensures lo <= a && b <= hi
  {
    assert s[a] > ' ' && s[b - 1] > ' ';
  }

  lemma AcceptedOutside(s: string, lo: int, hi: int, i: int, j: int, a: int, b: int, name: string)
    requires IsCore(s, 0, |s|, lo, hi) && AcceptsAt(s, i, j, a, b, name)
    ensures 0 <= lo <= hi <= |s|
    ensures
      var first, last := if i < lo then 0 else i - lo, if j > hi then hi - lo else j - lo;
      AcceptsAt(s[lo..hi], first, last, a - lo, b - lo, name)
  {
    hide Begins, IsPart, IsCore;
    CoreInRange(s, 0, |s|, lo, hi);
    CoreInRange(s, i, j, a, b);
    CoreInside(s, lo, hi, i, j, a, b);
    PartInside(s, lo, hi, i, j);
    SameSlice(s, lo, hi, a - lo, b - lo);
    SameSlice(s, lo, hi, a - lo, b - 1 - lo);
  }

  /** Blanks around the list do not matter. */
  lemma TrimmedAccepts(s: string, name: string)
    ensures Accepts(Trim(s), name) <==> Accepts(s, name)
  {
    hide Trim, AcceptsAt, IsCore;
    var lo, hi := HasCore(s, 0, |s|);
    TrimIs(s, lo, hi);
    CoreBounds(s, lo, hi);
    var inner := s[lo..hi];
    if Accepts(inner, name) {
      var i, j, a, b :| AcceptsAt(inner, i, j, a, b, name);
      AcceptedInside(s, lo, hi, i, j, a, b, name);
    }
    if Accepts(s, name) {
      var i, j, a, b :| AcceptsAt(s, i, j, a, b, name);
      AcceptedOutside(s, lo, hi, i, j, a, b, name);
    }
  }

  lemma CoreBounds(s: string, lo: int, hi: int)
    requires IsCore(s, 0, |s|, lo, hi)
    ensures 0 <= lo <= hi <= |s|
    ensures s[lo..hi] == "" <==> IsBlank(s)
  {
    assert |s[lo..hi]| == hi - lo;
    if lo < hi {
      assert s[lo] > ' ';
    }
  }

  predicate IsBlank(s: string) {
    forall k :: 0 <= k < |s| ==> s[k] <= ' '
  }

  // ---- which classes are instrumented

  /** Of the profiler, or a class it must not touch. */
  predicate IsNeverTouched(name: Name) {
    || name.text == "jdbc/CustomFunction"
    || "com/openprofiler/agent/" <= name.text || "com/openprofiler/protocol/" <= name.text
    || "com/google/protobuf/" <= name.text || "org/objectweb/asm/" <= name.text
  }

  /** Of the platform, of a database driver or of a well-known library. */
  predicate IsLibraryClass(name: Name) {
    StartsWithAny(name.text, JDK) || StartsWithAny(name.text, JDBC_DRIVERS) || StartsWithAny(name.text, LIBRARIES)
  }

  lemma FourPrefixes(s: string, prefixes: seq<string>)
    requires |prefixes| == 4
    ensures
      StartsWithAny(s, prefixes) <==>
      prefixes[0] <= s || prefixes[1] <= s || prefixes[2] <= s || prefixes[3] <= s
  {
  }

  /**
   * The profiler's own classes are never instrumented, and classes whose allocations are traced always are. Of the
   * others a class is instrumented exactly if it is no library class, a class loader loaded it or it is one of the
   * profiler's benchmarks, no exclude pattern accepts its name, and some include pattern does, if there are any.
   */
  lemma PatternsDecide(name: Name, hasLoader: bool, rules: Rules)
    ensures
      IsEligible(name, hasLoader, rules) <==>
      !IsNeverTouched(name)
      && (IsAllocationTraceClass(name)
          || (!IsLibraryClass(name) && (hasLoader || "com/openprofiler/benchmark/" <= name.text)
              && !Accepts(rules.excludes, name.text)
              && (IsBlank(rules.includes) || Accepts(rules.includes, name.text))))
  {
    hide IsAllocationTraceClass, StartsWithAny, MatchesAnyPrefix, Accepts, Trim, IsCore, IsBlank;
    FourPrefixes(name.text, OWN);
    ListMatchesByPart(name, rules.excludes);
    ListMatchesByPart(name, Trim(rules.includes));
    TrimmedAccepts(rules.includes, name.text);
    var lo, hi := HasCore(rules.includes, 0, |rules.includes|);
    TrimIs(rules.includes, lo, hi);
    CoreBounds(rules.includes, lo, hi);
  }
}
