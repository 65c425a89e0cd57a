/** The text table that carries the native snapshot to the Java side: printed by one agent, read by the other. */
module AllocationTsv {
  import opened Sequences
  import opened Options
  import opened PathKeys

  datatype HotSpot = HotSpot(
    id: int, parentId: int, className: string, methodName: string, methodDescriptor: string, allocatedType: string,
    allocatedSize: nat, instanceCount: nat)

  // ---- printing

  function Clean(text: string): (r: string)
    ensures |r| == |text|
    ensures forall k :: 0 <= k < |r| ==> r[k] != '\t' && r[k] != '\r' && r[k] != '\n'
  {
    seq(|text|, k requires 0 <= k < |text| => if text[k] in {'\t', '\r', '\n'} then ' ' else text[k])
  }

  function Printed(n: int): string {
    if n < 0 then "-" + Decimal(-n) else Decimal(n)
  }

  /** The fields of a line, in order. */
  function Cells(r: HotSpot): (cells: seq<string>)
    ensures |cells| == 8
  {
    [Printed(r.id), Printed(r.parentId), Clean(r.className), Clean(r.methodName), Clean(r.methodDescriptor),
     Clean(r.allocatedType), Printed(r.allocatedSize), Printed(r.instanceCount)]
  }

  function Front(r: HotSpot): string {
    Printed(r.id) + "\t" + Printed(r.parentId) + "\t"
  }

  function Names(r: HotSpot): string {
    Clean(r.className) + "\t" + Clean(r.methodName) + "\t" + Clean(r.methodDescriptor) + "\t" + Clean(r.allocatedType)
  }

  function Back(r: HotSpot): string {
    "\t" + Printed(r.allocatedSize) + "\t" + Printed(r.instanceCount)
  }

  function Line(r: HotSpot): string {
    Front(r) + Names(r) + Back(r)
  }

  function Text(rows: seq<HotSpot>): string {
    if rows == [] then ""
    else if |rows| == 1 then Line(rows[0])
    else Text(rows[..|rows| - 1]) + "\n" + Line(rows[|rows| - 1])
  }

  // ---- reading

  /** The line breaks of a Java regular expression's \R, apart from the pair of CR and LF. */
  predicate IsBreak(c: char) {
    c in {'\n', '\U{0B}', '\U{0C}', '\r', '\U{85}', '\U{2028}', '\U{2029}'}
  }

  /** Splitting on line breaks; CR and LF together are one. */
  function Lines(s: string): (r: seq<string>)
    ensures r != []
  {
    if s == "" then [""]
    else
      var n := |s| - 1;
      if s[n] == '\n' && n > 0 && s[n - 1] == '\r' then Lines(s[..n - 1]) + [""]
      else
        var before := Lines(s[..n]);
        if IsBreak(s[n]) then before + [""] else Extended(before, [s[n]])
  }

  /** The last piece grown by a text. */
  function Extended(pieces: seq<string>, t: string): (r: seq<string>)
    requires pieces != []
    ensures |r| == |pieces|
  {
    pieces[..|pieces| - 1] + [pieces[|pieces| - 1] + t]
  }

  /** Splitting on tabs, empty fields kept. */
  function Fields(s: string): (r: seq<string>)
    ensures r != []
  {
    if s == "" then [""]
    else
      var n := |s| - 1;
      var before := Fields(s[..n]);
      if s[n] == '\t' then before + [""] else before[..|before| - 1] + [before[|before| - 1] + [s[n]]]
  }

  predicate IsWhitespace(c: char) {
    || '\t' <= c <= '\r' || '\U{1C}' <= c <= ' '
    || c in {'\U{1680}', '\U{2028}', '\U{2029}', '\U{205F}', '\U{3000}'}
    || '\U{2000}' <= c <= '\U{2006}' || '\U{2008}' <= c <= '\U{200A}'
  }

  predicate IsBlank(s: string) {
    forall k :: 0 <= k < |s| ==> IsWhitespace(s[k])
  }

  predicate AllDigits(s: string) {
    forall k :: 0 <= k < |s| ==> IsDigit(s[k])
  }

  /** A number with an optional sign, if it is one and fits. */
  function ParseNumber(s: string, limit: int): Option<int> {
    if s == "" then None
    else
      var signed := s[0] == '-' || s[0] == '+';
      var digits := if signed then s[1..] else s;
      if digits == "" || !AllDigits(digits) then None
      else
        var n: int := if s[0] == '-' then 0 - Value(digits) else Value(digits);
        if -limit <= n < limit then Some(n) else None
  }

  function ParseInt(s: string): Option<int> {
    ParseNumber(s, 0x8000_0000)
  }

  function ParseLong(s: string): Option<int> {
    ParseNumber(s, 0x8000_0000_0000_0000)
  }

  datatype ReadRow = ReadRow(
    id: int, parentId: int, className: string, methodName: string, methodDescriptor: string, allocatedType: string,
    allocatedSize: int, instanceCount: int)

  function RowOf(parts: seq<string>): Option<ReadRow> {
    if |parts| < 8 then None
    else
      var id, parentId, size, count := ParseInt(parts[0]), ParseInt(parts[1]), ParseLong(parts[6]), ParseLong(parts[7]);
      if id.None? || parentId.None? || size.None? || count.None? then None
      else Some(ReadRow(id.value, parentId.value, parts[2], parts[3], parts[4], parts[5], size.value, count.value))
  }

  function RowsOf(lines: seq<string>): seq<ReadRow> {
    if lines == [] then []
    else
      var line := lines[|lines| - 1];
      var row := RowOf(Fields(line));
      RowsOf(lines[..|lines| - 1]) + (if IsBlank(line) || row.None? then [] else [row.value])
  }

  function Read(text: string): seq<ReadRow> {
    if IsBlank(text) then [] else RowsOf(Lines(text))
  }

  method ReadNativeAllocationHotSpots(text: string) returns (hotSpots: seq<ReadRow>)
    ensures hotSpots == Read(text)
  {
    hide Lines, Fields, RowOf, IsWhitespace;
    hotSpots := [];
    if IsBlank(text) {
      return;
    }
    var lines := Lines(text);
    for i := 0 to |lines|
      invariant hotSpots == RowsOf(lines[..i])
    {
      assert lines[..i + 1][..i] == lines[..i];
      var line := lines[i];
      if IsBlank(line) {
        continue;
      }
      var row := RowOf(Fields(line));
      if row.Some? {
        hotSpots := hotSpots + [row.value];
      }
    }
    assert lines[..|lines|] == lines;
  }

  // ---- which rows survive

  predicate NoBreak(s: string) {
    forall k :: 0 <= k < |s| ==> !IsBreak(s[k])
  }

  const LONG_LIMIT: nat := 0x8000_0000_0000_0000

  /** Both counters fit a signed 64-bit number, and no name holds a line break other than CR and LF. */
  predicate Survives(r: HotSpot) {
    && r.allocatedSize < LONG_LIMIT && r.instanceCount < LONG_LIMIT
    && NoBreak(Clean(r.className)) && NoBreak(Clean(r.methodName))
    && NoBreak(Clean(r.methodDescriptor)) && NoBreak(Clean(r.allocatedType))
  }

  function Cleaned(r: HotSpot): ReadRow {
    ReadRow(r.id, r.parentId, Clean(r.className), Clean(r.methodName), Clean(r.methodDescriptor),
            Clean(r.allocatedType), r.allocatedSize, r.instanceCount)
  }

  function Survivors(rows: seq<HotSpot>): seq<ReadRow> {
    if rows == [] then []
    else
      var last := rows[|rows| - 1];
      Survivors(rows[..|rows| - 1]) + (if Survives(last) then [Cleaned(last)] else [])
  }

  predicate HasInt32Ids(r: HotSpot) {
    -0x8000_0000 <= r.id < 0x8000_0000 && -0x8000_0000 <= r.parentId < 0x8000_0000
  }

  // ---- numbers

  lemma PrintedNumberIsRead(n: int, limit: int)
    ensures ParseNumber(Printed(n), limit) == if -limit <= n < limit then Some(n) else None
  {
    var digits := Decimal(if n < 0 then -n else n);
    DecimalRoundTrip(if n < 0 then -n else n);
    if n < 0 {
      assert Printed(n)[1..] == digits;
    } else {
      assert IsDigit(digits[0]);
    }
  }

  lemma PrintedIsPlain(n: int)
    ensures Printed(n) != ""
    ensures forall k :: 0 <= k < |Printed(n)| ==> IsDigit(Printed(n)[k]) || Printed(n)[k] == '-'
    ensures IsDigit(Printed(n)[|Printed(n)| - 1])
  {
    var digits := Decimal(if n < 0 then -n else n);
    if n < 0 {
      assert Printed(n)[1..] == digits;
      assert IsDigit(digits[|digits| - 1]);
    }
  }

  // ---- splitting what was joined

  predicate Lacks(s: string, c: char) {
    forall k :: 0 <= k < |s| ==> s[k] != c
  }

  lemma {:induction false} FieldsOfJoined(a: string, b: string)
    requires Lacks(b, '\t')
    ensures Fields(a + "\t" + b) == Fields(a) + [b]
  {
    var s := a + "\t" + b;
    if b == "" {
      assert s[..|s| - 1] == a;
    } else {
      var b' := b[..|b| - 1];
      FieldsOfJoined(a, b');
      assert s[..|s| - 1] == a + "\t" + b';
      assert b == b' + [b[|b| - 1]];
    }
  }

  lemma {:induction false} FieldsOfPlain(b: string)
    requires Lacks(b, '\t')
    ensures Fields(b) == [b]
  {
    if b != "" {
      FieldsOfPlain(b[..|b| - 1]);
      assert b == b[..|b| - 1] + [b[|b| - 1]];
    }
  }

  lemma LinesPlainChar(s: string, c: char)
    requires !IsBreak(c)
    ensures Lines(s + [c]) == Extended(Lines(s), [c])
  {
    assert (s + [c])[..|s|] == s;
  }

  lemma LinesBreakChar(s: string, c: char)
    requires IsBreak(c) && !(c == '\n' && EndsWithReturn(s))
    ensures Lines(s + [c]) == Lines(s) + [""]
  {
    assert (s + [c])[..|s|] == s;
  }

  lemma LinesPair(s: string)
    ensures Lines((s + "\r") + "\n") == Lines(s) + [""]
  {
    var all := (s + "\r") + "\n";
    assert all[..|all| - 2] == s;
  }

  lemma ExtendedTwice(pieces: seq<string>, a: string, b: string)
    requires pieces != []
    ensures Extended(Extended(pieces, a), b) == Extended(pieces, a + b)
  {
    var n := |pieces| - 1;
    assert (pieces[n] + a) + b == pieces[n] + (a + b);
    assert (pieces[..n] + [pieces[n] + a])[..n] == pieces[..n];
  }

  lemma ExtendedByNothing(pieces: seq<string>)
    requires pieces != []
    ensures Extended(pieces, "") == pieces
  {
    assert pieces[|pieces| - 1] + "" == pieces[|pieces| - 1];
  }

  /** The first piece grown in front. */
  function Headed(t: string, pieces: seq<string>): (r: seq<string>)
    requires pieces != []
    ensures |r| == |pieces|
  {
    [t + pieces[0]] + pieces[1..]
  }

  lemma HeadedExtended(t: string, pieces: seq<string>, a: string)
    requires pieces != []
    ensures Extended(Headed(t, pieces), a) == Headed(t, Extended(pieces, a))
  {
    assert (t + pieces[0]) + a == t + (pieces[0] + a);
    if |pieces| == 1 {
      assert Headed(t, pieces) == [t + pieces[0]] && Extended(pieces, a) == [pieces[0] + a];
    } else {
      var n := |pieces| - 1;
      assert Headed(t, pieces)[n] == pieces[n];
    }
  }

  lemma HeadedLonger(t: string, pieces: seq<string>)
    requires pieces != []
    ensures Headed(t, pieces) + [""] == Headed(t, pieces + [""])
  {
  }

  lemma AppendedExtended(before: seq<string>, pieces: seq<string>, a: string)
    requires pieces != []
    ensures Extended(before + pieces, a) == before + Extended(pieces, a)
  {
    assert (before + pieces)[..|before + pieces| - 1] == before + pieces[..|pieces| - 1];
  }

  lemma LastChar(s: string)
    requires s != ""
    ensures s == s[..|s| - 1] + [s[|s| - 1]]
  {
  }

  /** The last piece grows by a text without line breaks. */
  lemma {:induction false} LinesThenPlain(s: string, t: string)
    requires NoBreak(t)
    ensures Lines(s + t) == Extended(Lines(s), t)
  {
    hide Lines, Extended, IsBreak;
    if t == "" {
      assert s + t == s;
      ExtendedByNothing(Lines(s));
    } else {
      var t', c := t[..|t| - 1], t[|t| - 1];
      LinesThenPlain(s, t');
      LastChar(t);
      Regroup(s, t', [c]);
      LinesPlainChar(s + t', c);
      ExtendedTwice(Lines(s), t', [c]);
    }
  }

  /** How a text ends: with nothing, a pair of CR and LF, another line break, or something else. */
  lemma {:induction false} PlainThenLines(t: string, s: string)
    requires NoBreak(t)
    ensures Lines(t + s) == Headed(t, Lines(s))
  {
    if s == "" {
      LinesOfPlain(t);
      assert t + s == t && t + "" == t;
    } else {
      var s', c := s[..|s| - 1], s[|s| - 1];
      LastChar(s);
      Regroup(t, s', [c]);
      NotAfterPlain(t, s');
      hide Lines, Extended, Headed, IsBreak, NoBreak;
      if !IsBreak(c) {
        PlainThenLines(t, s');
        LinesPlainChar(t + s', c);
        LinesPlainChar(s', c);
        HeadedExtended(t, Lines(s'), [c]);
      } else if c == '\n' && EndsWithReturn(s') {
        var s'' := s'[..|s'| - 1];
        PlainThenLines(t, s'');
        LastChar(s');
        Regroup(t, s'', "\r");
        LinesPair(t + s'');
        LinesPair(s'');
        HeadedLonger(t, Lines(s''));
      } else {
        PlainThenLines(t, s');
        LinesBreakChar(t + s', c);
        LinesBreakChar(s', c);
        HeadedLonger(t, Lines(s'));
      }
    }
  }

  lemma LinesOfPlain(t: string)
    requires NoBreak(t)
    ensures Lines(t) == [t]
  {
    LinesThenPlain("", t);
    assert "" + t == t;
  }

  lemma NotAfterPlain(t: string, s: string)
    requires NoBreak(t)
    ensures EndsWithReturn(t + s) ==> EndsWithReturn(s)
  {
    if s == "" {
      assert t + s == t;
      assert t != "" ==> !IsBreak(t[|t| - 1]);
    }
  }

  predicate EndsWithReturn(s: string) {
    s != "" && s[|s| - 1] == '\r'
  }

  lemma {:induction false} LinesOfJoined(a: string, b: string)
    requires !EndsWithReturn(a)
    ensures Lines(a + "\n" + b) == Lines(a) + Lines(b)
  {
    hide Lines, Extended, IsBreak;
    var front := a + "\n";
    if b == "" {
      assert front + b == front;
      EmptyLine();
      LinesBreakChar(a, '\n');
    } else {
      var b', c := b[..|b| - 1], b[|b| - 1];
      LastChar(b);
      Regroup(front, b', [c]);
      if !IsBreak(c) {
        LinesOfJoined(a, b');
        LinesPlainChar(front + b', c);
        LinesPlainChar(b', c);
        AppendedExtended(Lines(a), Lines(b'), [c]);
      } else if c == '\n' && EndsWithReturn(b') {
        var b'' := b'[..|b'| - 1];
        LinesOfJoined(a, b'');
        LastChar(b');
        Regroup(front, b'', "\r");
        LinesPair(front + b'');
        LinesPair(b'');
        assert Lines(a) + (Lines(b'') + [""]) == (Lines(a) + Lines(b'')) + [""];
      } else {
        LinesOfJoined(a, b');
        LinesBreakChar(front + b', c);
        LinesBreakChar(b', c);
        assert Lines(a) + (Lines(b') + [""]) == (Lines(a) + Lines(b')) + [""];
      }
    }
  }

  lemma EmptyLine()
    ensures Lines("") == [""] && IsBreak('\n')
  {
  }

  // ---- one line

  lemma JoinStep(front: string, n: string, c: string)
    ensures front + (n + "\t" + c) == (front + n) + "\t" + c
  {
    Regroup(front, n + "\t", c);
    Regroup(front, n, "\t");
  }

  lemma CellIsPlain(n: int)
    ensures Lacks(Printed(n), '\t') && NoBreak(Printed(n))
  {
    PrintedIsPlain(n);
  }

  lemma FieldsOfLine(r: HotSpot)
    ensures Fields(Line(r)) == Cells(r)
  {
    var c := Cells(r);
    CellIsPlain(r.id);
    CellIsPlain(r.parentId);
    CellIsPlain(r.allocatedSize);
    CellIsPlain(r.instanceCount);
    hide Fields, Printed, Clean;
    var j1 := c[0] + "\t" + c[1];
    var j2 := j1 + "\t" + c[2];
    var j3 := j2 + "\t" + c[3];
    var j4 := j3 + "\t" + c[4];
    var j5 := j4 + "\t" + c[5];
    var j6 := j5 + "\t" + c[6];
    var j7 := j6 + "\t" + c[7];
    JoinStep(j1 + "\t", c[2], c[3]);
    JoinStep(j1 + "\t", c[2] + "\t" + c[3], c[4]);
    JoinStep(j1 + "\t", c[2] + "\t" + c[3] + "\t" + c[4], c[5]);
    JoinStep(j5, "\t" + c[6], c[7]);
    Regroup(j5, "\t", c[6]);
    assert Line(r) == j7;
    FieldsOfPlain(c[0]);
    FieldsOfJoined(c[0], c[1]);
    FieldsOfJoined(j1, c[2]);
    FieldsOfJoined(j2, c[3]);
    FieldsOfJoined(j3, c[4]);
    FieldsOfJoined(j4, c[5]);
    FieldsOfJoined(j5, c[6]);
    FieldsOfJoined(j6, c[7]);
  }

  /** Read as one line, a printed row gives itself back as far as its counters fit. */
  lemma LineIsRead(r: HotSpot)
    requires HasInt32Ids(r)
    ensures RowOf(Fields(Line(r))) ==
      if r.allocatedSize < LONG_LIMIT && r.instanceCount < LONG_LIMIT then Some(Cleaned(r)) else None
  {
    FieldsOfLine(r);
    hide Fields, Line, Printed, Clean, ParseNumber;
    PrintedNumberIsRead(r.id, 0x8000_0000);
    PrintedNumberIsRead(r.parentId, 0x8000_0000);
    PrintedNumberIsRead(r.allocatedSize, LONG_LIMIT);
    PrintedNumberIsRead(r.instanceCount, LONG_LIMIT);
  }

  lemma LineEndsWithDigit(r: HotSpot)
    ensures Line(r) != "" && IsDigit(Line(r)[|Line(r)| - 1])
  {
    PrintedIsPlain(r.instanceCount);
    hide Printed, Front, Names;
    var count := Printed(r.instanceCount);
    assert Back(r)[|Back(r)| - 1] == count[|count| - 1];
  }

  lemma DigitEndIsNotBlank(s: string)
    requires s != "" && IsDigit(s[|s| - 1])
    ensures !IsBlank(s) && !EndsWithReturn(s)
  {
    assert !IsWhitespace(s[|s| - 1]);
  }

  lemma NoBreakConcat(a: string, b: string)
    ensures NoBreak(a + b) <==> NoBreak(a) && NoBreak(b)
  {
    hide IsBreak;
    if NoBreak(a + b) {
      assert forall k :: 0 <= k < |a| ==> (a + b)[k] == a[k];
      assert forall k :: 0 <= k < |b| ==> (a + b)[|a| + k] == b[k];
    }
  }

  lemma FrontAndBackArePlain(r: HotSpot)
    ensures NoBreak(Front(r)) && NoBreak(Back(r))
  {
    CellIsPlain(r.id);
    CellIsPlain(r.parentId);
    CellIsPlain(r.allocatedSize);
    CellIsPlain(r.instanceCount);
    TabIsNoBreak();
    hide Printed, NoBreak;
    NoBreakConcat(Printed(r.id), "\t");
    NoBreakConcat(Printed(r.id) + "\t", Printed(r.parentId));
    NoBreakConcat(Printed(r.id) + "\t" + Printed(r.parentId), "\t");
    NoBreakConcat("\t", Printed(r.allocatedSize));
    NoBreakConcat("\t" + Printed(r.allocatedSize), "\t");
    NoBreakConcat("\t" + Printed(r.allocatedSize) + "\t", Printed(r.instanceCount));
  }

  lemma TabIsNoBreak()
    ensures NoBreak("\t")
  {
  }

  predicate NamesArePlain(r: HotSpot) {
    && NoBreak(Clean(r.className)) && NoBreak(Clean(r.methodName))
    && NoBreak(Clean(r.methodDescriptor)) && NoBreak(Clean(r.allocatedType))
  }

  lemma BreaksComeFromNames(r: HotSpot)
    ensures NoBreak(Names(r)) <==> NamesArePlain(r)
  {
    TabIsNoBreak();
    hide Clean, NoBreak;
    var a, b, c, d := Clean(r.className), Clean(r.methodName), Clean(r.methodDescriptor), Clean(r.allocatedType);
    NoBreakConcat(a, "\t");
    NoBreakConcat(a + "\t", b);
    NoBreakConcat(a + "\t" + b, "\t");
    NoBreakConcat(a + "\t" + b + "\t", c);
    NoBreakConcat(a + "\t" + b + "\t" + c, "\t");
    NoBreakConcat(a + "\t" + b + "\t" + c + "\t", d);
  }

  // ---- a broken line: no piece has enough fields

  function Tabs(s: string): nat {
    if s == "" then 0 else Tabs(s[..|s| - 1]) + (if s[|s| - 1] == '\t' then 1 else 0)
  }

  lemma {:induction false} TabsConcat(a: string, b: string)
    ensures Tabs(a + b) == Tabs(a) + Tabs(b)
  {
    if b == "" {
      assert a + b == a;
    } else {
      assert (a + b)[..|a + b| - 1] == a + b[..|b| - 1];
      TabsConcat(a, b[..|b| - 1]);
    }
  }

  lemma {:induction false} NoTabs(s: string)
    requires Lacks(s, '\t')
    ensures Tabs(s) == 0
  {
    if s != "" {
      NoTabs(s[..|s| - 1]);
    }
  }

  lemma {:induction false} FieldsAreOneMoreThanTabs(s: string)
    ensures |Fields(s)| == Tabs(s) + 1
  {
    if s != "" {
      FieldsAreOneMoreThanTabs(s[..|s| - 1]);
    }
  }

  lemma {:induction false} PiecesHaveNoMoreTabs(s: string, k: nat)
    requires k < |Lines(s)|
    ensures Tabs(Lines(s)[k]) <= Tabs(s)
  {
    if s != "" {
      var n := |s| - 1;
      if s[n] == '\n' && n > 0 && s[n - 1] == '\r' {
        assert s[..n][..n - 1] == s[..n - 1];
        if k < |Lines(s)| - 1 {
          PiecesHaveNoMoreTabs(s[..n - 1], k);
        }
      } else {
        var before := Lines(s[..n]);
        if k < |before| {
          PiecesHaveNoMoreTabs(s[..n], k);
          if k == |before| - 1 && !IsBreak(s[n]) {
            TabsConcat(before[k], [s[n]]);
            assert Tabs([s[n]]) == if s[n] == '\t' then 1 else 0;
          }
        }
      }
    }
  }

  lemma {:induction false} BreakMakesPieces(s: string)
    requires !NoBreak(s)
    ensures |Lines(s)| >= 2
  {
    var n := |s| - 1;
    if !IsBreak(s[n]) {
      BreakMakesPieces(s[..n]);
    }
  }

  lemma {:induction false} ShortPiecesGiveNoRows(pieces: seq<string>)
    requires forall k :: 0 <= k < |pieces| ==> Tabs(pieces[k]) < 7
    ensures RowsOf(pieces) == []
  {
    hide Fields, IsBlank;
    if pieces != [] {
      ShortPiecesGiveNoRows(pieces[..|pieces| - 1]);
      FieldsAreOneMoreThanTabs(pieces[|pieces| - 1]);
    }
  }

  lemma TabsJoined(a: string, b: string)
    ensures Tabs(a + "\t" + b) == Tabs(a) + 1 + Tabs(b)
  {
    TabsConcat(a, "\t");
    TabsConcat(a + "\t", b);
    assert Tabs("\t") == 1;
  }

  lemma CellsHaveNoTabs(r: HotSpot)
    ensures forall k :: 0 <= k < 8 ==> Tabs(Cells(r)[k]) == 0
  {
    hide Printed, Clean, Tabs;
    var c := Cells(r);
    CellIsPlain(r.id);
    CellIsPlain(r.parentId);
    CellIsPlain(r.allocatedSize);
    CellIsPlain(r.instanceCount);
    forall k | 0 <= k < 8
      ensures Tabs(c[k]) == 0
    {
      NoTabs(c[k]);
    }
  }

  lemma TabsOfParts(r: HotSpot)
    ensures Tabs(Front(r)) == 2 && Tabs(Names(r)) == 3 && Tabs(Back(r)) == 2
  {
    hide Printed, Clean, Tabs;
    var c := Cells(r);
    CellsHaveNoTabs(r);
    NothingHasNoTabs();
    TabsJoined(c[0], c[1]);
    TabsJoined(c[0] + "\t" + c[1], "");
    assert Front(r) == (c[0] + "\t" + c[1]) + "\t" + "";
    TabsJoined(c[2], c[3]);
    TabsJoined(c[2] + "\t" + c[3], c[4]);
    TabsJoined(c[2] + "\t" + c[3] + "\t" + c[4], c[5]);
    TabsJoined("", c[6]);
    TabsJoined("" + "\t" + c[6], c[7]);
    assert Back(r) == ("" + "\t" + c[6]) + "\t" + c[7];
  }

  lemma NothingHasNoTabs()
    ensures Tabs("") == 0
  {
  }

  predicate HaveAtMost(pieces: seq<string>, tabs: nat) {
    forall k :: 0 <= k < |pieces| ==> Tabs(pieces[k]) <= tabs
  }

  lemma EndsGrowFewTabs(front: string, pieces: seq<string>, back: string)
    requires |pieces| >= 2 && HaveAtMost(pieces, 3) && Tabs(front) == 2 && Tabs(back) == 2
    ensures HaveAtMost(Extended(Headed(front, pieces), back), 5)
  {
    var n := |pieces| - 1;
    TabsConcat(front, pieces[0]);
    TabsConcat(pieces[n], back);
    hide Tabs;
    assert Headed(front, pieces)[n] == pieces[n];
    var all := Extended(Headed(front, pieces), back);
    assert all[0] == front + pieces[0] && all[n] == pieces[n] + back;
    forall k | 0 <= k < |all|
      ensures Tabs(all[k]) <= 5
    {
      if 0 < k < n {
        assert all[k] == pieces[k];
      }
    }
  }

  lemma BrokenLineIsDropped(r: HotSpot)
    requires !NamesArePlain(r)
    ensures RowsOf(Lines(Line(r))) == []
  {
    BreaksComeFromNames(r);
    FrontAndBackArePlain(r);
    TabsOfParts(r);
    BreakMakesPieces(Names(r));
    hide Front, Names, Back, NoBreak, Lines, Tabs, RowsOf, Extended, Headed, NamesArePlain;
    var m := Lines(Names(r));
    PlainThenLines(Front(r), Names(r));
    LinesThenPlain(Front(r) + Names(r), Back(r));
    forall k | 0 <= k < |m|
      ensures Tabs(m[k]) <= 3
    {
      PiecesHaveNoMoreTabs(Names(r), k);
    }
    EndsGrowFewTabs(Front(r), m, Back(r));
    ShortPiecesGiveNoRows(Lines(Line(r)));
  }

  lemma LineGivesItsRow(r: HotSpot)
    requires HasInt32Ids(r)
    ensures RowsOf(Lines(Line(r))) == if Survives(r) then [Cleaned(r)] else []
  {
    hide Lines, Fields, Line, NoBreak, RowOf, IsBlank, Clean;
    if NamesArePlain(r) {
      LineEndsWithDigit(r);
      DigitEndIsNotBlank(Line(r));
      LineIsRead(r);
      LineIsOnePiece(r);
      assert [Line(r)][..0] == [];
    } else {
      BrokenLineIsDropped(r);
    }
  }

  lemma LineIsOnePiece(r: HotSpot)
    requires NamesArePlain(r)
    ensures Lines(Line(r)) == [Line(r)]
  {
    BreaksComeFromNames(r);
    FrontAndBackArePlain(r);
    hide Front, Names, Back, NoBreak, Lines;
    NoBreakConcat(Front(r), Names(r));
    NoBreakConcat(Front(r) + Names(r), Back(r));
    LinesOfPlain(Line(r));
  }

  // ---- the whole table

  lemma {:induction false} RowsOfConcat(a: seq<string>, b: seq<string>)
    ensures RowsOf(a + b) == RowsOf(a) + RowsOf(b)
  {
    hide Fields, IsBlank, RowOf;
    if b == [] {
      assert a + b == a;
    } else {
      assert (a + b)[..|a + b| - 1] == a + b[..|b| - 1];
      RowsOfConcat(a, b[..|b| - 1]);
    }
  }

  lemma {:induction false} TextEndsWithDigit(rows: seq<HotSpot>)
    requires rows != []
    ensures Text(rows) != "" && IsDigit(Text(rows)[|Text(rows)| - 1])
  {
    LineEndsWithDigit(rows[|rows| - 1]);
    hide Line;
  }

  lemma {:induction false} LinesAreRead(rows: seq<HotSpot>)
    requires rows != [] && forall k :: 0 <= k < |rows| ==> HasInt32Ids(rows[k])
    ensures RowsOf(Lines(Text(rows))) == Survivors(rows)
  {
    hide Lines, Line, RowsOf, Survives, Cleaned;
    var n := |rows| - 1;
    LineGivesItsRow(rows[n]);
    if n > 0 {
      TextEndsWithDigit(rows[..n]);
      DigitEndIsNotBlank(Text(rows[..n]));
      LinesOfJoined(Text(rows[..n]), Line(rows[n]));
      RowsOfConcat(Lines(Text(rows[..n])), Lines(Line(rows[n])));
      LinesAreRead(rows[..n]);
    } else {
      assert rows[..0] == [];
    }
  }

  /** What is read is exactly the surviving rows, in order, with cleaned names. */
  lemma TableRoundTrip(rows: seq<HotSpot>)
    requires forall k :: 0 <= k < |rows| ==> HasInt32Ids(rows[k])
    ensures Read(Text(rows)) == Survivors(rows)
  {
    hide Lines, Line, RowsOf, Survivors;
    if rows == [] {
      assert Survivors(rows) == [] by {
        NoSurvivors();
      }
    } else {
      TextEndsWithDigit(rows);
      DigitEndIsNotBlank(Text(rows));
      LinesAreRead(rows);
    }
  }

  lemma NoSurvivors()
    ensures Survivors([]) == []
  {
  }
}
