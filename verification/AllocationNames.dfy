/** What becomes of the names in the native table on their way from one agent to the other. */
module AllocationNames {
  import opened NativeAllocations
  import opened NativeSnapshots
  import opened AllocationTsv
  import AllocationDepths
  import opened AllocationPipeline

  /** A text with blanks for its tabs and line ends, and every other character as it is. */
  predicate IsSpaced(arrived: string, text: string) {
    && |arrived| == |text|
    && forall k :: 0 <= k < |text| ==>
      arrived[k] == if text[k] == '\t' || text[k] == '\r' || text[k] == '\n' then ' ' else text[k]
  }

  /** No line break but CR and LF. */
  predicate OrdinaryText(text: string) {
    forall k :: 0 <= k < |text| ==> text[k] == '\r' || text[k] == '\n' || !IsBreak(text[k])
  }

  predicate IsOrdinary(r: HotSpot) {
    && HasInt32Ids(r) && r.allocatedSize < 0x8000_0000_0000_0000 && r.instanceCount < 0x8000_0000_0000_0000
    && OrdinaryText(r.className) && OrdinaryText(r.methodName) && OrdinaryText(r.methodDescriptor)
    && OrdinaryText(r.allocatedType)
  }

  predicate ArrivedAs(row: ReadRow, r: HotSpot) {
    && row.id == r.id && row.parentId == r.parentId
    && IsSpaced(row.className, r.className) && IsSpaced(row.methodName, r.methodName)
    && IsSpaced(row.methodDescriptor, r.methodDescriptor) && IsSpaced(row.allocatedType, r.allocatedType)
    && row.allocatedSize == r.allocatedSize && row.instanceCount == r.instanceCount
  }

  lemma CleanIsSpaced(text: string)
    ensures IsSpaced(Clean(text), text)
    ensures NoBreak(Clean(text)) <==> OrdinaryText(text)
  {
    forall k | 0 <= k < |text|
      ensures IsBreak(Clean(text)[k]) <==> text[k] != '\r' && text[k] != '\n' && IsBreak(text[k])
    {
    }
  }

  lemma OrdinaryRowSurvives(r: HotSpot)
    ensures HasInt32Ids(r) ==> (Survives(r) <==> IsOrdinary(r))
    ensures ArrivedAs(Cleaned(r), r)
  {
    CleanIsSpaced(r.className);
    CleanIsSpaced(r.methodName);
    CleanIsSpaced(r.methodDescriptor);
    CleanIsSpaced(r.allocatedType);
    hide Clean, NoBreak, OrdinaryText, IsSpaced;
  }

  lemma {:induction false} OrdinaryRowsSurvive(rows: seq<HotSpot>)
    requires forall k :: 0 <= k < |rows| ==> IsOrdinary(rows[k])
    ensures |Survivors(rows)| == |rows| && forall k :: 0 <= k < |rows| ==> Survivors(rows)[k] == Cleaned(rows[k])
  {
    hide Survives, Cleaned, IsOrdinary;
    if rows != [] {
      var n := |rows| - 1;
      OrdinaryRowsSurvive(rows[..n]);
      OrdinaryHasIds(rows[n]);
      OrdinaryRowSurvives(rows[n]);
    }
  }

  lemma OrdinaryHasIds(r: HotSpot)
    ensures IsOrdinary(r) ==> HasInt32Ids(r)
  {
  }

  /**
   * A table of rows whose numbers fit and whose names hold no line break but CR and LF arrives whole: the same rows in
   * the same order, each name character by character what it was, with blanks for tabs and line ends.
   */
  lemma OrdinaryTableArrives(rows: seq<HotSpot>)
    requires forall k :: 0 <= k < |rows| ==> IsOrdinary(rows[k])
    ensures |Read(Text(rows))| == |rows| && forall k :: 0 <= k < |rows| ==> ArrivedAs(Read(Text(rows))[k], rows[k])
  {
    hide Read, Text, IsOrdinary, ArrivedAs, Cleaned, Survivors;
    forall k | 0 <= k < |rows| ensures HasInt32Ids(rows[k]) && ArrivedAs(Cleaned(rows[k]), rows[k]) {
      OrdinaryHasIds(rows[k]);
      OrdinaryRowSurvives(rows[k]);
    }
    TableRoundTrip(rows);
    OrdinaryRowsSurvive(rows);
  }

  // ---- what the client shows

  /** A type as it is shown: dots for slashes, and blanks for tabs and line ends. */
  predicate IsShownType(shown: string, text: string) {
    && |shown| == |text|
    && forall k :: 0 <= k < |text| ==>
      shown[k] == if text[k] == '/' then '.' else if text[k] in {'\t', '\r', '\n'} then ' ' else text[k]
  }

  /** The class, a dot, the method and its descriptor; an entry without either name is shown as its type. */
  predicate IsShownName(shown: string, s: Stats) {
    var c, m := s.methodMeta.className, s.methodMeta.methodName;
    if c == "" && m == "" then IsShownType(shown, s.allocatedType)
    else
      && |shown| == |c| + 1 + |m| + |s.methodMeta.methodDescriptor|
      && IsSpaced(shown[..|c|], c) && shown[|c|] == '.' && IsSpaced(shown[|c| + 1..|c| + 1 + |m|], m)
      && IsSpaced(shown[|c| + 1 + |m|..], s.methodMeta.methodDescriptor)
  }

  lemma TypeIsShown(text: string)
    ensures IsShownType(AllocationDepths.WithDots(Clean(text)), text)
  {
  }

  lemma PartsOfName(c: string, m: string, d: string)
    ensures
      var shown := c + "." + m + d;
      && |shown| == |c| + 1 + |m| + |d| && shown[..|c|] == c && shown[|c|] == '.'
      && shown[|c| + 1..|c| + 1 + |m|] == m && shown[|c| + 1 + |m|..] == d
  {
  }

  lemma SpacedLength(arrived: string, text: string)
    requires IsSpaced(arrived, text)
    ensures |arrived| == |text| && (arrived == "" <==> text == "")
  {
  }

  lemma NameIsShown(s: Stats)
    ensures IsShownName(ShownName(s), s)
  {
    hide IsShownType, IsSpaced, AllocationDepths.WithDots, Clean, NoBreak, OrdinaryText;
    var c, m, d := Clean(s.methodMeta.className), Clean(s.methodMeta.methodName), Clean(s.methodMeta.methodDescriptor);
    TypeIsShown(s.allocatedType);
    CleanIsSpaced(s.methodMeta.className);
    CleanIsSpaced(s.methodMeta.methodName);
    CleanIsSpaced(s.methodMeta.methodDescriptor);
    SpacedLength(c, s.methodMeta.className);
    SpacedLength(m, s.methodMeta.methodName);
    PartsOfName(c, m, d);
  }

  /** Every row that reaches the client shows the names of its entry, character by character. */
  lemma RowsShowTheirNames(m: map<Key, Stats>, events: seq<Event>, entries: seq<Stats>, j: nat)
    requires Represents(m, events) && ListsEntries(m, entries) && |entries| <= 0x8000_0000 && ShortPaths(events)
    requires j < |Kept(PrintableRows(NativeSnapshots.Lines(SortedRows(entries))))|
    ensures
      var lines := NativeSnapshots.Lines(SortedRows(entries));
      var kept := Kept(PrintableRows(lines));
      && AllNumberedRight(lines) && CanBeSent(Read(Text(PrintableRows(lines)))) && |ClientRows(lines)| == |kept|
      && IsShownName(ClientRows(lines)[j].name, lines[kept[j]].stats)
      && IsShownType(ClientRows(lines)[j].allocatedType, lines[kept[j]].stats.allocatedType)
  {
    hide Represents, ListsEntries, ShortPaths, SortedRows, Kept, PrintableRows, Read, Text, ClientRows, IsShownName,
      IsShownType, ShownName, Clean, AllNumberedRight;
    SurvivingRowsReachTheClient(m, events, entries, j);
    var lines := NativeSnapshots.Lines(SortedRows(entries));
    var stats := lines[Kept(PrintableRows(lines))[j]].stats;
    NameIsShown(stats);
    TypeIsShown(stats.allocatedType);
  }
}
