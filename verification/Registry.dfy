/**
 * The method registry as steps of many threads: a lock-free lookup, a second one under the lock, and arrays that
 * are replaced by longer ones, one after the other, while other threads still hold the old ones.
 */
module Registry {
  import opened Options
  import opened Sequences

  datatype Key = Key(text: string)

  /** How far the thread in the synchronized block has come with its key. */
  datatype Stage =
    | Locked
    | Absent
    | Numbered(id: nat)
    | CopiedMetas(id: nat, newMetas: nat)
    | CopiedBoth(id: nat, newMetas: nat, newStats: nat)
    | AssignedMetas(id: nat, newStats: nat)
    | Roomy(id: nat)
    | MetaWritten(id: nat)
    | StatsWritten(id: nat)
    | Published(id: nat)

  datatype Work = Work(thread: nat, key: Key, stage: Stage)

  datatype Thread =
    | Idle
    | Called(key: Key)
    | Missed(key: Key)
    | Working
    | Returned(key: Key, id: nat)
    /** Holds a stats array taken after the id was known. */
    | Using(key: Key, id: nat, slots: nat)

  /**
   * Arrays and stats objects are named by their position in the lists of all ever made; `metas` and `stats` are
   * the current ones. `log` lists the methods whose invocations were counted, in order.
   */
  datatype State = State(
    ids: map<Key, nat>, next: nat, metaArrays: seq<seq<Option<Key>>>, metas: nat, statArrays: seq<seq<Option<nat>>>,
    stats: nat, counters: seq<nat>, work: Option<Work>, threads: seq<Thread>, log: seq<nat>)

  function Cleared<T>(n: nat): (s: seq<Option<T>>)
    ensures |s| == n && forall i :: 0 <= i < n ==> s[i] == None
  {
    seq(n, _ => None)
  }

  function Initial(threads: nat): State {
    State(map[], 0, [Cleared(4096)], 0, [Cleared(4096)], 0, [], None, seq(threads, _ => Idle), [])
  }

  predicate ArraysExist(s: State) {
    && s.metas < |s.metaArrays| && s.stats < |s.statArrays|
    && |s.metaArrays[s.metas]| > 0 && |s.statArrays[s.stats]| > 0
  }

  function Metas(s: State): seq<Option<Key>>
    requires ArraysExist(s)
  {
    s.metaArrays[s.metas]
  }

  function Stats(s: State): seq<Option<nat>>
    requires ArraysExist(s)
  {
    s.statArrays[s.stats]
  }

  function Longer<T>(a: seq<Option<T>>, n: nat): (b: seq<Option<T>>)
    requires |a| <= n
    ensures |b| == n && b[..|a|] == a && forall i :: |a| <= i < n ==> b[i] == None
  {
    a + Cleared(n - |a|)
  }

  function Stored<T>(arrays: seq<seq<Option<T>>>, a: nat, i: nat, x: T): seq<seq<Option<T>>>
    requires a < |arrays| && i < |arrays[a]|
  {
    arrays[a := arrays[a][i := Some(x)]]
  }

  // ---- steps

  function WithStage(s: State, w: Work, stage: Stage): State {
    s.(work := Some(w.(stage := stage)))
  }

  /** The next step of the thread in the synchronized block. */
  function Progress(s: State, w: Work): State
    requires ArraysExist(s) && StageFits(s, w)
  {
    match w.stage
    case Locked =>
      if w.key in s.ids then Unlocked(s, w, s.ids[w.key]) else WithStage(s, w, Absent)
    case Absent => WithStage(s.(next := s.next + 1), w, Numbered(s.next))
    case Numbered(id) =>
      if id + 1 <= |Metas(s)| then WithStage(s, w, Roomy(id))
      else
        var newLength := GrownLength(|Metas(s)|, id + 1);
        WithStage(s.(metaArrays := s.metaArrays + [Longer(Metas(s), newLength)]), w, CopiedMetas(id, |s.metaArrays|))
    case CopiedMetas(id, newMetas) =>
      var newLength := |s.metaArrays[newMetas]|;
      WithStage(s.(statArrays := s.statArrays + [Longer(Stats(s), newLength)]), w,
                CopiedBoth(id, newMetas, |s.statArrays|))
    case CopiedBoth(id, newMetas, newStats) => WithStage(s.(metas := newMetas), w, AssignedMetas(id, newStats))
    case AssignedMetas(id, newStats) => WithStage(s.(stats := newStats), w, Roomy(id))
    case Roomy(id) => WithStage(s.(metaArrays := Stored(s.metaArrays, s.metas, id, w.key)), w, MetaWritten(id))
    case MetaWritten(id) =>
      WithStage(s.(statArrays := Stored(s.statArrays, s.stats, id, |s.counters|), counters := s.counters + [0]), w,
                StatsWritten(id))
    case StatsWritten(id) => WithStage(s.(ids := s.ids[w.key := id]), w, Published(id))
    case Published(id) => Unlocked(s, w, id)
  }

  function Unlocked(s: State, w: Work, id: nat): State
    requires w.thread < |s.threads|
  {
    s.(work := None, threads := s.threads[w.thread := Returned(w.key, id)])
  }

  datatype Event =
    | Call(thread: nat, key: Key)
    | LookUp(thread: nat)
    | Lock(thread: nat)
    | Proceed
    | Take(thread: nat)
    | Count(thread: nat)
    | Leave(thread: nat)

  function Step(s: State, e: Event): State
    requires Inv(s)
  {
    if e.Proceed? then (if s.work.None? then s else Progress(s, s.work.value))
    else if e.thread >= |s.threads| then s
    else ThreadStep(s, e)
  }

  function ThreadStep(s: State, e: Event): State
    requires Inv(s) && !e.Proceed? && e.thread < |s.threads|
  {
    var t := s.threads[e.thread];
    match e
    case Call(n, key) => if t.Idle? then s.(threads := s.threads[n := Called(key)]) else s
    case LookUp(n) =>
      if !t.Called? then s
      else s.(threads := s.threads[n := if t.key in s.ids then Returned(t.key, s.ids[t.key]) else Missed(t.key)])
    case Lock(n) =>
      if t.Missed? && s.work.None? then s.(work := Some(Work(n, t.key, Locked)), threads := s.threads[n := Working])
      else s
    case Take(n) =>
      if t.Returned? then s.(threads := s.threads[n := Using(t.key, t.id, s.stats)]) else s
    case Count(n) =>
      if t.Using? then
        UsingReachesLive(s, n);
        var counter := s.statArrays[t.slots][t.id].value;
        s.(counters := s.counters[counter := s.counters[counter] + 1], log := s.log + [t.id])
      else s
    case Leave(n) => if t.Returned? || t.Using? then s.(threads := s.threads[n := Idle]) else s
  }

  function Run(threads: nat, events: seq<Event>): (s: State)
    ensures Inv(s)
  {
    if events == [] then InitialIsInv(threads); Initial(threads)
    else
      var before := Run(threads, events[..|events| - 1]);
      StepKeepsInv(before, events[|events| - 1]);
      Step(before, events[|events| - 1])
  }

  // ---- invariant

  predicate IsUnpublished(stage: Stage) {
    !stage.Locked? && !stage.Absent? && !stage.Published?
  }

  /** Ids below this are published. */
  function Finished(s: State): nat {
    if s.work.Some? && IsUnpublished(s.work.value.stage) && s.next > 0 then s.next - 1 else s.next
  }

  /** An id whose metadata is written but which is not published. */
  function EarlyMeta(s: State): Option<nat> {
    if s.work.Some? && (s.work.value.stage.MetaWritten? || s.work.value.stage.StatsWritten?)
    then Some(s.work.value.stage.id) else None
  }

  function EarlyStats(s: State): Option<nat> {
    if s.work.Some? && s.work.value.stage.StatsWritten? then Some(s.work.value.stage.id) else None
  }

  predicate IdHasKey(ids: map<Key, nat>, metas: seq<Option<Key>>, i: nat) {
    i < |metas| && metas[i].Some? && metas[i].value in ids && ids[metas[i].value] == i
  }

  predicate KeyHasId(ids: map<Key, nat>, metas: seq<Option<Key>>, finished: nat, key: Key)
    requires key in ids
  {
    ids[key] < finished && ids[key] < |metas| && metas[ids[key]] == Some(key)
  }

  ghost predicate MetasFit(ids: map<Key, nat>, metas: seq<Option<Key>>, finished: nat, early: Option<nat>) {
    && (forall i :: 0 <= i < finished ==> IdHasKey(ids, metas, i))
    && (forall key :: key in ids ==> KeyHasId(ids, metas, finished, key))
    && (forall i :: 0 <= i < |metas| && metas[i].Some? ==> i < finished || early == Some(i))
  }

  /** A slot of the stats array: only of a finished or just written id, and its counter has counted that id. */
  predicate SlotFits(stats: seq<Option<nat>>, finished: nat, early: Option<nat>, counters: seq<nat>, log: seq<nat>, i: nat)
    requires i < |stats|
  {
    stats[i].Some? ==>
      && (i < finished || early == Some(i))
      && stats[i].value < |counters| && counters[stats[i].value] == Times(log, i)
  }

  predicate IsFilled(stats: seq<Option<nat>>, i: nat) {
    i < |stats| && stats[i].Some?
  }

  predicate SlotsFilled(stats: seq<Option<nat>>, finished: nat) {
    forall i :: 0 <= i < finished ==> IsFilled(stats, i)
  }

  predicate SlotsApart(stats: seq<Option<nat>>) {
    forall i, j :: 0 <= i < j < |stats| && stats[i].Some? && stats[j].Some? ==> stats[i] != stats[j]
  }

  predicate CountsFinished(log: seq<nat>, finished: nat) {
    forall k :: 0 <= k < |log| ==> log[k] < finished
  }

  ghost predicate StatsFit(stats: seq<Option<nat>>, finished: nat, early: Option<nat>, counters: seq<nat>, log: seq<nat>) {
    && SlotsFilled(stats, finished) && SlotsApart(stats) && CountsFinished(log, finished)
    && (forall i :: 0 <= i < |stats| ==> SlotFits(stats, finished, early, counters, log, i))
  }

  /** Whatever a holds in a slot, b holds there too. */
  predicate Within<T(==)>(a: seq<Option<T>>, b: seq<Option<T>>) {
    forall i :: 0 <= i < |a| && a[i].Some? ==> i < |b| && b[i] == a[i]
  }

  /** Whatever any array ever made holds in a slot, the current one holds there too. */
  predicate Agree<T(==)>(arrays: seq<seq<Option<T>>>, current: nat)
    requires current < |arrays|
  {
    forall r :: 0 <= r < |arrays| ==> Within(arrays[r], arrays[current])
  }

  /** A new array that starts as the current one. */
  predicate Covers<T(==)>(arrays: seq<seq<Option<T>>>, current: nat, other: nat, id: nat)
    requires current < |arrays|
  {
    && other < |arrays| && id < |arrays[other]| && |arrays[current]| <= |arrays[other]|
    && arrays[other][..|arrays[current]|] == arrays[current]
  }

  predicate StageFits(s: State, w: Work)
    requires ArraysExist(s)
  {
    && w.thread < |s.threads|
    && (IsUnpublished(w.stage) ==> s.next > 0 && w.stage.id == s.next - 1 && w.key !in s.ids)
    && match w.stage
       case Locked => |Metas(s)| == |Stats(s)|
       case Absent => w.key !in s.ids && |Metas(s)| == |Stats(s)|
       case Numbered(id) => |Metas(s)| == |Stats(s)|
       case CopiedMetas(id, m) => Covers(s.metaArrays, s.metas, m, id) && |Metas(s)| == |Stats(s)|
       case CopiedBoth(id, m, n) =>
         && Covers(s.metaArrays, s.metas, m, id) && Covers(s.statArrays, s.stats, n, id)
         && |s.metaArrays[m]| == |s.statArrays[n]|
       case AssignedMetas(id, n) =>
         id < |Metas(s)| && Covers(s.statArrays, s.stats, n, id) && |Metas(s)| == |s.statArrays[n]|
       case Roomy(id) => id < |Metas(s)| && |Metas(s)| == |Stats(s)|
       case MetaWritten(id) => id < |Metas(s)| && |Metas(s)| == |Stats(s)| && Metas(s)[id] == Some(w.key)
       case StatsWritten(id) =>
         id < |Metas(s)| && |Metas(s)| == |Stats(s)| && Metas(s)[id] == Some(w.key) && Stats(s)[id].Some?
       case Published(id) => |Metas(s)| == |Stats(s)| && w.key in s.ids && s.ids[w.key] == id
  }

  predicate ThreadFits(s: State, n: nat)
    requires n < |s.threads|
  {
    match s.threads[n]
    case Returned(key, id) => key in s.ids && s.ids[key] == id
    case Using(key, id, r) =>
      && key in s.ids && s.ids[key] == id
      && r < |s.statArrays| && id < |s.statArrays[r]| && s.statArrays[r][id].Some?
    case Working => s.work.Some? && s.work.value.thread == n
    case _ => true
  }

  ghost predicate Inv(s: State) {
    && ArraysExist(s)
    && MetasFit(s.ids, Metas(s), Finished(s), EarlyMeta(s))
    && StatsFit(Stats(s), Finished(s), EarlyStats(s), s.counters, s.log)
    && Agree(s.metaArrays, s.metas) && Agree(s.statArrays, s.stats)
    && (if s.work.Some? then StageFits(s, s.work.value) else |Metas(s)| == |Stats(s)|)
    && (forall n :: 0 <= n < |s.threads| ==> ThreadFits(s, n))
  }

  lemma InitialIsInv(threads: nat)
    ensures Inv(Initial(threads))
  {
  }

  // ---- pieces: the arrays

  predicate Stretched<T(==)>(a: seq<Option<T>>, b: seq<Option<T>>) {
    |a| <= |b| && b[..|a|] == a && forall i :: |a| <= i < |b| ==> b[i] == None
  }

  lemma StretchedAt<T>(a: seq<Option<T>>, b: seq<Option<T>>)
    requires Stretched(a, b)
    ensures forall i :: 0 <= i < |a| ==> b[i] == a[i]
    ensures forall i :: 0 <= i < |b| && b[i].Some? ==> i < |a|
    ensures Within(a, b) && Within(b, a)
  {
    forall i | 0 <= i < |a|
      ensures b[i] == a[i]
    {
      assert b[..|a|][i] == b[i];
    }
  }

  lemma WithinBoth<T>(a: seq<Option<T>>, b: seq<Option<T>>, c: seq<Option<T>>)
    requires Within(a, b) && Within(b, c)
    ensures Within(a, c)
  {
  }

  lemma AgreeCopy<T>(arrays: seq<seq<Option<T>>>, current: nat, n: nat)
    requires current < |arrays| && Agree(arrays, current) && |arrays[current]| <= n
    ensures Agree(arrays + [Longer(arrays[current], n)], current)
  {
    StretchedAt(arrays[current], Longer(arrays[current], n));
    hide Within;
  }

  lemma OnlyStretched<T>(a: seq<Option<T>>, b: seq<Option<T>>)
    requires |a| <= |b| && b[..|a|] == a && Within(b, a)
    ensures Stretched(a, b)
  {
    forall i | |a| <= i < |b|
      ensures b[i] == None
    {
    }
  }

  lemma AgreeSwitch<T>(arrays: seq<seq<Option<T>>>, current: nat, other: nat, id: nat)
    requires current < |arrays| && Agree(arrays, current) && Covers(arrays, current, other, id)
    ensures Stretched(arrays[current], arrays[other]) && Agree(arrays, other)
  {
    var a, b := arrays[current], arrays[other];
    OnlyStretched(a, b);
    StretchedAt(a, b);
    forall r | 0 <= r < |arrays|
      ensures Within(arrays[r], b)
    {
      WithinBoth(arrays[r], a, b);
    }
  }

  lemma WithinStored<T>(a: seq<Option<T>>, b: seq<Option<T>>, i: nat, x: T)
    requires Within(a, b) && i < |b| && b[i].None?
    ensures Within(a, b[i := Some(x)])
  {
    forall j | 0 <= j < |a| && a[j].Some?
      ensures j < |b| && b[i := Some(x)][j] == a[j]
    {
      assert b[j] == a[j];
    }
  }

  lemma AgreeStore<T>(arrays: seq<seq<Option<T>>>, current: nat, i: nat, x: T)
    requires current < |arrays| && Agree(arrays, current) && i < |arrays[current]| && arrays[current][i].None?
    ensures Agree(Stored(arrays, current, i, x), current)
  {
    var stored := Stored(arrays, current, i, x);
    forall r | 0 <= r < |stored|
      ensures Within(stored[r], stored[current])
    {
      if r != current {
        WithinStored(arrays[r], arrays[current], i, x);
      }
    }
  }

  // ---- pieces: metadata

  lemma MetasStretched(
    ids: map<Key, nat>, a: seq<Option<Key>>, b: seq<Option<Key>>, finished: nat, early: Option<nat>)
    requires MetasFit(ids, a, finished, early) && Stretched(a, b)
    ensures MetasFit(ids, b, finished, early)
  {
    StretchedAt(a, b);
    forall i | 0 <= i < finished
      ensures IdHasKey(ids, b, i)
    {
      assert IdHasKey(ids, a, i);
    }
    forall key | key in ids
      ensures KeyHasId(ids, b, finished, key)
    {
      assert KeyHasId(ids, a, finished, key);
    }
    forall i | 0 <= i < |b| && b[i].Some?
      ensures i < finished || early == Some(i)
    {
      assert a[i].Some?;
    }
  }

  lemma MetaStored(ids: map<Key, nat>, metas: seq<Option<Key>>, id: nat, key: Key)
    requires MetasFit(ids, metas, id, None) && id < |metas|
    ensures metas[id].None? && MetasFit(ids, metas[id := Some(key)], id, Some(id))
  {
    var metas' := metas[id := Some(key)];
    forall i | 0 <= i < id
      ensures IdHasKey(ids, metas', i)
    {
      assert IdHasKey(ids, metas, i);
    }
    forall k | k in ids
      ensures KeyHasId(ids, metas', id, k)
    {
      assert KeyHasId(ids, metas, id, k);
    }
    forall i | 0 <= i < |metas'| && metas'[i].Some?
      ensures i < id || Some(id) == Some(i)
    {
      assert i != id ==> metas[i].Some?;
    }
  }

  lemma MetaPublished(ids: map<Key, nat>, metas: seq<Option<Key>>, id: nat, key: Key)
    requires MetasFit(ids, metas, id, Some(id)) && id < |metas| && metas[id] == Some(key) && key !in ids
    ensures MetasFit(ids[key := id], metas, id + 1, None)
  {
    var ids' := ids[key := id];
    forall i | 0 <= i < id + 1
      ensures IdHasKey(ids', metas, i)
    {
      if i < id {
        assert IdHasKey(ids, metas, i);
      }
    }
    forall k | k in ids'
      ensures KeyHasId(ids', metas, id + 1, k)
    {
      if k != key {
        assert KeyHasId(ids, metas, id, k);
      }
    }
  }

  // ---- pieces: stats

  lemma StatsStretched(a: seq<Option<nat>>, b: seq<Option<nat>>, finished: nat, early: Option<nat>, counters: seq<nat>,
                       log: seq<nat>)
    requires StatsFit(a, finished, early, counters, log) && Stretched(a, b)
    ensures StatsFit(b, finished, early, counters, log)
  {
    StretchedAt(a, b);
    forall i | 0 <= i < |b|
      ensures SlotFits(b, finished, early, counters, log, i)
    {
      if i < |a| {
        assert SlotFits(a, finished, early, counters, log, i);
      }
    }
    forall i | 0 <= i < finished
      ensures IsFilled(b, i)
    {
      assert IsFilled(a, i);
    }
    assert SlotsApart(b);
  }

  lemma StatsStored(stats: seq<Option<nat>>, id: nat, counters: seq<nat>, log: seq<nat>)
    requires StatsFit(stats, id, None, counters, log) && id < |stats|
    ensures stats[id].None?
    ensures StatsFit(stats[id := Some(|counters|)], id, Some(id), counters + [0], log)
  {
    var stats' := stats[id := Some(|counters|)];
    assert SlotFits(stats, id, None, counters, log, id);
    NeverListed(log, id);
    forall i | 0 <= i < |stats'|
      ensures SlotFits(stats', id, Some(id), counters + [0], log, i)
    {
      assert SlotFits(stats, id, None, counters, log, i);
    }
    forall i, j | 0 <= i < j < |stats'| && stats'[i].Some? && stats'[j].Some?
      ensures stats'[i] != stats'[j]
    {
      assert SlotFits(stats, id, None, counters, log, i) && SlotFits(stats, id, None, counters, log, j);
    }
    forall i | 0 <= i < id
      ensures IsFilled(stats', i)
    {
      assert IsFilled(stats, i);
    }
  }

  lemma StatsPublished(stats: seq<Option<nat>>, id: nat, counters: seq<nat>, log: seq<nat>)
    requires StatsFit(stats, id, Some(id), counters, log) && id < |stats| && stats[id].Some?
    ensures StatsFit(stats, id + 1, None, counters, log)
  {
    var finished := id + 1;
    assert forall i :: 0 <= i < id ==> IsFilled(stats, i);
    forall i | 0 <= i < |stats|
      ensures SlotFits(stats, finished, None, counters, log, i)
    {
      assert SlotFits(stats, id, Some(id), counters, log, i);
    }
  }

  lemma StatsCounted(stats: seq<Option<nat>>, finished: nat, early: Option<nat>, counters: seq<nat>, log: seq<nat>, id: nat)
    requires StatsFit(stats, finished, early, counters, log) && id < finished
    ensures id < |stats| && stats[id].Some? && stats[id].value < |counters|
    ensures
      var c := stats[id].value;
      StatsFit(stats, finished, early, counters[c := counters[c] + 1], log + [id])
  {
    assert IsFilled(stats, id);
    assert SlotFits(stats, finished, early, counters, log, id);
    var c := stats[id].value;
    var counters' := counters[c := counters[c] + 1];
    var log' := log + [id];
    assert log'[..|log|] == log;
    forall i | 0 <= i < |stats|
      ensures SlotFits(stats, finished, early, counters', log', i)
    {
      assert SlotFits(stats, finished, early, counters, log, i);
      assert i != id && stats[i].Some? ==> stats[i] != stats[id];
    }
    assert CountsFinished(log', finished);
  }

  // ---- pieces: the other threads

  predicate SlotsKept(a: seq<seq<Option<nat>>>, b: seq<seq<Option<nat>>>) {
    && |a| <= |b|
    && forall r, i :: 0 <= r < |a| && 0 <= i < |a[r]| && a[r][i].Some? ==> i < |b[r]| && b[r][i] == a[r][i]
  }

  /** Threads fit still when ids and slots are only added. */
  lemma ThreadsStay(s: State, s': State)
    requires forall n :: 0 <= n < |s.threads| ==> ThreadFits(s, n)
    requires s'.threads == s.threads && (forall key :: key in s.ids ==> key in s'.ids && s'.ids[key] == s.ids[key])
    requires SlotsKept(s.statArrays, s'.statArrays)
    requires s.work.Some? ==> s'.work.Some? && s'.work.value.thread == s.work.value.thread
    ensures forall n :: 0 <= n < |s'.threads| ==> ThreadFits(s', n)
  {
    forall n | 0 <= n < |s'.threads|
      ensures ThreadFits(s', n)
    {
      assert ThreadFits(s, n);
    }
  }

  /** The counter a thread reaches through an array it has held for any time is the current one. */
  lemma UsingReachesLive(s: State, n: nat)
    requires Inv(s) && n < |s.threads| && s.threads[n].Using?
    ensures
      var t := s.threads[n];
      && t.slots < |s.statArrays| && t.id < |s.statArrays[t.slots]| && s.statArrays[t.slots][t.id].Some?
      && t.id < |Stats(s)| && s.statArrays[t.slots][t.id] == Stats(s)[t.id]
      && Stats(s)[t.id].value < |s.counters| && t.id < Finished(s)
  {
    hide Times;
    var t := s.threads[n];
    assert ThreadFits(s, n);
    assert Within(s.statArrays[t.slots], Stats(s));
    assert KeyHasId(s.ids, Metas(s), Finished(s), t.key);
    assert IsFilled(Stats(s), t.id);
    assert SlotFits(Stats(s), Finished(s), EarlyStats(s), s.counters, s.log, t.id);
  }

  // ---- the invariant, step by step

  ghost predicate AtWork(s: State, w: Work) {
    Inv(s) && s.work == Some(w)
  }

  lemma SlotsStay(a: seq<seq<Option<nat>>>)
    ensures SlotsKept(a, a)
  {
  }

  lemma SlotsAdded(a: seq<seq<Option<nat>>>, x: seq<Option<nat>>)
    ensures SlotsKept(a, a + [x])
  {
  }

  lemma SlotsStored(a: seq<seq<Option<nat>>>, r: nat, i: nat, x: nat)
    requires r < |a| && i < |a[r]| && a[r][i].None?
    ensures SlotsKept(a, Stored(a, r, i, x))
  {
  }

  lemma KeepLocked(s: State, w: Work)
    requires AtWork(s, w) && w.stage.Locked?
    ensures Inv(Progress(s, w))
  {
    hide MetasFit, StatsFit, Agree, Covers;
    var s' := Progress(s, w);
    forall n | 0 <= n < |s'.threads|
      ensures ThreadFits(s', n)
    {
      assert ThreadFits(s, n);
    }
  }

  lemma KeepAbsent(s: State, w: Work)
    requires AtWork(s, w) && w.stage.Absent?
    ensures Inv(Progress(s, w))
  {
    hide MetasFit, StatsFit, Agree, Covers;
    var s' := Progress(s, w);
    SlotsStay(s.statArrays);
    ThreadsStay(s, s');
  }

  lemma KeepNumbered(s: State, w: Work)
    requires AtWork(s, w) && w.stage.Numbered?
    ensures Inv(Progress(s, w))
  {
    hide MetasFit, StatsFit, Agree;
    var s' := Progress(s, w);
    SlotsStay(s.statArrays);
    ThreadsStay(s, s');
    if w.stage.id + 1 > |Metas(s)| {
      AgreeCopy(s.metaArrays, s.metas, GrownLength(|Metas(s)|, w.stage.id + 1));
    }
  }

  lemma KeepCopiedMetas(s: State, w: Work)
    requires AtWork(s, w) && w.stage.CopiedMetas?
    ensures Inv(Progress(s, w))
  {
    hide MetasFit, StatsFit, Agree;
    var s' := Progress(s, w);
    var newLength := |s.metaArrays[w.stage.newMetas]|;
    SlotsAdded(s.statArrays, Longer(Stats(s), newLength));
    ThreadsStay(s, s');
    AgreeCopy(s.statArrays, s.stats, newLength);
  }

  lemma KeepCopiedBoth(s: State, w: Work)
    requires AtWork(s, w) && w.stage.CopiedBoth?
    ensures Inv(Progress(s, w))
  {
    hide MetasFit, StatsFit, Agree;
    var s' := Progress(s, w);
    SlotsStay(s.statArrays);
    ThreadsStay(s, s');
    AgreeSwitch(s.metaArrays, s.metas, w.stage.newMetas, w.stage.id);
    MetasStretched(s.ids, Metas(s), s.metaArrays[w.stage.newMetas], Finished(s), EarlyMeta(s));
  }

  lemma KeepAssignedMetas(s: State, w: Work)
    requires AtWork(s, w) && w.stage.AssignedMetas?
    ensures Inv(Progress(s, w))
  {
    hide MetasFit, StatsFit, Agree;
    var s' := Progress(s, w);
    SlotsStay(s.statArrays);
    ThreadsStay(s, s');
    AgreeSwitch(s.statArrays, s.stats, w.stage.newStats, w.stage.id);
    StatsStretched(Stats(s), s.statArrays[w.stage.newStats], Finished(s), EarlyStats(s), s.counters, s.log);
  }

  lemma KeepRoomy(s: State, w: Work)
    requires AtWork(s, w) && w.stage.Roomy?
    ensures Inv(Progress(s, w))
  {
    hide MetasFit, StatsFit, Agree, Covers;
    var s' := Progress(s, w);
    SlotsStay(s.statArrays);
    ThreadsStay(s, s');
    MetaStored(s.ids, Metas(s), w.stage.id, w.key);
    AgreeStore(s.metaArrays, s.metas, w.stage.id, w.key);
  }

  lemma KeepMetaWritten(s: State, w: Work)
    requires AtWork(s, w) && w.stage.MetaWritten?
    ensures Inv(Progress(s, w))
  {
    hide MetasFit, StatsFit, Agree, Covers;
    var s' := Progress(s, w);
    StatsStored(Stats(s), w.stage.id, s.counters, s.log);
    SlotsStored(s.statArrays, s.stats, w.stage.id, |s.counters|);
    ThreadsStay(s, s');
    AgreeStore(s.statArrays, s.stats, w.stage.id, |s.counters|);
  }

  lemma KeepStatsWritten(s: State, w: Work)
    requires AtWork(s, w) && w.stage.StatsWritten?
    ensures Inv(Progress(s, w))
  {
    hide MetasFit, StatsFit, Agree, Covers;
    var s' := Progress(s, w);
    SlotsStay(s.statArrays);
    ThreadsStay(s, s');
    MetaPublished(s.ids, Metas(s), w.stage.id, w.key);
    StatsPublished(Stats(s), w.stage.id, s.counters, s.log);
  }

  lemma KeepPublished(s: State, w: Work)
    requires AtWork(s, w) && w.stage.Published?
    ensures Inv(Progress(s, w))
  {
    hide MetasFit, StatsFit, Agree, Covers;
    var s' := Progress(s, w);
    forall n | 0 <= n < |s'.threads|
      ensures ThreadFits(s', n)
    {
      assert ThreadFits(s, n);
    }
  }

  lemma ProgressKeepsInv(s: State, w: Work)
    requires AtWork(s, w)
    ensures Inv(Progress(s, w))
  {
    hide Inv, Progress;
    match w.stage
    case Locked => KeepLocked(s, w);
    case Absent => KeepAbsent(s, w);
    case Numbered(_) => KeepNumbered(s, w);
    case CopiedMetas(_, _) => KeepCopiedMetas(s, w);
    case CopiedBoth(_, _, _) => KeepCopiedBoth(s, w);
    case AssignedMetas(_, _) => KeepAssignedMetas(s, w);
    case Roomy(_) => KeepRoomy(s, w);
    case MetaWritten(_) => KeepMetaWritten(s, w);
    case StatsWritten(_) => KeepStatsWritten(s, w);
    case Published(_) => KeepPublished(s, w);
  }

  lemma ThreadStepKeepsInv(s: State, e: Event)
    requires Inv(s) && !e.Proceed? && e.thread < |s.threads| && !e.Count?
    ensures Inv(ThreadStep(s, e))
  {
    hide MetasFit, StatsFit, Agree, Covers;
    var s' := ThreadStep(s, e);
    if e.Take? && s.threads[e.thread].Returned? {
      KnownHasStats(s, e.thread);
    }
    forall n | 0 <= n < |s'.threads|
      ensures ThreadFits(s', n)
    {
      assert ThreadFits(s, n);
    }
  }

  /** A known id has metadata and stats in the current arrays. */
  lemma KnownHasStats(s: State, n: nat)
    requires Inv(s) && n < |s.threads| && s.threads[n].Returned?
    ensures
      var id := s.threads[n].id;
      && id < |Metas(s)| && Metas(s)[id] == Some(s.threads[n].key)
      && id < |Stats(s)| && Stats(s)[id].Some?
  {
    assert ThreadFits(s, n);
    assert KeyHasId(s.ids, Metas(s), Finished(s), s.threads[n].key);
    assert IsFilled(Stats(s), s.threads[n].id);
  }

  lemma CountKeepsInv(s: State, n: nat)
    requires Inv(s) && n < |s.threads|
    ensures Inv(ThreadStep(s, Count(n)))
  {
    hide MetasFit, StatsFit, Agree, Covers;
    var s' := ThreadStep(s, Count(n));
    if s.threads[n].Using? {
      UsingReachesLive(s, n);
      StatsCounted(Stats(s), Finished(s), EarlyStats(s), s.counters, s.log, s.threads[n].id);
      SlotsStay(s.statArrays);
      ThreadsStay(s, s');
    }
  }

  lemma StepKeepsInv(s: State, e: Event)
    requires Inv(s)
    ensures Inv(Step(s, e))
  {
    hide Inv, Progress, ThreadStep, StageFits, ArraysExist;
    if e.Proceed? {
      if s.work.Some? {
        WorkIsAt(s);
        ProgressKeepsInv(s, s.work.value);
      }
    } else if e.thread < |s.threads| {
      if e.Count? {
        CountKeepsInv(s, e.thread);
      } else {
        ThreadStepKeepsInv(s, e);
      }
    }
  }

  lemma WorkIsAt(s: State)
    requires Inv(s) && s.work.Some?
    ensures AtWork(s, s.work.value)
  {
    hide MetasFit, StatsFit, Agree, StageFits, ThreadFits;
  }

  // ---- what every run guarantees

  /** A key found in the map has its metadata and its stats in the current arrays. */
  lemma KnownKeyIsComplete(threads: nat, events: seq<Event>, key: Key)
    requires key in Run(threads, events).ids
    ensures
      var s := Run(threads, events);
      var id := s.ids[key];
      && id < s.next
      && id < |Metas(s)| && Metas(s)[id] == Some(key)
      && id < |Stats(s)| && Stats(s)[id].Some?
  {
    hide Run;
    var s := Run(threads, events);
    assert KeyHasId(s.ids, Metas(s), Finished(s), key);
    assert IsFilled(Stats(s), s.ids[key]);
  }

  lemma KeysHaveTheirOwnIds(threads: nat, events: seq<Event>, a: Key, b: Key)
    requires
      var ids := Run(threads, events).ids;
      a in ids && b in ids && ids[a] == ids[b]
    ensures a == b
  {
    hide Run, Inv;
    KnownKeyIsComplete(threads, events, a);
    KnownKeyIsComplete(threads, events, b);
  }

  /** When nobody is registering, the ids given out are exactly the numbers below the next one. */
  lemma IdsAreDense(threads: nat, events: seq<Event>, i: nat)
    requires Run(threads, events).work.None? && i < Run(threads, events).next
    ensures
      var s := Run(threads, events);
      i < |Metas(s)| && Metas(s)[i].Some? && Metas(s)[i].value in s.ids && s.ids[Metas(s)[i].value] == i
  {
    hide Run;
    var s := Run(threads, events);
    assert IdHasKey(s.ids, Metas(s), i);
  }

  /** Every invocation counted for a method, through whatever array, is in its live counter, and nothing else is. */
  lemma CountsReachTheLiveCounter(threads: nat, events: seq<Event>, id: nat)
    requires id < |Stats(Run(threads, events))| && Stats(Run(threads, events))[id].Some?
    ensures
      var s := Run(threads, events);
      Stats(s)[id].value < |s.counters| && s.counters[Stats(s)[id].value] == Times(s.log, id)
  {
    hide Run, Times;
    var s := Run(threads, events);
    assert SlotFits(Stats(s), Finished(s), EarlyStats(s), s.counters, s.log, id);
  }

  predicate IdsKept(a: map<Key, nat>, b: map<Key, nat>) {
    forall key :: key in a ==> key in b && b[key] == a[key]
  }

  lemma StepKeepsIds(s: State, e: Event)
    requires Inv(s)
    ensures IdsKept(s.ids, Step(s, e).ids)
  {
    hide MetasFit, StatsFit, Agree, Covers, ThreadFits;
  }

  /** A key's id never changes, whatever happens later. */
  lemma {:induction false} IdsAreForever(threads: nat, events: seq<Event>, later: seq<Event>)
    ensures IdsKept(Run(threads, events).ids, Run(threads, events + later).ids)
  {
    hide Step, Inv;
    if later == [] {
      assert events + later == events;
    } else {
      var n := |later| - 1;
      var all := events + later;
      assert all[..|all| - 1] == events + later[..n];
      IdsAreForever(threads, events, later[..n]);
      StepKeepsIds(Run(threads, events + later[..n]), later[n]);
    }
  }

  /** What registration returned to a thread is the id of its key. */
  lemma ReturnedIdIsTheKeys(threads: nat, events: seq<Event>, n: nat)
    requires n < |Run(threads, events).threads| && Run(threads, events).threads[n].Returned?
    ensures
      var s := Run(threads, events);
      var t := s.threads[n];
      t.key in s.ids && s.ids[t.key] == t.id
  {
    hide Run;
    assert ThreadFits(Run(threads, events), n);
  }
}
