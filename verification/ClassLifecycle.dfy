/** Instrumenting classes when recording starts and restoring them when it stops. */
module ClassLifecycle {
  import opened ClassFilter

  datatype Class = Class(name: Name, hasLoader: bool, modifiable: bool, instrumented: bool)

  datatype Agent = Agent(recording: bool, transformed: set<Name>, classes: seq<Class>)

  /** How rewriting a class goes: it may fail before or after the name is noted. */
  datatype Visit = Fine | FailsEarly | FailsLate

  /** How the virtual machine takes it: refused outright, refused after rewriting, or put in place. */
  datatype Install = RefusedFirst | RefusedAfter | Installed

  datatype How = How(visit: Visit, install: Install)

  /** The rewriter's answer: whether the class file is instrumented, and the names noted. */
  datatype Rewritten = Rewritten(instrumented: bool, transformed: set<Name>)

  function AfterTransform(a: Agent, name: Name, hasLoader: bool, rules: Rules, visit: Visit): Rewritten {
    if !a.recording || !IsEligible(name, hasLoader, rules) || visit.FailsEarly? then Rewritten(false, a.transformed)
    else Rewritten(visit.Fine?, a.transformed + {name})
  }

  /** One retransformation request for a loaded class, which starts from its original class file. */
  function AfterRetransform(a: Agent, i: nat, rules: Rules, how: How): (b: Agent)
    requires i < |a.classes|
    ensures |b.classes| == |a.classes|
  {
    var c := a.classes[i];
    var r := AfterTransform(a, c.name, c.hasLoader, rules, how.visit);
    match how.install
    case RefusedFirst => a
    case RefusedAfter => a.(transformed := r.transformed)
    case Installed => a.(transformed := r.transformed, classes := a.classes[i := c.(instrumented := r.instrumented)])
  }

  predicate ShouldRetransform(a: Agent, c: Class, rules: Rules) {
    c.modifiable && IsEligible(c.name, c.hasLoader, rules) && c.name !in a.transformed
  }

  predicate ShouldRestore(a: Agent, c: Class) {
    c.modifiable && c.name in a.transformed
  }

  function StartOne(a: Agent, i: nat, rules: Rules, how: How): (b: Agent)
    requires i < |a.classes|
    ensures |b.classes| == |a.classes|
  {
    if ShouldRetransform(a, a.classes[i], rules) then AfterRetransform(a, i, rules, how) else a
  }

  function StopOne(a: Agent, i: nat, rules: Rules, how: How): (b: Agent)
    requires i < |a.classes|
    ensures |b.classes| == |a.classes|
  {
    if !ShouldRestore(a, a.classes[i]) then a
    else
      var b := AfterRetransform(a, i, rules, how);
      if how.install.Installed? then b.(transformed := b.transformed - {a.classes[i].name}) else b
  }

  function StartScan(a: Agent, n: nat, rules: Rules, how: nat -> How): (b: Agent)
    requires n <= |a.classes|
    ensures |b.classes| == |a.classes|
  {
    if n == 0 then a else StartOne(StartScan(a, n - 1, rules, how), n - 1, rules, how(n - 1))
  }

  function StopScan(a: Agent, n: nat, rules: Rules, how: nat -> How): (b: Agent)
    requires n <= |a.classes|
    ensures |b.classes| == |a.classes|
  {
    if n == 0 then a else StopOne(StopScan(a, n - 1, rules, how), n - 1, rules, how(n - 1))
  }

  function AfterStart(a: Agent, supported: bool, rules: Rules, how: nat -> How): Agent {
    var on := a.(recording := true);
    if supported then StartScan(on, |on.classes|, rules, how) else on
  }

  function AfterStop(a: Agent, supported: bool, rules: Rules, how: nat -> How): Agent {
    var off := a.(recording := false);
    if supported then StopScan(off, |off.classes|, rules, how) else off
  }

  /** A class is loaded, or its definition fails after it was rewritten. */
  function AfterLoad(a: Agent, name: Name, hasLoader: bool, modifiable: bool, rules: Rules, visit: Visit, defined: bool):
    Agent
  {
    var r := AfterTransform(a, name, hasLoader, rules, visit);
    a.(transformed := r.transformed,
       classes := if defined then a.classes + [Class(name, hasLoader, modifiable, r.instrumented)] else a.classes)
  }

  datatype Event =
    | Load(name: Name, hasLoader: bool, modifiable: bool, visit: Visit, defined: bool)
    | Unload(index: nat)
    | Start(how: nat -> How)
    | Stop(how: nat -> How)
    /** Some other agent asks for a retransformation. */
    | Retransform(index: nat, single: How)

  function Step(a: Agent, e: Event, supported: bool, rules: Rules): Agent {
    match e
    case Load(name, hasLoader, modifiable, visit, defined) => AfterLoad(a, name, hasLoader, modifiable, rules, visit, defined)
    case Unload(i) => if i < |a.classes| then a.(classes := a.classes[..i] + a.classes[i + 1..]) else a
    case Start(how) => AfterStart(a, supported, rules, how)
    case Stop(how) => AfterStop(a, supported, rules, how)
    case Retransform(i, how) => if i < |a.classes| then AfterRetransform(a, i, rules, how) else a
  }

  /** A run; each event comes with the rules then in force. */
  function Run(events: seq<(Event, Rules)>, supported: bool): Agent {
    if events == [] then Agent(false, {}, [])
    else
      var n := |events| - 1;
      Step(Run(events[..n], supported), events[n].0, supported, events[n].1)
  }

  // ---- invariants

  predicate DistinctNames(classes: seq<Class>) {
    forall j, k :: 0 <= j < k < |classes| ==> classes[j].name != classes[k].name
  }

  /** Every instrumented class is noted, and the agent's own classes are never instrumented. */
  predicate Tracked(a: Agent) {
    forall k :: 0 <= k < |a.classes| && a.classes[k].instrumented ==>
      a.classes[k].name in a.transformed && !IsOwn(a.classes[k].name)
  }

  /** Loaded classes had different names at every moment of the run. */
  predicate NamesStayDistinct(events: seq<(Event, Rules)>, supported: bool) {
    && DistinctNames(Run(events, supported).classes)
    && (events == [] || NamesStayDistinct(events[..|events| - 1], supported))
  }

  lemma TransformIsTracked(a: Agent, name: Name, hasLoader: bool, rules: Rules, visit: Visit)
    ensures
      var r := AfterTransform(a, name, hasLoader, rules, visit);
      a.transformed <= r.transformed && (r.instrumented ==> a.recording && name in r.transformed && !IsOwn(name))
  {
    hide IsEligible, IsOwn;
    OwnClassesAreNotEligible(name, hasLoader, rules);
  }

  predicate SameNames(a: seq<Class>, b: seq<Class>) {
    |a| == |b| && forall k :: 0 <= k < |a| ==> a[k] == b[k].(instrumented := a[k].instrumented)
  }

  lemma RetransformIsTracked(a: Agent, i: nat, rules: Rules, how: How)
    requires Tracked(a) && i < |a.classes|
    ensures
      var b := AfterRetransform(a, i, rules, how);
      Tracked(b) && SameNames(b.classes, a.classes) && a.transformed <= b.transformed && b.recording == a.recording
  {
    hide IsEligible, IsOwn, AfterTransform;
    TransformIsTracked(a, a.classes[i].name, a.classes[i].hasLoader, rules, how.visit);
  }

  lemma {:induction false} StartScanIsTracked(a: Agent, n: nat, rules: Rules, how: nat -> How)
    requires Tracked(a) && n <= |a.classes|
    ensures
      var b := StartScan(a, n, rules, how);
      Tracked(b) && SameNames(b.classes, a.classes) && b.recording == a.recording
  {
    hide IsEligible, IsOwn, AfterRetransform, Tracked;
    if n > 0 {
      var b := StartScan(a, n - 1, rules, how);
      StartScanIsTracked(a, n - 1, rules, how);
      RetransformIsTracked(b, n - 1, rules, how(n - 1));
    }
  }

  lemma StopOneIsTracked(a: Agent, i: nat, rules: Rules, how: How)
    requires Tracked(a) && DistinctNames(a.classes) && i < |a.classes| && !a.recording
    ensures
      var b := StopOne(a, i, rules, how);
      Tracked(b) && SameNames(b.classes, a.classes) && !b.recording
  {
    hide IsEligible, IsOwn, AfterTransform;
    TransformIsTracked(a, a.classes[i].name, a.classes[i].hasLoader, rules, how.visit);
    RetransformIsTracked(a, i, rules, how);
  }

  lemma SameNamesDistinct(a: seq<Class>, b: seq<Class>)
    requires SameNames(a, b) && DistinctNames(b)
    ensures DistinctNames(a)
  {
  }

  lemma {:induction false} StopScanIsTracked(a: Agent, n: nat, rules: Rules, how: nat -> How)
    requires Tracked(a) && DistinctNames(a.classes) && n <= |a.classes| && !a.recording
    ensures
      var b := StopScan(a, n, rules, how);
      Tracked(b) && SameNames(b.classes, a.classes) && !b.recording
  {
    hide IsEligible, IsOwn, StopOne, Tracked, DistinctNames;
    if n > 0 {
      var b := StopScan(a, n - 1, rules, how);
      StopScanIsTracked(a, n - 1, rules, how);
      SameNamesDistinct(b.classes, a.classes);
      StopOneIsTracked(b, n - 1, rules, how(n - 1));
    }
  }

  lemma StepIsTracked(a: Agent, e: Event, supported: bool, rules: Rules)
    requires Tracked(a) && DistinctNames(a.classes)
    ensures Tracked(Step(a, e, supported, rules))
  {
    hide IsEligible, IsOwn, AfterRetransform, StartScan, StopScan, AfterTransform, DistinctNames;
    match e
    case Load(name, hasLoader, modifiable, visit, defined) => TransformIsTracked(a, name, hasLoader, rules, visit);
    case Unload(i) =>
    case Start(how) => StartScanIsTracked(a.(recording := true), |a.classes|, rules, how);
    case Stop(how) =>
      var off := a.(recording := false);
      assert off.classes == a.classes;
      StopScanIsTracked(off, |a.classes|, rules, how);
    case Retransform(i, how) =>
      if i < |a.classes| {
        RetransformIsTracked(a, i, rules, how);
      }
  }

  /** Over every sequential run with distinct names, every instrumented class is noted for the next stop. */
  lemma {:induction false} RunIsTracked(events: seq<(Event, Rules)>, supported: bool)
    requires NamesStayDistinct(events, supported)
    ensures Tracked(Run(events, supported))
  {
    hide Step, IsOwn;
    if events != [] {
      var n := |events| - 1;
      RunIsTracked(events[..n], supported);
      StepIsTracked(Run(events[..n], supported), events[n].0, supported, events[n].1);
    }
  }

  // ---- what a stop restores

  /** No earlier modifiable class has the name of class k. */
  predicate FirstOfItsName(classes: seq<Class>, k: nat)
    requires k < |classes|
  {
    forall j :: 0 <= j < k && classes[j].modifiable ==> classes[j].name != classes[k].name
  }

  /** Restored by a stop that meets no refusal. */
  predicate IsRestored(a: Agent, k: nat)
    requires k < |a.classes|
  {
    ShouldRestore(a, a.classes[k]) && FirstOfItsName(a.classes, k)
  }

  predicate NamedBefore(classes: seq<Class>, n: nat, name: Name)
    requires n <= |classes|
  {
    n > 0 && (NamedBefore(classes, n - 1, name) || (classes[n - 1].modifiable && classes[n - 1].name == name))
  }

  lemma {:induction false} NamedBeforeMeans(classes: seq<Class>, n: nat, name: Name)
    requires n <= |classes|
    ensures NamedBefore(classes, n, name) <==> exists j :: 0 <= j < n && classes[j].modifiable && classes[j].name == name
  {
    if n > 0 {
      NamedBeforeMeans(classes, n - 1, name);
    }
  }

  lemma OffTransformNotes(a: Agent, name: Name, hasLoader: bool, rules: Rules, visit: Visit)
    requires !a.recording
    ensures AfterTransform(a, name, hasLoader, rules, visit) == Rewritten(false, a.transformed)
  {
  }

  /** After the first n classes, when nothing is refused. */
  lemma {:induction false} CleanStopScan(a: Agent, n: nat, rules: Rules, how: nat -> How, k: nat, name: Name)
    requires !a.recording && n <= |a.classes| && k < |a.classes|
    requires forall i: nat :: i < n ==> how(i).install == Installed
    ensures
      var b := StopScan(a, n, rules, how);
      && !b.recording
      && (name in b.transformed <==> name in a.transformed && !NamedBefore(a.classes, n, name))
      && b.classes[k] == if k < n && IsRestored(a, k) then a.classes[k].(instrumented := false) else a.classes[k]
  {
    hide IsEligible, AfterTransform;
    if n > 0 {
      var b := StopScan(a, n - 1, rules, how);
      var c := a.classes[n - 1];
      CleanStopScan(a, n - 1, rules, how, k, name);
      CleanStopScan(a, n - 1, rules, how, n - 1, c.name);
      NamedBeforeMeans(a.classes, n - 1, c.name);
      OffTransformNotes(b, c.name, c.hasLoader, rules, how(n - 1).visit);
    }
  }

  /** Some loaded class of this name can be retransformed. */
  predicate CanBeReached(classes: seq<Class>, name: Name) {
    exists j :: 0 <= j < |classes| && classes[j].modifiable && classes[j].name == name
  }

  /**
   * A stop that meets no refusal keeps a name noted exactly if it was and no loaded class of that name can be
   * retransformed.
   */
  lemma CleanStopForgets(a: Agent, rules: Rules, how: nat -> How, name: Name)
    requires forall i: nat :: i < |a.classes| ==> how(i).install == Installed
    ensures
      var b := AfterStop(a, true, rules, how);
      name in b.transformed <==> name in a.transformed && !CanBeReached(a.classes, name)
  {
    hide NamedBefore;
    if a.classes != [] {
      CleanStopScan(a.(recording := false), |a.classes|, rules, how, 0, name);
    }
    NamedBeforeMeans(a.classes, |a.classes|, name);
  }

  /**
   * A stop none of whose retransformations is refused leaves a class instrumented exactly if it was and is not
   * restored: it is not modifiable, its name was not noted, or an earlier modifiable class has its name. The name
   * stays noted exactly if no class of that name is modifiable.
   */
  lemma CleanStopRestores(a: Agent, rules: Rules, how: nat -> How, k: nat)
    requires k < |a.classes| && forall i: nat :: i < |a.classes| ==> how(i).install == Installed
    ensures
      var b := AfterStop(a, true, rules, how);
      && |b.classes| == |a.classes|
      && (b.classes[k].instrumented <==> a.classes[k].instrumented && !IsRestored(a, k))
      && (a.classes[k].name in b.transformed <==>
        a.classes[k].name in a.transformed && !CanBeReached(a.classes, a.classes[k].name))
  {
    hide StopScan, CanBeReached;
    CleanStopScan(a.(recording := false), |a.classes|, rules, how, k, a.classes[k].name);
    CleanStopForgets(a, rules, how, a.classes[k].name);
  }

  /** With distinct names nothing modifiable stays instrumented, and no loaded modifiable class stays noted. */
  lemma CleanStopLeavesNothing(a: Agent, rules: Rules, how: nat -> How, k: nat)
    requires Tracked(a) && DistinctNames(a.classes)
    requires k < |a.classes| && forall i: nat :: i < |a.classes| ==> how(i).install == Installed
    requires a.classes[k].modifiable
    ensures
      var b := AfterStop(a, true, rules, how);
      |b.classes| == |a.classes| && !b.classes[k].instrumented && a.classes[k].name !in b.transformed
  {
    hide StopScan, IsOwn, NamedBefore;
    var off := a.(recording := false);
    CleanStopScan(off, |a.classes|, rules, how, k, a.classes[k].name);
    NamedBeforeMeans(a.classes, |a.classes|, a.classes[k].name);
  }

  /** Two classes of one name, from two loaders: the second is forgotten while still instrumented. */
  lemma SecondOfANameIsForgotten(name: Name, rules: Rules, how: nat -> How)
    requires forall i: nat :: how(i).install == Installed
    ensures
      var c := Class(name, true, true, true);
      var b := AfterStop(Agent(true, {name}, [c, c]), true, rules, how);
      |b.classes| == 2 && b.classes[1].instrumented && name !in b.transformed
  {
    hide StopScan, NamedBefore;
    var c := Class(name, true, true, true);
    var a := Agent(false, {name}, [c, c]);
    CleanStopScan(a, 2, rules, how, 1, name);
    NamedBeforeMeans(a.classes, 2, name);
    assert a.classes[0].name == name && a.classes[0].modifiable;
  }

  lemma RunAppend(events: seq<(Event, Rules)>, e: Event, rules: Rules, supported: bool)
    ensures Run(events + [(e, rules)], supported) == Step(Run(events, supported), e, supported, rules)
  {
    assert (events + [(e, rules)])[..|events|] == events;
  }

  /** The events, all under the same rules. */
  function Under(events: seq<Event>, rules: Rules): seq<(Event, Rules)> {
    if events == [] then [] else Under(events[..|events| - 1], rules) + [(events[|events| - 1], rules)]
  }

  lemma RunUnderAppend(events: seq<Event>, e: Event, rules: Rules, supported: bool)
    ensures Run(Under(events + [e], rules), supported) == Step(Run(Under(events, rules), supported), e, supported, rules)
  {
    assert (events + [e])[..|events|] == events;
    RunAppend(Under(events, rules), e, rules, supported);
  }

  /** A loaded class that is eligible, while recording is on. */
  lemma LoadInstruments(a: Agent, name: Name, rules: Rules)
    requires a.recording && IsEligible(name, true, rules)
    ensures AfterLoad(a, name, true, true, rules, Fine, true) ==
      a.(transformed := a.transformed + {name}, classes := a.classes + [Class(name, true, true, true)])
  {
    hide IsEligible;
  }

  lemma StartOnNothing(a: Agent, rules: Rules, how: nat -> How)
    requires a.classes == []
    ensures AfterStart(a, true, rules, how) == a.(recording := true)
    ensures AfterStop(a, true, rules, how) == a.(recording := false)
  {
  }

  /**
   * A run that gets there with any eligible name: recording starts, two loaders load a class of the name, recording
   * stops. The second class is still instrumented, and nothing notes it.
   */
  lemma SecondOfANameIsLost(name: Name, rules: Rules, how: nat -> How)
    requires IsEligible(name, true, rules) && forall i: nat :: how(i).install == Installed
    ensures
      var load := Load(name, true, true, Fine, true);
      var b := Run(Under([Start(how), load, load, Stop(how)], rules), true);
      |b.classes| == 2 && b.classes[1] == Class(name, true, true, true) && name !in b.transformed && !b.recording
  {
    hide Run, Under, IsEligible, AfterLoad, AfterStop, AfterStart;
    var load, c := Load(name, true, true, Fine, true), Class(name, true, true, true);
    TwoLoaded(name, rules, how);
    RunUnderAppend([Start(how), load, load], Stop(how), rules, true);
    assert [Start(how), load, load] + [Stop(how)] == [Start(how), load, load, Stop(how)];
    SecondOfANameIsForgotten(name, rules, how);
    StopKeepsNames(Agent(true, {name}, [c, c]), rules, how);
  }

  lemma NothingHasRun(supported: bool, rules: Rules)
    ensures Run(Under([], rules), supported) == Agent(false, {}, [])
  {
  }

  lemma TwoLoaded(name: Name, rules: Rules, how: nat -> How)
    requires IsEligible(name, true, rules)
    ensures
      var load, c := Load(name, true, true, Fine, true), Class(name, true, true, true);
      && Run(Under([Start(how), load], rules), true) == Agent(true, {name}, [c])
      && Run(Under([Start(how), load, load], rules), true) == Agent(true, {name}, [c, c])
  {
    hide Run, Under, IsEligible, AfterLoad, AfterStart;
    var load, c := Load(name, true, true, Fine, true), Class(name, true, true, true);
    NothingHasRun(true, rules);
    RunUnderAppend([], Start(how), rules, true);
    RunUnderAppend([Start(how)], load, rules, true);
    RunUnderAppend([Start(how), load], load, rules, true);
    assert [] + [Start(how)] == [Start(how)] && [Start(how)] + [load] == [Start(how), load];
    assert [Start(how), load] + [load] == [Start(how), load, load];
    StartOnNothing(Agent(false, {}, []), rules, how);
    LoadInstruments(Agent(true, {}, []), name, rules);
    LoadInstruments(Agent(true, {name}, [c]), name, rules);
  }

  lemma StopKeepsNames(a: Agent, rules: Rules, how: nat -> How)
    requires forall i: nat :: how(i).install == Installed
    ensures
      var b := AfterStop(a, true, rules, how);
      && !b.recording && |b.classes| == |a.classes|
      && forall k :: 0 <= k < |a.classes| ==> b.classes[k] == a.classes[k].(instrumented := b.classes[k].instrumented)
  {
    var off, b := a.(recording := false), AfterStop(a, true, rules, how);
    hide StopScan;
    if a.classes != [] {
      CleanStopScan(off, |a.classes|, rules, how, 0, a.classes[0].name);
    } else {
      StartOnNothing(a, rules, how);
    }
    forall k | 0 <= k < |a.classes|
      ensures b.classes[k] == a.classes[k].(instrumented := b.classes[k].instrumented)
    {
      CleanStopScan(off, |a.classes|, rules, how, k, a.classes[k].name);
    }
  }

  /**
   * A run that leaves a name noted for good: its class is instrumented and unloaded before the stop, so the class of
   * that name loaded later is not instrumented by the next start, eligible and modifiable as it is.
   */
  lemma NotedNameIsPassedOver(name: Name, rules: Rules, how: nat -> How)
    requires IsEligible(name, true, rules)
    ensures
      var load := Load(name, true, true, Fine, true);
      var b := Run(Under([Start(how), load, Unload(0), Stop(how), load, Start(how)], rules), true);
      b.recording && b.classes == [Class(name, true, true, false)] && name in b.transformed
  {
    hide Run, Under, IsEligible, AfterLoad, AfterStart, AfterStop;
    var load, c := Load(name, true, true, Fine, true), Class(name, true, true, false);
    var e2 := [Start(how), load];
    var e3, e4, e5 := e2 + [Unload(0)], e2 + [Unload(0), Stop(how)], e2 + [Unload(0), Stop(how), load];
    TwoLoaded(name, rules, how);
    RunUnderAppend(e2, Unload(0), rules, true);
    RunUnderAppend(e3, Stop(how), rules, true);
    RunUnderAppend(e4, load, rules, true);
    RunUnderAppend(e5, Start(how), rules, true);
    assert e3 + [Stop(how)] == e4 && e4 + [load] == e5;
    assert e5 + [Start(how)] == [Start(how), load, Unload(0), Stop(how), load, Start(how)];
    assert [Class(name, true, true, true)][..0] + [Class(name, true, true, true)][1..] == [];
    assert Run(Under(e3, rules), true) == Agent(true, {name}, []);
    StartOnNothing(Agent(true, {name}, []), rules, how);
    assert Run(Under(e4, rules), true) == Agent(false, {name}, []);
    LoadWhileOff(Agent(false, {name}, []), name, rules);
    assert Run(Under(e5, rules), true) == Agent(false, {name}, [c]);
    NotedIsPassedOver(Agent(false, {name}, [c]), rules, how);
  }

  lemma LoadWhileOff(a: Agent, name: Name, rules: Rules)
    requires !a.recording
    ensures AfterLoad(a, name, true, true, rules, Fine, true) ==
      a.(classes := a.classes + [Class(name, true, true, false)])
  {
  }

  lemma NotedIsPassedOver(a: Agent, rules: Rules, how: nat -> How)
    requires |a.classes| == 1 && a.classes[0].name in a.transformed
    ensures AfterStart(a, true, rules, how) == a.(recording := true)
  {
    hide IsEligible;
    assert StartScan(a.(recording := true), 0, rules, how) == a.(recording := true);
  }

  /** Whatever is refused, a stop changes a class of its own name only by its own outcome. */
  lemma {:induction false} StopScanAt(a: Agent, n: nat, rules: Rules, how: nat -> How, k: nat)
    requires !a.recording && n <= |a.classes| && k < |a.classes| && DistinctNames(a.classes)
    ensures
      var b := StopScan(a, n, rules, how);
      var restored := k < n && ShouldRestore(a, a.classes[k]) && how(k).install.Installed?;
      && !b.recording
      && b.classes[k] == (if restored then a.classes[k].(instrumented := false) else a.classes[k])
      && (a.classes[k].name in b.transformed <==> a.classes[k].name in a.transformed && !restored)
  {
    hide IsEligible, AfterTransform;
    if n > 0 {
      var b := StopScan(a, n - 1, rules, how);
      var c := a.classes[n - 1];
      StopScanAt(a, n - 1, rules, how, k);
      StopScanAt(a, n - 1, rules, how, n - 1);
      OffTransformNotes(b, c.name, c.hasLoader, rules, how(n - 1).visit);
    }
  }

  /** A class whose restore is refused stays as it is and stays noted, so the next stop tries it again. */
  lemma RefusedRestoreIsKept(a: Agent, rules: Rules, how: nat -> How, k: nat)
    requires DistinctNames(a.classes) && k < |a.classes| && !how(k).install.Installed?
    ensures
      var b := AfterStop(a, true, rules, how);
      && |b.classes| == |a.classes| && b.classes[k] == a.classes[k]
      && (a.classes[k].name in b.transformed <==> a.classes[k].name in a.transformed)
      && (ShouldRestore(b, b.classes[k]) <==> ShouldRestore(a, a.classes[k]))
  {
    hide StopScan;
    StopScanAt(a.(recording := false), |a.classes|, rules, how, k);
  }

  // ---- what a start instruments

  lemma OnTransformNotes(a: Agent, c: Class, rules: Rules, visit: Visit)
    requires a.recording && IsEligible(c.name, c.hasLoader, rules)
    ensures AfterTransform(a, c.name, c.hasLoader, rules, visit) ==
      if visit.FailsEarly? then Rewritten(false, a.transformed) else Rewritten(visit.Fine?, a.transformed + {c.name})
  {
    hide IsEligible;
  }

  lemma {:induction false} StartScanAt(a: Agent, n: nat, rules: Rules, how: nat -> How, k: nat)
    requires a.recording && n <= |a.classes| && k < |a.classes| && DistinctNames(a.classes)
    ensures
      var b := StartScan(a, n, rules, how);
      var asked := k < n && ShouldRetransform(a, a.classes[k], rules);
      && b.recording
      && b.classes[k] == (if asked && how(k).install.Installed?
                          then a.classes[k].(instrumented := how(k).visit.Fine?) else a.classes[k])
      && (a.classes[k].name in b.transformed <==>
          a.classes[k].name in a.transformed
          || (asked && !how(k).install.RefusedFirst? && !how(k).visit.FailsEarly?))
  {
    hide IsEligible, AfterTransform;
    if n > 0 {
      var b := StartScan(a, n - 1, rules, how);
      var c := a.classes[n - 1];
      StartScanAt(a, n - 1, rules, how, k);
      StartScanAt(a, n - 1, rules, how, n - 1);
      if IsEligible(c.name, c.hasLoader, rules) {
        OnTransformNotes(b, c, rules, how(n - 1).visit);
      }
    }
  }

  /**
   * A start whose rewriting all works instruments exactly the eligible modifiable classes whose names are not
   * noted yet; a name left noted by an unloaded or unrestored class keeps its class as it is.
   */
  lemma CleanStartInstruments(a: Agent, rules: Rules, how: nat -> How, k: nat)
    requires DistinctNames(a.classes) && k < |a.classes| && how(k) == How(Fine, Installed)
    ensures
      var b, c := AfterStart(a, true, rules, how), a.classes[k];
      var asked := c.modifiable && IsEligible(c.name, c.hasLoader, rules) && c.name !in a.transformed;
      && |b.classes| == |a.classes|
      && b.classes[k] == c.(instrumented := c.instrumented || asked)
      && (asked ==> c.name in b.transformed)
  {
    hide StartScan, IsEligible;
    StartScanAt(a.(recording := true), |a.classes|, rules, how, k);
  }

  // ---- the code

  class JavaAgent {
    var recording: bool
    var transformedClasses: set<Name>
    var loadedClasses: seq<Class>

    function Now(): Agent
      reads this
    {
      Agent(recording, transformedClasses, loadedClasses)
    }

    constructor ()
      ensures Now() == Agent(false, {}, [])
    {
      recording, transformedClasses, loadedClasses := false, {}, [];
    }

    /** The class file transformer: whether it hands back instrumented bytes. */
    method Transform(name: Name, hasLoader: bool, rules: Rules, visit: Visit) returns (instrumented: bool)
      modifies this`transformedClasses
      ensures Rewritten(instrumented, transformedClasses) ==
        AfterTransform(old(Now()), name, hasLoader, rules, visit)
    {
      hide ShouldRecordMethods, IsAllocationTraceClass, IsOwn;
      if !ShouldInspect(name, hasLoader, rules) {
        return false;
      }
      if !recording {
        return false;
      }
      if !ShouldRecordMethods(name, hasLoader, rules) && !IsAllocationTraceClass(name) {
        return false;
      }
      if visit.FailsEarly? {
        return false;
      }
      transformedClasses := transformedClasses + {name};
      instrumented := visit.Fine?;
    }

    /** The virtual machine's side of a retransformation; `refused` is the exception it throws. */
    method RetransformClasses(i: nat, rules: Rules, how: How) returns (refused: bool)
      requires i < |loadedClasses|
      modifies this`transformedClasses, this`loadedClasses
      ensures Now() == AfterRetransform(old(Now()), i, rules, how) && refused == !how.install.Installed?
    {
      hide IsEligible, AfterTransform;
      if how.install.RefusedFirst? {
        return true;
      }
      var c := loadedClasses[i];
      var instrumented := Transform(c.name, c.hasLoader, rules, how.visit);
      if how.install.RefusedAfter? {
        return true;
      }
      loadedClasses := loadedClasses[i := c.(instrumented := instrumented)];
      refused := false;
    }

    method StartRecording(supported: bool, rules: Rules, how: nat -> How)
      modifies this
      ensures Now() == AfterStart(old(Now()), supported, rules, how)
    {
      hide IsEligible, AfterRetransform;
      recording := true;
      if !supported {
        return;
      }
      ghost var on := Now();
      for i := 0 to |loadedClasses|
        invariant |loadedClasses| == |on.classes|
        invariant Now() == StartScan(on, i, rules, how)
      {
        if !ShouldRetransform(Now(), loadedClasses[i], rules) {
          continue;
        }
        var _ := RetransformClasses(i, rules, how(i));
      }
    }

    method StopRecording(supported: bool, rules: Rules, how: nat -> How)
      modifies this
      ensures Now() == AfterStop(old(Now()), supported, rules, how)
    {
      hide IsEligible, AfterRetransform;
      recording := false;
      if !supported {
        return;
      }
      ghost var off := Now();
      for i := 0 to |loadedClasses|
        invariant |loadedClasses| == |off.classes|
        invariant Now() == StopScan(off, i, rules, how)
      {
        if !ShouldRestore(Now(), loadedClasses[i]) {
          continue;
        }
        var name := loadedClasses[i].name;
        var refused := RetransformClasses(i, rules, how(i));
        if !refused {
          transformedClasses := transformedClasses - {name};
        }
      }
    }
  }
}
