/** What whole runs of loads, starts and stops lead to. */
module ClassRuns {
  import opened ClassFilter
  import opened ClassLifecycle

  predicate IsCommand(e: Event) {
    e.Start? || e.Stop?
  }

  /** The last start or stop of a run. */
  predicate IsLastCommand(events: seq<(Event, Rules)>, k: int) {
    0 <= k < |events| && IsCommand(events[k].0) && forall j :: k < j < |events| ==> !IsCommand(events[j].0)
  }

  /** The last command is a start. */
  predicate Started(events: seq<(Event, Rules)>) {
    exists k :: 0 <= k < |events| && IsLastCommand(events, k) && events[k].0.Start?
  }

  lemma CommandDecides(events: seq<(Event, Rules)>)
    requires events != []
    ensures
      var last := events[|events| - 1].0;
      Started(events) <==> last.Start? || (!last.Stop? && Started(events[..|events| - 1]))
  {
    var n := |events| - 1;
    var before := events[..n];
    if events[n].0.Start? {
      assert IsLastCommand(events, n);
    }
    if !IsCommand(events[n].0) {
      forall k | 0 <= k < n ensures IsLastCommand(events, k) <==> IsLastCommand(before, k) {
        assert before[k] == events[k];
      }
      assert forall k :: 0 <= k < n ==> before[k] == events[k];
    }
  }

  lemma {:induction false} StartScanKeepsSwitch(a: Agent, n: nat, rules: Rules, how: nat -> How)
    requires n <= |a.classes|
    ensures StartScan(a, n, rules, how).recording == a.recording
  {
    hide IsEligible;
    if n > 0 {
      StartScanKeepsSwitch(a, n - 1, rules, how);
    }
  }

  lemma {:induction false} StopScanKeepsSwitch(a: Agent, n: nat, rules: Rules, how: nat -> How)
    requires n <= |a.classes|
    ensures StopScan(a, n, rules, how).recording == a.recording
  {
    hide IsEligible;
    if n > 0 {
      StopScanKeepsSwitch(a, n - 1, rules, how);
    }
  }

  lemma StepSwitches(a: Agent, e: Event, supported: bool, rules: Rules)
    ensures Step(a, e, supported, rules).recording == if e.Start? then true else if e.Stop? then false else a.recording
  {
    hide IsEligible, StartScan, StopScan;
    match e
    case Start(how) => StartScanKeepsSwitch(a.(recording := true), |a.classes|, rules, how);
    case Stop(how) => StopScanKeepsSwitch(a.(recording := false), |a.classes|, rules, how);
    case _ =>
  }

  /**
   * In every run the agent records exactly if the last command was a start, whether the virtual machine can retransform
   * classes or not and however rewriting goes.
   */
  lemma {:induction false} RecordingFollowsCommands(events: seq<(Event, Rules)>, supported: bool)
    ensures Run(events, supported).recording <==> Started(events)
  {
    hide Step, Started;
    if events == [] {
      NothingStarted();
    } else {
      var n := |events| - 1;
      RecordingFollowsCommands(events[..n], supported);
      CommandDecides(events);
      StepSwitches(Run(events[..n], supported), events[n].0, supported, events[n].1);
    }
  }

  lemma NothingStarted()
    ensures !Started([])
  {
  }

  lemma LoadThatFails(a: Agent, name: Name, rules: Rules)
    requires a.recording && IsEligible(name, true, rules)
    ensures AfterLoad(a, name, true, true, rules, Fine, false) == a.(transformed := a.transformed + {name})
  {
  }

  /**
   * A class is noted when it has been rewritten, before the virtual machine accepts it. If that fails, the name stays
   * noted: loaded again while recording is off, the class is passed over by the next start.
   */
  lemma UndefinedClassIsPassedOver(name: Name, rules: Rules, how: nat -> How)
    requires IsEligible(name, true, rules)
    ensures
      var refused, load := Load(name, true, true, Fine, false), Load(name, true, true, Fine, true);
      var b := Run(Under([Start(how), refused, Stop(how), load, Start(how)], rules), true);
      b.recording && b.classes == [Class(name, true, true, false)] && name in b.transformed
  {
    hide Run, Under, IsEligible, AfterLoad, AfterStart, AfterStop;
    var refused, load := Load(name, true, true, Fine, false), Load(name, true, true, Fine, true);
    var e1, e2 := [Start(how)], [Start(how), refused];
    var e3, e4 := e2 + [Stop(how)], e2 + [Stop(how), load];
    NothingHasRun(true, rules);
    RunUnderAppend([], Start(how), rules, true);
    RunUnderAppend(e1, refused, rules, true);
    RunUnderAppend(e2, Stop(how), rules, true);
    RunUnderAppend(e3, load, rules, true);
    RunUnderAppend(e4, Start(how), rules, true);
    assert [] + [Start(how)] == e1 && e1 + [refused] == e2 && e3 + [load] == e4;
    assert e4 + [Start(how)] == [Start(how), refused, Stop(how), load, Start(how)];
    StartOnNothing(Agent(false, {}, []), rules, how);
    LoadThatFails(Agent(true, {}, []), name, rules);
    assert {} + {name} == {name};
    assert Run(Under(e2, rules), true) == Agent(true, {name}, []);
    StartOnNothing(Agent(true, {name}, []), rules, how);
    assert Run(Under(e3, rules), true) == Agent(false, {name}, []);
    LoadWhileOff(Agent(false, {name}, []), name, rules);
    assert [] + [Class(name, true, true, false)] == [Class(name, true, true, false)];
    assert Run(Under(e4, rules), true) == Agent(false, {name}, [Class(name, true, true, false)]);
    NotedIsPassedOver(Agent(false, {name}, [Class(name, true, true, false)]), rules, how);
  }
}
