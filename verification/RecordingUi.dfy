/** The client's recording button: start and stop requests run in the background and answer later. */
module RecordingUi {
  import opened Options

  datatype Target = Target(pid: nat, isLikelyDemo: bool)

  /** A background request; the port is where it goes. */
  datatype Request = Start(pid: nat, preferredPort: nat) | Stop(port: nat) | Other

  /** What a request comes back with: for a start that succeeds, the port recording runs on. */
  datatype Outcome = Succeeded(port: nat) | Failed

  datatype Answer = Answer(request: Request, outcome: Outcome)

  datatype State = State(
    recording: bool, startPending: bool, stopPending: bool, initialStartPending: bool, atStartCenter: bool,
    selectedPid: Option<nat>, jvms: seq<Target>, agentPort: nat, pendingQueries: seq<Request>)

  function Opened(agentPort: nat): State {
    State(false, false, false, false, true, None, [], agentPort, [])
  }

  // ---- what each event does

  function FirstLikelyDemo(jvms: seq<Target>): Option<nat> {
    if jvms == [] then None
    else
      var before := FirstLikelyDemo(jvms[..|jvms| - 1]);
      var last := jvms[|jvms| - 1];
      if before.None? && last.isLikelyDemo then Some(last.pid) else before
  }

  function AfterDefaultSelection(s: State): State {
    if s.selectedPid.Some? || s.jvms == [] then s
    else
      var demo := FirstLikelyDemo(s.jvms);
      s.(selectedPid := if demo.Some? then demo else Some(s.jvms[0].pid))
  }

  function AfterSpawnStart(s: State): State {
    if s.startPending || s.selectedPid.None? then s
    else s.(startPending := true, pendingQueries := s.pendingQueries + [Start(s.selectedPid.value, s.agentPort)])
  }

  function AfterSpawnStop(s: State): State {
    if s.stopPending then s
    else s.(stopPending := true, pendingQueries := s.pendingQueries + [Stop(s.agentPort)])
  }

  function AfterInitialStart(s: State): State {
    if s.recording || s.selectedPid.None? then s else AfterSpawnStart(s)
  }

  function AfterSession(s: State): State {
    var chosen := AfterDefaultSelection(s);
    if chosen.selectedPid.None? then chosen else AfterInitialStart(chosen.(atStartCenter := false))
  }

  function AfterToggle(s: State): State {
    if s.atStartCenter then AfterSession(s)
    else if s.recording then (if s.stopPending then s else AfterSpawnStop(s))
    else if s.startPending then s
    else AfterSpawnStart(s)
  }

  function AfterAutoUpdate(s: State): State {
    if s.selectedPid.None? && !s.recording then s
    else if s.initialStartPending && !s.atStartCenter then AfterInitialStart(s.(initialStartPending := false))
    else s
  }

  function AfterGc(s: State): State {
    if s.selectedPid.None? then s else s.(pendingQueries := s.pendingQueries + [Other])
  }

  function AfterJvms(s: State, jvms: seq<Target>): State {
    var chosen := AfterDefaultSelection(s.(jvms := jvms));
    if !chosen.atStartCenter && chosen.selectedPid.Some? && !chosen.recording
    then chosen.(initialStartPending := true) else chosen
  }

  function AfterAnswer(s: State, a: Answer): State {
    match a.request
    case Other => s
    case Stop(_) =>
      var done := s.(stopPending := false);
      if a.outcome.Succeeded? then done.(recording := false) else done
    case Start(_, _) =>
      var done := s.(startPending := false);
      if a.outcome.Succeeded? then done.(recording := true, agentPort := a.outcome.port) else done.(recording := false)
  }

  function AfterAnswers(s: State, answers: seq<Answer>): State {
    if answers == [] then s else AfterAnswer(AfterAnswers(s, answers[..|answers| - 1]), answers[|answers| - 1])
  }

  /** The requests that are still running, where ready(i) says how the i-th came back, if it has. */
  function StillRunning(requests: seq<Request>, ready: nat -> Option<Outcome>): seq<Request> {
    if requests == [] then []
    else
      var n := |requests| - 1;
      StillRunning(requests[..n], ready) + (if ready(n).None? then [requests[n]] else [])
  }

  function Answered(requests: seq<Request>, ready: nat -> Option<Outcome>): seq<Answer> {
    if requests == [] then []
    else
      var n := |requests| - 1;
      Answered(requests[..n], ready) + (if ready(n).None? then [] else [Answer(requests[n], ready(n).value)])
  }

  function AfterPoll(s: State, jvms: Option<seq<Target>>, ready: nat -> Option<Outcome>): State {
    var drained := s.(pendingQueries := StillRunning(s.pendingQueries, ready));
    var listed := if jvms.Some? then AfterJvms(drained, jvms.value) else drained;
    AfterAnswers(listed, Answered(s.pendingQueries, ready))
  }

  datatype Event =
    | Toggle | StartSession | AutoUpdate | RunGc
    | Navigate(toStartCenter: bool)
    | SelectJvm(pid: nat)
    | Poll(jvms: Option<seq<Target>>, ready: nat -> Option<Outcome>)

  function Step(s: State, e: Event): State {
    match e
    case Toggle => AfterToggle(s)
    case StartSession => AfterSession(s)
    case AutoUpdate => AfterAutoUpdate(s)
    case RunGc => AfterGc(s)
    case Navigate(toStartCenter) => s.(atStartCenter := toStartCenter)
    case SelectJvm(pid) => s.(selectedPid := Some(pid))
    case Poll(jvms, ready) => AfterPoll(s, jvms, ready)
  }

  function Run(s: State, events: seq<Event>): State {
    if events == [] then s else Step(Run(s, events[..|events| - 1]), events[|events| - 1])
  }

  /** The answers that arrive during a run. */
  function Arrived(s: State, events: seq<Event>): seq<Answer> {
    if events == [] then []
    else
      var before := events[..|events| - 1];
      var last := events[|events| - 1];
      Arrived(s, before) + (if last.Poll? then Answered(Run(s, before).pendingQueries, last.ready) else [])
  }

  // ---- what always holds

  function Starts(requests: seq<Request>): nat {
    if requests == [] then 0
    else Starts(requests[..|requests| - 1]) + (if requests[|requests| - 1].Start? then 1 else 0)
  }

  function Stops(requests: seq<Request>): nat {
    if requests == [] then 0
    else Stops(requests[..|requests| - 1]) + (if requests[|requests| - 1].Stop? then 1 else 0)
  }

  function One(b: bool): nat {
    if b then 1 else 0
  }

  /** Every stop in flight goes to the port recording runs on. */
  predicate StopsGoTo(requests: seq<Request>, port: nat) {
    forall k :: 0 <= k < |requests| && requests[k].Stop? ==> requests[k].port == port
  }

  /** The flags are the requests in flight, counting those answered but not yet applied. */
  predicate FlagsAreRight(s: State, waiting: seq<Request>) {
    && Starts(s.pendingQueries) + Starts(waiting) == One(s.startPending)
    && Stops(s.pendingQueries) + Stops(waiting) == One(s.stopPending)
    && (s.startPending ==> !s.recording)
    && (s.stopPending ==> s.recording)
    && StopsGoTo(s.pendingQueries, s.agentPort) && StopsGoTo(waiting, s.agentPort)
  }

  predicate Consistent(s: State) {
    FlagsAreRight(s, [])
  }

  lemma OneMore(requests: seq<Request>, r: Request)
    ensures Starts(requests + [r]) == Starts(requests) + One(r.Start?)
    ensures Stops(requests + [r]) == Stops(requests) + One(r.Stop?)
  {
    assert (requests + [r])[..|requests|] == requests;
  }

  lemma AnswerKeepsFlags(s: State, waiting: seq<Request>, a: Answer)
    requires FlagsAreRight(s, [a.request] + waiting)
    ensures FlagsAreRight(AfterAnswer(s, a), waiting)
  {
    FirstOf(a.request, waiting);
    var all := [a.request] + waiting;
    assert forall k :: 0 <= k < |waiting| ==> all[k + 1] == waiting[k];
    if a.request.Start? && Stops(waiting) == 0 && Stops(s.pendingQueries) == 0 {
      NoStops(waiting);
      NoStops(s.pendingQueries);
    }
  }

  lemma {:induction false} FirstOf(r: Request, rest: seq<Request>)
    ensures Starts([r] + rest) == One(r.Start?) + Starts(rest)
    ensures Stops([r] + rest) == One(r.Stop?) + Stops(rest)
  {
    if rest == [] {
      assert [r] + rest == [] + [r];
      OneMore([], r);
    } else {
      var n := |rest| - 1;
      assert [r] + rest == ([r] + rest[..n]) + [rest[n]];
      OneMore([r] + rest[..n], rest[n]);
      FirstOf(r, rest[..n]);
    }
  }

  lemma {:induction false} NoStops(requests: seq<Request>)
    requires Stops(requests) == 0
    ensures forall k :: 0 <= k < |requests| ==> !requests[k].Stop?
  {
    if requests != [] {
      NoStops(requests[..|requests| - 1]);
    }
  }

  function Requests(answers: seq<Answer>): (r: seq<Request>)
    ensures |r| == |answers|
  {
    if answers == [] then [] else Requests(answers[..|answers| - 1]) + [answers[|answers| - 1].request]
  }

  lemma {:induction false} AnswersKeepFlags(s: State, answers: seq<Answer>, rest: seq<Request>)
    requires FlagsAreRight(s, Requests(answers) + rest)
    ensures FlagsAreRight(AfterAnswers(s, answers), rest)
  {
    hide FlagsAreRight, AfterAnswer;
    if answers == [] {
      assert [] + rest == rest;
    } else {
      var n := |answers| - 1;
      assert Requests(answers) + rest == Requests(answers[..n]) + ([answers[n].request] + rest);
      AnswersKeepFlags(s, answers[..n], [answers[n].request] + rest);
      AnswerKeepsFlags(AfterAnswers(s, answers[..n]), rest, answers[n]);
    }
  }

  /** Polling loses no request: each is still running or answered. */
  lemma {:induction false} PollDrains(requests: seq<Request>, ready: nat -> Option<Outcome>)
    ensures Starts(StillRunning(requests, ready)) + Starts(Requests(Answered(requests, ready))) == Starts(requests)
    ensures Stops(StillRunning(requests, ready)) + Stops(Requests(Answered(requests, ready))) == Stops(requests)
  {
    if requests != [] {
      var n := |requests| - 1;
      var still, done := StillRunning(requests[..n], ready), Answered(requests[..n], ready);
      PollDrains(requests[..n], ready);
      if ready(n).None? {
        OneMore(still, requests[n]);
        assert done + [] == done;
      } else {
        var a := Answer(requests[n], ready(n).value);
        assert (done + [a])[..|done|] == done;
        OneMore(Requests(done), requests[n]);
        assert still + [] == still;
      }
    }
  }

  lemma {:induction false} PollKeepsPorts(requests: seq<Request>, ready: nat -> Option<Outcome>, port: nat)
    requires StopsGoTo(requests, port)
    ensures StopsGoTo(StillRunning(requests, ready), port) && StopsGoTo(Requests(Answered(requests, ready)), port)
  {
    if requests != [] {
      var n := |requests| - 1;
      var still, done := StillRunning(requests[..n], ready), Answered(requests[..n], ready);
      PollKeepsPorts(requests[..n], ready, port);
      if ready(n).Some? {
        assert (done + [Answer(requests[n], ready(n).value)])[..|done|] == done;
        assert still + [] == still;
      } else {
        assert done + [] == done;
      }
    }
  }

  lemma JvmsKeepFlags(s: State, jvms: seq<Target>, waiting: seq<Request>)
    requires FlagsAreRight(s, waiting)
    ensures FlagsAreRight(AfterJvms(s, jvms), waiting) && AfterJvms(s, jvms).recording == s.recording
  {
    hide Starts, Stops, FirstLikelyDemo;
  }

  /** The state between draining the queue and applying what came back. */
  function Listed(s: State, jvms: Option<seq<Target>>, ready: nat -> Option<Outcome>): State {
    var drained := s.(pendingQueries := StillRunning(s.pendingQueries, ready));
    if jvms.Some? then AfterJvms(drained, jvms.value) else drained
  }

  lemma ListedIsRight(s: State, jvms: Option<seq<Target>>, ready: nat -> Option<Outcome>)
    requires Consistent(s)
    ensures FlagsAreRight(Listed(s, jvms, ready), Requests(Answered(s.pendingQueries, ready)))
    ensures Listed(s, jvms, ready).recording == s.recording
  {
    hide StillRunning, Answered, Requests, AfterJvms;
    PollDrains(s.pendingQueries, ready);
    PollKeepsPorts(s.pendingQueries, ready, s.agentPort);
    assert Starts([]) == 0 && Stops([]) == 0;
    var drained := s.(pendingQueries := StillRunning(s.pendingQueries, ready));
    assert FlagsAreRight(drained, Requests(Answered(s.pendingQueries, ready)));
    if jvms.Some? {
      JvmsKeepFlags(drained, jvms.value, Requests(Answered(s.pendingQueries, ready)));
    }
  }

  lemma PollKeepsFlags(s: State, jvms: Option<seq<Target>>, ready: nat -> Option<Outcome>)
    requires Consistent(s)
    ensures Consistent(AfterPoll(s, jvms, ready))
  {
    hide StillRunning, Answered, Requests, AfterJvms, FlagsAreRight, AfterAnswers;
    ListedIsRight(s, jvms, ready);
    var answers := Answered(s.pendingQueries, ready);
    assert Requests(answers) + [] == Requests(answers);
    AnswersKeepFlags(Listed(s, jvms, ready), answers, []);
  }

  lemma SpawnStartKeepsFlags(s: State)
    requires Consistent(s) && !s.recording
    ensures Consistent(AfterSpawnStart(s))
  {
    if !s.startPending && s.selectedPid.Some? {
      OneMore(s.pendingQueries, Start(s.selectedPid.value, s.agentPort));
    }
  }

  lemma SpawnStopKeepsFlags(s: State)
    requires Consistent(s) && s.recording
    ensures Consistent(AfterSpawnStop(s))
  {
    OneMore(s.pendingQueries, Stop(s.agentPort));
  }

  lemma InitialStartKeepsFlags(s: State)
    requires Consistent(s)
    ensures Consistent(AfterInitialStart(s))
  {
    hide Starts, Stops, AfterSpawnStart;
    if !s.recording {
      SpawnStartKeepsFlags(s);
    }
  }

  lemma SessionKeepsFlags(s: State)
    requires Consistent(s)
    ensures Consistent(AfterSession(s))
  {
    hide Starts, Stops, AfterInitialStart;
    InitialStartKeepsFlags(AfterDefaultSelection(s).(atStartCenter := false));
  }

  lemma ToggleKeepsFlags(s: State)
    requires Consistent(s)
    ensures Consistent(AfterToggle(s))
  {
    hide Consistent, AfterSession, AfterSpawnStart, AfterSpawnStop;
    SessionKeepsFlags(s);
    if s.recording {
      SpawnStopKeepsFlags(s);
    } else {
      SpawnStartKeepsFlags(s);
    }
  }

  lemma StepKeepsFlags(s: State, e: Event)
    requires Consistent(s)
    ensures Consistent(Step(s, e))
  {
    hide Starts, Stops, AfterPoll, AfterToggle, AfterSession, AfterInitialStart;
    match e
    case Toggle => ToggleKeepsFlags(s);
    case StartSession => SessionKeepsFlags(s);
    case AutoUpdate => InitialStartKeepsFlags(s.(initialStartPending := false));
    case RunGc => OneMore(s.pendingQueries, Other);
    case Poll(jvms, ready) => PollKeepsFlags(s, jvms, ready);
    case _ =>
  }

  /**
   * Whatever keys are pressed and whenever answers arrive: the flags are exactly the requests in flight, a start
   * is only pending while not recording, a stop only while recording, so there is at most one of both, and a
   * stop goes to the port recording runs on.
   */
  lemma {:induction false} RunKeepsFlags(agentPort: nat, events: seq<Event>)
    ensures
      var s := Run(Opened(agentPort), events);
      && Consistent(s)
      && Starts(s.pendingQueries) == One(s.startPending) && Stops(s.pendingQueries) == One(s.stopPending)
      && Starts(s.pendingQueries) + Stops(s.pendingQueries) <= 1
  {
    if events != [] {
      var n := |events| - 1;
      RunKeepsFlags(agentPort, events[..n]);
      StepKeepsFlags(Run(Opened(agentPort), events[..n]), events[n]);
      hide Step;
    }
    assert Starts([]) == 0 && Stops([]) == 0;
  }

  // ---- starts and stops take turns

  function RecordingAfter(recording: bool, answers: seq<Answer>): bool {
    if answers == [] then recording
    else
      var last := answers[|answers| - 1];
      if last.outcome.Failed? || last.request.Other? then RecordingAfter(recording, answers[..|answers| - 1])
      else last.request.Start?
  }

  /** A start succeeds only while not recording, a stop only while recording. */
  predicate TakeTurns(recording: bool, answers: seq<Answer>) {
    answers == [] || (
      var before := answers[..|answers| - 1];
      var last := answers[|answers| - 1];
      && TakeTurns(recording, before)
      && (last.outcome.Succeeded? && last.request.Start? ==> !RecordingAfter(recording, before))
      && (last.outcome.Succeeded? && last.request.Stop? ==> RecordingAfter(recording, before)))
  }

  lemma {:induction false} TurnsConcat(recording: bool, a: seq<Answer>, b: seq<Answer>)
    requires TakeTurns(recording, a) && TakeTurns(RecordingAfter(recording, a), b)
    ensures TakeTurns(recording, a + b)
    ensures RecordingAfter(recording, a + b) == RecordingAfter(RecordingAfter(recording, a), b)
  {
    if b == [] {
      assert a + b == a;
    } else {
      var n := |b| - 1;
      assert (a + b)[..|a + b| - 1] == a + b[..n];
      TurnsConcat(recording, a, b[..n]);
    }
  }

  lemma PendingOfFirst(s: State, a: Answer, rest: seq<Request>)
    requires FlagsAreRight(s, [a.request] + rest)
    ensures a.request.Start? ==> s.startPending && !s.recording
    ensures a.request.Stop? ==> s.stopPending && s.recording
  {
    FirstOf(a.request, rest);
  }

  lemma {:induction false} AnswersTakeTurns(s: State, answers: seq<Answer>, rest: seq<Request>)
    requires FlagsAreRight(s, Requests(answers) + rest)
    ensures TakeTurns(s.recording, answers)
    ensures AfterAnswers(s, answers).recording == RecordingAfter(s.recording, answers)
  {
    hide FlagsAreRight;
    if answers != [] {
      var n := |answers| - 1;
      assert Requests(answers) + rest == Requests(answers[..n]) + ([answers[n].request] + rest);
      AnswersTakeTurns(s, answers[..n], [answers[n].request] + rest);
      AnswersKeepFlags(s, answers[..n], [answers[n].request] + rest);
      PendingOfFirst(AfterAnswers(s, answers[..n]), answers[n], rest);
    }
  }

  lemma PollTakesTurns(s: State, jvms: Option<seq<Target>>, ready: nat -> Option<Outcome>)
    requires Consistent(s)
    ensures TakeTurns(s.recording, Answered(s.pendingQueries, ready))
    ensures AfterPoll(s, jvms, ready).recording == RecordingAfter(s.recording, Answered(s.pendingQueries, ready))
  {
    hide StillRunning, Answered, Requests, AfterJvms, FlagsAreRight, AfterAnswers, RecordingAfter, TakeTurns;
    ListedIsRight(s, jvms, ready);
    var answers := Answered(s.pendingQueries, ready);
    assert Requests(answers) + [] == Requests(answers);
    AnswersTakeTurns(Listed(s, jvms, ready), answers, []);
  }

  lemma OtherEventsKeepRecording(s: State, e: Event)
    requires !e.Poll?
    ensures Step(s, e).recording == s.recording
  {
  }

  /**
   * Over a whole run, successful starts and stops strictly alternate, and the button shows recording exactly
   * when the last success was a start.
   */
  lemma {:induction false} StartsAndStopsAlternate(agentPort: nat, events: seq<Event>)
    ensures TakeTurns(false, Arrived(Opened(agentPort), events))
    ensures Run(Opened(agentPort), events).recording == RecordingAfter(false, Arrived(Opened(agentPort), events))
  {
    hide Step, Answered, Consistent;
    if events != [] {
      var n := |events| - 1;
      var s, last := Run(Opened(agentPort), events[..n]), events[n];
      var before := Arrived(Opened(agentPort), events[..n]);
      StartsAndStopsAlternate(agentPort, events[..n]);
      RunKeepsFlags(agentPort, events[..n]);
      if last.Poll? {
        PollTakesTurns(s, last.jvms, last.ready);
        PollStep(s, last);
        TurnsConcat(false, before, Answered(s.pendingQueries, last.ready));
      } else {
        OtherEventsKeepRecording(s, last);
        assert before + [] == before;
      }
    }
  }

  lemma PollStep(s: State, e: Event)
    requires e.Poll?
    ensures Step(s, e) == AfterPoll(s, e.jvms, e.ready)
  {
  }

  // ---- the code

  class App {
    var recording: bool
    var startPending: bool
    var stopPending: bool
    var initialStartPending: bool
    var atStartCenter: bool
    var selectedPid: Option<nat>
    var jvms: seq<Target>
    var agentPort: nat
    var pendingQueries: seq<Request>

    function Now(): State
      reads this
    {
      State(recording, startPending, stopPending, initialStartPending, atStartCenter, selectedPid, jvms, agentPort,
            pendingQueries)
    }

    constructor (agentPort: nat)
      ensures Now() == Opened(agentPort)
    {
      recording, startPending, stopPending, initialStartPending, atStartCenter := false, false, false, false, true;
      selectedPid, jvms, pendingQueries := None, [], [];
      this.agentPort := agentPort;
    }

    method EnsureDefaultJvmSelected()
      modifies this`selectedPid
      ensures Now() == AfterDefaultSelection(old(Now()))
    {
      if selectedPid.Some? || jvms == [] {
        return;
      }
      for i := 0 to |jvms|
        invariant selectedPid == None && FirstLikelyDemo(jvms[..i]) == None
      {
        assert jvms[..i + 1][..i] == jvms[..i];
        if jvms[i].isLikelyDemo {
          FirstDemoStays(jvms, i + 1);
          selectedPid := Some(jvms[i].pid);
          return;
        }
      }
      assert jvms[..|jvms|] == jvms;
      selectedPid := Some(jvms[0].pid);
    }

    method SpawnStartCpuRecording()
      modifies this`startPending, this`pendingQueries
      ensures Now() == AfterSpawnStart(old(Now()))
    {
      if startPending || selectedPid.None? {
        return;
      }
      startPending := true;
      pendingQueries := pendingQueries + [Start(selectedPid.value, agentPort)];
    }

    method SpawnStopCpuRecording()
      modifies this`stopPending, this`pendingQueries
      ensures Now() == AfterSpawnStop(old(Now()))
    {
      if stopPending {
        return;
      }
      stopPending := true;
      pendingQueries := pendingQueries + [Stop(agentPort)];
    }

    method StartInitialCpuRecording()
      modifies this
      ensures Now() == AfterInitialStart(old(Now()))
    {
      if recording || selectedPid.None? {
        return;
      }
      SpawnStartCpuRecording();
    }

    method StartSelectedJvmSession()
      modifies this
      ensures Now() == AfterSession(old(Now()))
    {
      EnsureDefaultJvmSelected();
      if selectedPid.None? {
        return;
      }
      atStartCenter := false;
      StartInitialCpuRecording();
    }

    method ToggleRecording()
      modifies this
      ensures Now() == AfterToggle(old(Now()))
    {
      if atStartCenter {
        StartSelectedJvmSession();
        return;
      }
      if recording {
        if !stopPending {
          SpawnStopCpuRecording();
        }
      } else if !startPending {
        SpawnStartCpuRecording();
      }
    }

    method AutoUpdate()
      modifies this
      ensures Now() == AfterAutoUpdate(old(Now()))
    {
      if selectedPid.None? && !recording {
        return;
      }
      if initialStartPending && !atStartCenter {
        initialStartPending := false;
        StartInitialCpuRecording();
      }
    }

    method ApplyJvms(targets: seq<Target>)
      modifies this
      ensures Now() == AfterJvms(old(Now()), targets)
    {
      jvms := targets;
      EnsureDefaultJvmSelected();
      if !atStartCenter && selectedPid.Some? && !recording {
        initialStartPending := true;
      }
    }

    method ApplyAnswer(a: Answer)
      modifies this
      ensures Now() == AfterAnswer(old(Now()), a)
    {
      match a.request
      case Other =>
      case Stop(_) =>
        stopPending := false;
        if a.outcome.Succeeded? {
          recording := false;
        }
      case Start(_, _) =>
        startPending := false;
        if a.outcome.Succeeded? {
          agentPort := a.outcome.port;
          recording := true;
        } else {
          recording := false;
        }
    }

    method PollQueries(found: Option<seq<Target>>, ready: nat -> Option<Outcome>)
      modifies this
      ensures Now() == AfterPoll(old(Now()), found, ready)
    {
      hide AfterAnswer, AfterJvms, StillRunning, Answered;
      var stillPending, results := Drained(pendingQueries, ready);
      pendingQueries := stillPending;
      if found.Some? {
        ApplyJvms(found.value);
      }
      ghost var drained := Now();
      for i := 0 to |results|
        invariant Now() == AfterAnswers(drained, results[..i])
      {
        assert results[..i + 1][..i] == results[..i];
        ApplyAnswer(results[i]);
      }
      assert results[..|results|] == results;
    }
  }

  /** The queue split into what is still running and what has come back. */
  method Drained(pending: seq<Request>, ready: nat -> Option<Outcome>)
    returns (stillPending: seq<Request>, results: seq<Answer>)
    ensures stillPending == StillRunning(pending, ready) && results == Answered(pending, ready)
  {
    results, stillPending := [], [];
    for i := 0 to |pending|
      invariant stillPending == StillRunning(pending[..i], ready)
      invariant results == Answered(pending[..i], ready)
    {
      assert pending[..i + 1][..i] == pending[..i];
      match ready(i)
      case Some(outcome) => results := results + [Answer(pending[i], outcome)];
      case None => stillPending := stillPending + [pending[i]];
    }
    assert pending[..|pending|] == pending;
  }

  lemma {:induction false} FirstDemoStays(jvms: seq<Target>, n: nat)
    requires n <= |jvms| && FirstLikelyDemo(jvms[..n]).Some?
    ensures FirstLikelyDemo(jvms) == FirstLikelyDemo(jvms[..n])
  {
    if n < |jvms| {
      var most := jvms[..|jvms| - 1];
      assert most[..n] == jvms[..n];
      FirstDemoStays(most, n);
    } else {
      assert jvms[..n] == jvms;
    }
  }
}
