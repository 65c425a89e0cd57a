/** What each key of the recording button and each tick does: the requests sent, to whom, and what their answers do. */
module RecordingKeys {
  import opened Options
  import opened RecordingUi

  // ---- which process is meant

  /** Listed at k is a likely demo server, and none is listed before it. */
  predicate IsFirstDemo(jvms: seq<Target>, k: nat) {
    k < |jvms| && jvms[k].isLikelyDemo && forall j :: 0 <= j < k ==> !jvms[j].isLikelyDemo
  }

  predicate NoDemo(jvms: seq<Target>) {
    forall j :: 0 <= j < |jvms| ==> !jvms[j].isLikelyDemo
  }

  /** The process selected already, or else the first likely demo server, or else the first that is listed. */
  predicate IsChosen(pid: nat, selected: Option<nat>, jvms: seq<Target>) {
    if selected.Some? then pid == selected.value
    else
      || (exists k :: 0 <= k < |jvms| && IsFirstDemo(jvms, k) && pid == jvms[k].pid)
      || (NoDemo(jvms) && jvms != [] && pid == jvms[0].pid)
  }

  predicate NothingToChoose(s: State) {
    s.selectedPid.None? && s.jvms == []
  }

  lemma {:induction false} FirstDemoByPosition(jvms: seq<Target>)
    ensures FirstLikelyDemo(jvms).None? ==> NoDemo(jvms)
    ensures FirstLikelyDemo(jvms).Some? ==>
      exists k :: 0 <= k < |jvms| && IsFirstDemo(jvms, k) && FirstLikelyDemo(jvms).value == jvms[k].pid
  {
    if jvms != [] {
      var n := |jvms| - 1;
      var before := FirstLikelyDemo(jvms[..n]);
      FirstDemoByPosition(jvms[..n]);
      if before.Some? {
        var k :| 0 <= k < n && IsFirstDemo(jvms[..n], k) && before.value == jvms[..n][k].pid;
        assert IsFirstDemo(jvms, k);
      } else {
        assert forall j :: 0 <= j < n ==> jvms[..n][j] == jvms[j];
        assert jvms[n].isLikelyDemo ==> IsFirstDemo(jvms, n);
      }
    }
  }

  lemma DefaultIsChosen(s: State)
    requires !NothingToChoose(s)
    ensures
      var r := AfterDefaultSelection(s);
      && r.selectedPid.Some? && IsChosen(r.selectedPid.value, s.selectedPid, s.jvms)
      && r == s.(selectedPid := r.selectedPid)
  {
    hide FirstLikelyDemo, IsFirstDemo, NoDemo;
    FirstDemoByPosition(s.jvms);
  }

  // ---- the requests in flight

  predicate StartInFlight(s: State) {
    exists k :: 0 <= k < |s.pendingQueries| && s.pendingQueries[k].Start?
  }

  predicate StopInFlight(s: State) {
    exists k :: 0 <= k < |s.pendingQueries| && s.pendingQueries[k].Stop?
  }

  lemma {:induction false} CountedInFlight(requests: seq<Request>)
    ensures Starts(requests) > 0 <==> exists k :: 0 <= k < |requests| && requests[k].Start?
    ensures Stops(requests) > 0 <==> exists k :: 0 <= k < |requests| && requests[k].Stop?
  {
    if requests != [] {
      var n := |requests| - 1;
      CountedInFlight(requests[..n]);
      assert forall k :: 0 <= k < n ==> requests[..n][k] == requests[k];
    }
  }

  /** In every run the two flags say what is in flight, and at most one of both is. */
  lemma FlagsSayWhatIsInFlight(agentPort: nat, events: seq<Event>)
    ensures
      var s := Run(Opened(agentPort), events);
      && (s.startPending <==> StartInFlight(s)) && (s.stopPending <==> StopInFlight(s))
      && (StartInFlight(s) ==> !s.recording) && (StopInFlight(s) ==> s.recording)
  {
    hide Run, Starts, Stops, StopsGoTo;
    RunKeepsFlags(agentPort, events);
    CountedInFlight(Run(Opened(agentPort), events).pendingQueries);
  }

  /** This state with a start sent to the process, unless recording runs or is being started. */
  ghost predicate StartsOnce(r: State, s: State, pid: nat) {
    if s.recording || StartInFlight(s) then r == s
    else r == s.(startPending := true, pendingQueries := s.pendingQueries + [Start(pid, s.agentPort)])
  }

  // ---- the recording key

  /**
   * Away from the start centre the key sends exactly one request when none of its kind is in flight: while recording a
   * stop to the agent's port, otherwise a start of the selected process. It changes nothing else, and without a
   * selected process it changes nothing.
   */
  lemma ToggleSendsOneRequest(agentPort: nat, events: seq<Event>)
    ensures
      var s := Run(Opened(agentPort), events);
      var r := Step(s, Toggle);
      && (!s.atStartCenter && s.recording && !StopInFlight(s) ==>
           r == s.(stopPending := true, pendingQueries := s.pendingQueries + [Stop(s.agentPort)]))
      && (!s.atStartCenter && s.recording && StopInFlight(s) ==> r == s)
      && (!s.atStartCenter && !s.recording && s.selectedPid.Some? ==> StartsOnce(r, s, s.selectedPid.value))
      && (!s.atStartCenter && !s.recording && s.selectedPid.None? ==> r == s)
  {
    hide Run, StartInFlight, StopInFlight, AfterSession;
    FlagsSayWhatIsInFlight(agentPort, events);
  }

  /**
   * At the start centre the key opens a session, like the session key anywhere: with nothing selected or listed it
   * changes nothing. Otherwise it selects the process meant, leaves the start centre and sends that process one start,
   * unless recording runs or is being started.
   */
  lemma SessionStartsTheChosen(agentPort: nat, events: seq<Event>, key: Event)
    requires key.StartSession? || (key.Toggle? && Run(Opened(agentPort), events).atStartCenter)
    ensures
      var s := Run(Opened(agentPort), events);
      var r := Step(s, key);
      && (NothingToChoose(s) ==> r == s)
      && (!NothingToChoose(s) ==>
        && r.selectedPid.Some? && IsChosen(r.selectedPid.value, s.selectedPid, s.jvms)
        && StartsOnce(r, s.(selectedPid := r.selectedPid, atStartCenter := false), r.selectedPid.value))
  {
    hide Run, AfterDefaultSelection, IsChosen;
    var s := Run(Opened(agentPort), events);
    FlagsSayWhatIsInFlight(agentPort, events);
    if NothingToChoose(s) {
      NothingIsSelected(s);
    } else {
      DefaultIsChosen(s);
    }
  }

  lemma NothingIsSelected(s: State)
    requires NothingToChoose(s)
    ensures AfterDefaultSelection(s) == s
  {
  }

  /**
   * A start asked for when processes were listed is sent by the first tick outside the start centre, and by that tick
   * alone: a second tick changes nothing.
   */
  lemma InitialStartIsSentOnce(agentPort: nat, events: seq<Event>)
    ensures
      var s := Run(Opened(agentPort), events);
      var r := Step(s, AutoUpdate);
      var asked := s.initialStartPending && !s.atStartCenter;
      && (asked && s.selectedPid.Some? ==> StartsOnce(r, s.(initialStartPending := false), s.selectedPid.value))
      && (asked && s.selectedPid.None? && s.recording ==> r == s.(initialStartPending := false))
      && (!asked || (s.selectedPid.None? && !s.recording) ==> r == s)
      && Step(r, AutoUpdate) == r
  {
    hide Run;
    FlagsSayWhatIsInFlight(agentPort, events);
  }

  // ---- the answers

  lemma {:induction false} NothingInFlight(requests: seq<Request>, ready: nat -> Option<Outcome>, s: State)
    requires forall k :: 0 <= k < |requests| ==> requests[k].Other?
    ensures AfterAnswers(s, Answered(requests, ready)) == s
  {
    if requests == [] {
      assert Answered(requests, ready) == [];
    } else {
      var n := |requests| - 1;
      NothingInFlight(requests[..n], ready, s);
      OneMoreAnswer(requests, ready, s);
    }
  }

  lemma OneMoreAnswer(requests: seq<Request>, ready: nat -> Option<Outcome>, s: State)
    requires requests != []
    ensures
      var n := |requests| - 1;
      var before := AfterAnswers(s, Answered(requests[..n], ready));
      AfterAnswers(s, Answered(requests, ready)) ==
      if ready(n).None? then before else AfterAnswer(before, Answer(requests[n], ready(n).value))
  {
    hide AfterAnswer;
    var n := |requests| - 1;
    var before := Answered(requests[..n], ready);
    if ready(n).None? {
      assert before + [] == before;
    } else {
      assert (before + [Answer(requests[n], ready(n).value)])[..|before|] == before;
    }
  }

  predicate OnlyThis(requests: seq<Request>, k: nat) {
    k < |requests| && forall j :: 0 <= j < |requests| && j != k ==> requests[j].Other?
  }

  /** The answers are the one answer that matters, if it has arrived. */
  lemma {:induction false} OneInFlight(requests: seq<Request>, k: nat, ready: nat -> Option<Outcome>, s: State)
    requires OnlyThis(requests, k)
    ensures
      AfterAnswers(s, Answered(requests, ready)) ==
      if ready(k).None? then s else AfterAnswer(s, Answer(requests[k], ready(k).value))
  {
    hide AfterAnswers, Answered;
    var n := |requests| - 1;
    OneMoreAnswer(requests, ready, s);
    if k == n {
      NothingInFlight(requests[..n], ready, s);
    } else {
      assert OnlyThis(requests[..n], k);
      OneInFlight(requests[..n], k, ready, s);
    }
  }

  lemma {:induction false} NoneElse(requests: seq<Request>, k: nat)
    requires k < |requests| && !requests[k].Other? && Starts(requests) + Stops(requests) <= 1
    ensures OnlyThis(requests, k)
  {
    var n := |requests| - 1;
    CountedInFlight(requests[..n]);
    assert forall j :: 0 <= j < n ==> requests[..n][j] == requests[j];
    if k < n {
      assert requests[..n][k] == requests[k];
      NoneElse(requests[..n], k);
    }
  }

  /** What the answers of a poll leave alone. */
  predicate SameChoice(r: State, s: State) {
    && r.selectedPid == s.selectedPid && r.jvms == s.jvms && r.atStartCenter == s.atStartCenter
    && r.initialStartPending == s.initialStartPending && r.pendingQueries == s.pendingQueries
  }

  lemma AnswerKeepsChoice(s: State, a: Answer)
    ensures SameChoice(AfterAnswer(s, a), s)
  {
  }

  lemma {:induction false} AnswersKeepChoice(s: State, answers: seq<Answer>)
    ensures SameChoice(AfterAnswers(s, answers), s)
  {
    hide AfterAnswer;
    if answers != [] {
      var n := |answers| - 1;
      AnswersKeepChoice(s, answers[..n]);
      AnswerKeepsChoice(AfterAnswers(s, answers[..n]), answers[n]);
    }
  }

  /** What a list of processes leaves alone. */
  lemma ListingKeepsRecording(s: State, jvms: Option<seq<Target>>, ready: nat -> Option<Outcome>)
    ensures
      var r := Listed(s, jvms, ready);
      && r.recording == s.recording && r.agentPort == s.agentPort
      && r.startPending == s.startPending && r.stopPending == s.stopPending
  {
    hide FirstLikelyDemo, StillRunning;
  }

  /**
   * The poll that finds the answer to the request in flight: a start that succeeded makes the button show recording,
   * on the port it reports, and a failed one leaves recording off. A stop that succeeded ends recording, and after a
   * failed one recording goes on. The flag is cleared each time, and without the answer nothing of this changes.
   */
  lemma AnswerDecides(
      agentPort: nat, events: seq<Event>, k: nat, jvms: Option<seq<Target>>, ready: nat -> Option<Outcome>)
    requires
      var pending := Run(Opened(agentPort), events).pendingQueries;
      k < |pending| && !pending[k].Other?
    ensures
      var s := Run(Opened(agentPort), events);
      var r := Step(s, Poll(jvms, ready));
      var wasStart := s.pendingQueries[k].Start?;
      var came := ready(k);
      && (came.None? ==> r.recording == s.recording && r.agentPort == s.agentPort && r.startPending == wasStart
                         && r.stopPending == !wasStart)
      && (came.Some? ==> !r.startPending && !r.stopPending)
      && (came == Some(Failed) ==> r.recording == !wasStart && r.agentPort == s.agentPort)
      && (came.Some? && came.value.Succeeded? ==>
           r.recording == wasStart && r.agentPort == if wasStart then came.value.port else s.agentPort)
  {
    hide Run, AfterAnswers, Answered, StillRunning, Starts, Stops, Listed, StartInFlight, StopInFlight;
    var s := Run(Opened(agentPort), events);
    RunKeepsFlags(agentPort, events);
    NoneElse(s.pendingQueries, k);
    FlagsAt(agentPort, events, k);
    ListingKeepsRecording(s, jvms, ready);
    OneInFlight(s.pendingQueries, k, ready, Listed(s, jvms, ready));
    PollIsListing(s, jvms, ready);
  }

  lemma FlagsAt(agentPort: nat, events: seq<Event>, k: nat)
    requires
      var pending := Run(Opened(agentPort), events).pendingQueries;
      k < |pending| && !pending[k].Other?
    ensures
      var s := Run(Opened(agentPort), events);
      var isStart := s.pendingQueries[k].Start?;
      s.startPending == isStart && s.stopPending == !isStart && s.recording == !isStart
  {
    hide Run;
    FlagsSayWhatIsInFlight(agentPort, events);
    var s := Run(Opened(agentPort), events);
    assert if s.pendingQueries[k].Start? then StartInFlight(s) else StopInFlight(s);
  }

  lemma PollIsListing(s: State, jvms: Option<seq<Target>>, ready: nat -> Option<Outcome>)
    ensures
      Step(s, Poll(jvms, ready)) == AfterAnswers(Listed(s, jvms, ready), Answered(s.pendingQueries, ready))
  {
  }

  lemma RunFurther(s: State, events: seq<Event>, e: Event)
    ensures Run(s, events + [e]) == Step(Run(s, events), e)
  {
    hide Step;
    assert (events + [e])[..|events|] == events;
  }

  /**
   * The recording key and a poll that brings its request back as a success turn recording on when it was off, on the
   * port the agent reports, and off when it was on; either way nothing is in flight for the button any more.
   */
  lemma KeyFlipsRecording(
      agentPort: nat, events: seq<Event>, jvms: Option<seq<Target>>, ready: nat -> Option<Outcome>)
    requires
      var s := Run(Opened(agentPort), events);
      && !s.atStartCenter && !StartInFlight(s) && !StopInFlight(s) && (s.recording || s.selectedPid.Some?)
      && ready(|s.pendingQueries|).Some? && ready(|s.pendingQueries|).value.Succeeded?
    ensures
      var s := Run(Opened(agentPort), events);
      var r := Run(Opened(agentPort), events + [Toggle, Poll(jvms, ready)]);
      && r.recording == !s.recording
      && (r.recording ==> r.agentPort == ready(|s.pendingQueries|).value.port)
      && (!r.recording ==> r.agentPort == s.agentPort)
      && !StartInFlight(r) && !StopInFlight(r)
  {
    hide Run, Step, StartInFlight, StopInFlight;
    var s, open := Run(Opened(agentPort), events), Opened(agentPort);
    var pressed, polled := events + [Toggle], events + [Toggle, Poll(jvms, ready)];
    RunFurther(open, events, Toggle);
    RunFurther(open, pressed, Poll(jvms, ready));
    assert polled == pressed + [Poll(jvms, ready)];
    ToggleSendsOneRequest(agentPort, events);
    AnswerDecides(agentPort, pressed, |s.pendingQueries|, jvms, ready);
    FlagsSayWhatIsInFlight(agentPort, polled);
  }

  // ---- a list of processes

  /**
   * A poll that brings a list keeps it, selects the process meant, and asks for a start exactly when there is one to
   * start outside the start centre and recording is off. A poll without a list does none of this.
   */
  lemma ListingSelects(s: State, jvms: seq<Target>, ready: nat -> Option<Outcome>)
    ensures
      var r := Step(s, Poll(Some(jvms), ready));
      && r.jvms == jvms && r.atStartCenter == s.atStartCenter
      && (r.selectedPid.None? <==> s.selectedPid.None? && jvms == [])
      && (r.selectedPid.Some? ==> IsChosen(r.selectedPid.value, s.selectedPid, jvms))
      && (r.initialStartPending <==>
        s.initialStartPending || (!s.atStartCenter && r.selectedPid.Some? && !s.recording))
    ensures
      var r := Step(s, Poll(None, ready));
      && r.jvms == s.jvms && r.atStartCenter == s.atStartCenter && r.selectedPid == s.selectedPid
      && r.initialStartPending == s.initialStartPending
  {
    hide AfterAnswers, Answered, StillRunning, AfterDefaultSelection, IsChosen;
    PollIsListing(s, Some(jvms), ready);
    PollIsListing(s, None, ready);
    AnswersKeepChoice(Listed(s, Some(jvms), ready), Answered(s.pendingQueries, ready));
    AnswersKeepChoice(Listed(s, None, ready), Answered(s.pendingQueries, ready));
    var drained := s.(pendingQueries := StillRunning(s.pendingQueries, ready), jvms := jvms);
    if NothingToChoose(drained) {
      NothingIsSelected(drained);
    } else {
      DefaultIsChosen(drained);
    }
  }
}
