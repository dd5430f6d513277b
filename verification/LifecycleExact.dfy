/**
The environment condition of the lifecycle results is the weakest there is: every action it
excludes can be followed by harmless ones to a state that names the wrong object.
*/
module LifecycleExact {
  import opened Prelude
  import opened LifecycleMachine
  import opened LifecycleRefinement

  ghost predicate BreaksIn(s: System, run: seq<Action>) {
    IsRun(s, run) && IsHarmlessRun(s, run) && !Claim(After(s, run))
  }

  // Some run of harmless actions leads to a state in which the claim is false.
  ghost predicate CanBreak(s: System) {
    exists run :: BreaksIn(s, run)
  }

  lemma Broken(s: System)
    requires !Claim(s)
    ensures CanBreak(s)
  {
    assert BreaksIn(s, []);
  }

  lemma BreaksNext(s: System, a: Action)
    requires Enabled(s, a) && Harmless(s, a) && CanBreak(Apply(s, a))
    ensures CanBreak(s)
  {
    var rest :| BreaksIn(Apply(s, a), rest);
    assert ([a] + rest)[1..] == rest;
    assert BreaksIn(s, [a] + rest);
  }

  // ----- after an open that took effect unnoticed -----

  // A replacement is to be asked for again, but something else than the old object is served.
  predicate FallsBackWrongly(s: System) {
    s.machine.state.StartingOpen? && s.call.NoCall? && s.mod.serving.Some? && s.mod.serving != s.machine.state.previous
  }

  lemma FallingBackBreaks(s: System)
    requires FallsBackWrongly(s)
    ensures CanBreak(s)
  {
    var asked := Apply(s, AskOpen(s.machine.state.config));
    var rejected := Apply(asked, RejectOpen);
    Broken(Apply(rejected, RecordReply));
    BreaksNext(rejected, RecordReply);
    BreaksNext(asked, RejectOpen);
    BreaksNext(s, AskOpen(s.machine.state.config));
  }

  lemma LostOpenBreaks(s: System)
    requires Agreement(s) && s.call.OpenAnswer? && s.call.openReply.Ok?
    requires !OutcomeOf(s.mod, s.call.openReply.value.transitionId).Rejected?
    ensures CanBreak(Apply(s, LoseReply))
  {
    var lost, id := Apply(s, LoseReply), s.call.openReply.value.transitionId;
    if OutcomeOf(s.mod, id).Running? {
      FallingBackBreaks(Apply(lost, Finish(id)));
      BreaksNext(lost, Finish(id));
    } else {
      FallingBackBreaks(lost);
    }
  }

  // ----- after a close that is still under way unnoticed -----

  predicate CloseIsStray(s: System, id: string) {
    id in s.mod.records && s.mod.records[id] == Transition(StopServing, Running) && id in s.mod.issued
  }

  lemma StrayCloseBreaksOpen(s: System, id: string)
    requires CloseIsStray(s, id) && s.machine.state.Open?
    ensures CanBreak(s)
  {
    Broken(Apply(s, Finish(id)));
    BreaksNext(s, Finish(id));
  }

  lemma StrayCloseBreaksOpening(s: System, id: string)
    requires CloseIsStray(s, id) && s.machine.state.Opening? && s.call.NoCall?
    requires OutcomeOf(s.mod, s.machine.state.receipt.transitionId).Finished?
    ensures CanBreak(s)
  {
    var ask := AskOpen(s.machine.state.config);
    var asked := Apply(s, ask);
    var answered := Apply(asked, AnswerPoll(Complete));
    StrayCloseBreaksOpen(Apply(answered, RecordReply), id);
    BreaksNext(answered, RecordReply);
    BreaksNext(asked, AnswerPoll(Complete));
    BreaksNext(s, ask);
  }

  lemma StrayCloseBreaksClosed(s: System, id: string)
    requires CloseIsStray(s, id) && s.machine.state.Closed? && s.call.NoCall?
    ensures CanBreak(s)
  {
    var unused := UnusedId(s.mod.issued);
    var ask := AskOpen(Config(""));
    var accept := AcceptOpen(Receipt("", unused));
    var asked := Apply(s, ask);
    var accepted := Apply(asked, accept);
    var recorded := Apply(accepted, RecordReply);
    StrayCloseBreaksOpening(Apply(recorded, Finish(unused)), id);
    BreaksNext(recorded, Finish(unused));
    BreaksNext(accepted, RecordReply);
    BreaksNext(asked, accept);
    BreaksNext(s, ask);
  }

  lemma LostCloseBreaks(s: System)
    requires Agreement(s) && s.call.CloseAnswer? && s.call.closeReply.Ok? && s.call.closeReply.value.Some?
    requires OutcomeOf(s.mod, s.call.closeReply.value.value).Running?
    ensures CanBreak(Apply(s, LoseReply))
  {
    var lost, id := Apply(s, LoseReply), s.call.closeReply.value.value;
    var asked := Apply(lost, AskClose);
    var ended := Apply(asked, CloseAtOnce);
    StrayCloseBreaksClosed(Apply(ended, RecordReply), id);
    BreaksNext(ended, RecordReply);
    BreaksNext(asked, CloseAtOnce);
    BreaksNext(lost, AskClose);
  }

  // Longer than every id handed out.
  lemma {:induction false} UnusedId(issued: set<string>) returns (id: string)
    ensures id !in issued
    ensures forall other :: other in issued ==> |other| < |id|
  {
    if issued == {} {
      id := "0";
    } else {
      var one :| one in issued;
      id := UnusedId(issued - {one});
      if |id| <= |one| {
        id := one + "0";
      }
    }
  }

  // ----- after the record of a replacement is retired unobserved -----

  predicate RetiredUnobserved(s: System) {
    && s.machine.state.Opening? && s.machine.state.receipt.transitionId !in s.mod.records
    && s.mod.serving.Some? && s.mod.serving != s.machine.state.previous
  }

  lemma PollingUnknownBreaks(s: System)
    requires RetiredUnobserved(s) && s.call.NoCall?
    ensures CanBreak(s)
    decreases s.machine.retriedTerminal
  {
    var ask := AskOpen(s.machine.state.config);
    var asked := Apply(s, ask);
    var answered := Apply(asked, AnswerPoll(Unknown));
    if s.machine.retriedTerminal {
      PollingUnknownBreaks(Apply(answered, RecordReply));
    } else {
      FallingBackBreaks(Apply(answered, RecordReply));
    }
    BreaksNext(answered, RecordReply);
    BreaksNext(asked, AnswerPoll(Unknown));
    BreaksNext(s, ask);
  }

  lemma RetiredWhileOpeningBreaks(s: System)
    requires RetiredUnobserved(s)
    requires s.call.NoCall? || s.call.OpenStatus? || s.call == Asked(PollOpen(s.machine.state.receipt.transitionId))
    ensures CanBreak(s)
  {
    match s.call {
      case NoCall => PollingUnknownBreaks(s);
      case Asked(_) =>
        var answered := Apply(s, AnswerPoll(Unknown));
        PollingUnknownBreaks(Apply(answered, LoseReply));
        BreaksNext(answered, LoseReply);
        BreaksNext(s, AnswerPoll(Unknown));
      case OpenStatus(_) =>
        PollingUnknownBreaks(Apply(s, LoseReply));
        BreaksNext(s, LoseReply);
    }
  }

  lemma RetiredReplacementBreaks(s: System, id: string)
    requires Agreement(s) && Enabled(s, RetireRecord(id)) && !Harmless(s, RetireRecord(id))
    ensures CanBreak(Apply(s, RetireRecord(id)))
  {
    var retired := Apply(s, RetireRecord(id));
    if s.machine.state.StartingOpen? {
      FallingBackBreaks(Apply(retired, LoseReply));
      BreaksNext(retired, LoseReply);
    } else {
      RetiredWhileOpeningBreaks(retired);
    }
  }

  /**
  In every state that harmless actions lead to, an action is harmless exactly when nothing
  that may follow it breaks the claim: `Open` names what is served, and `Closed` means
  nothing is.
  */
  lemma HarmlessExactly(run: seq<Action>, a: Action)
    requires IsRun(START, run) && IsHarmlessRun(START, run) && Enabled(After(START, run), a)
    ensures Harmless(After(START, run), a) <==> !CanBreak(Apply(After(START, run), a))
  {
    var s := After(START, run);
    RunKeepsAgreement(START, run);
    if Harmless(s, a) {
      StepKeepsAgreement(s, a);
      forall rest
        ensures !BreaksIn(Apply(s, a), rest)
      {
        if IsHarmlessRun(Apply(s, a), rest) { RunKeepsAgreement(Apply(s, a), rest); }
      }
    } else if a.RetireRecord? {
      RetiredReplacementBreaks(s, a.id);
    } else if s.call.OpenAnswer? {
      LostOpenBreaks(s);
    } else {
      LostCloseBreaks(s);
    }
  }
}
