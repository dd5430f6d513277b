/**
The machine against a module that is really serving something. Callers ask for
opens and closes in any order and with any configurations; the module accepts or
rejects each call, and finishes or fails each accepted transition, at any time.
One call is in flight at a time, because the host serializes a directory's calls.
*/
module LifecycleRefinement {
  import opened Prelude
  import opened LifecycleMachine

  datatype Effect = Serve(obj: OpenObject) | StopServing

  datatype Outcome = Running | Finished | Rejected

  datatype Transition = Transition(effect: Effect, outcome: Outcome)

  // What is really being served, the transition records the module still keeps,
  // and every transition id it has handed out.
  datatype Module = Module(
    serving: Option<OpenObject>,
    records: map<string, Transition>,
    issued: set<string>)

  datatype Call =
    | NoCall
    | Asked(step: Step)
    | OpenAnswer(openReply: Result<Receipt, ()>)
    | CloseAnswer(closeReply: Result<Option<string>, ()>)
    | OpenStatus(status: TransitionStatus)
    | CloseStatus(status: TransitionStatus)

  datatype System = System(machine: Machine, mod: Module, call: Call)

  const START := System(INITIAL, Module(None, map[], {}), NoCall)

  datatype Action =
    | AskOpen(requested: Config)
    | AskClose
    | AcceptOpen(receipt: Receipt)
    | RejectOpen
    | AcceptClose(id: string)
    | CloseAtOnce
    | RejectClose
    | AnswerPoll(status: TransitionStatus)
    | RecordReply
    | LoseReply
    | Finish(id: string)
    | Fail(id: string)
    | RetireRecord(id: string)

  function EffectOn(effect: Effect): Option<OpenObject> {
    match effect
    case Serve(obj) => Some(obj)
    case StopServing => None
  }

  // A record that was retired reads as one that took no effect.
  function OutcomeOf(mod: Module, id: string): Outcome {
    if id in mod.records then mod.records[id].outcome else Rejected
  }

  predicate TruthfulStatus(mod: Module, id: string, status: TransitionStatus) {
    match status
    case Pending => OutcomeOf(mod, id).Running?
    case Complete => OutcomeOf(mod, id).Finished?
    case Failed => id in mod.records && OutcomeOf(mod, id).Rejected?
    case Unknown => id !in mod.records
    case Undefined => true
  }

  predicate Enabled(s: System, a: Action) {
    match a
    case AskOpen(_) => s.call.NoCall?
    case AskClose => s.call.NoCall?
    case AcceptOpen(receipt) =>
      s.call.Asked? && s.call.step.CallOpen? && receipt.transitionId !in s.mod.issued
    case RejectOpen => s.call.Asked? && s.call.step.CallOpen?
    case AcceptClose(id) => s.call.Asked? && s.call.step.CallClose? && id !in s.mod.issued
    case CloseAtOnce => s.call.Asked? && s.call.step.CallClose?
    case RejectClose => s.call.Asked? && s.call.step.CallClose?
    case AnswerPoll(status) =>
      s.call.Asked? && (s.call.step.PollOpen? || s.call.step.PollClose?)
      && TruthfulStatus(s.mod, s.call.step.id, status)
    case RecordReply => !s.call.NoCall? && !s.call.Asked?
    case LoseReply => !s.call.NoCall? && !s.call.Asked?
    case Finish(id) => id in s.mod.records && s.mod.records[id].outcome.Running?
    case Fail(id) => id in s.mod.records && s.mod.records[id].outcome.Running?
    case RetireRecord(id) => id in s.mod.records && !s.mod.records[id].outcome.Running?
  }

  // The calls a step asks for; `Ready` and `AllClosed` ask for none.
  function CallFor(step: Step): Call {
    if step.Ready? || step.AllClosed? then NoCall else Asked(step)
  }

  function WithRecord(mod: Module, id: string, t: Transition): Module {
    mod.(records := mod.records[id := t], issued := mod.issued + {id})
  }

  function Recorded(m: Machine, call: Call): Machine {
    match call
    case OpenAnswer(reply) => AfterOpenReply(m, reply)
    case CloseAnswer(reply) => AfterCloseReply(m, reply)
    case OpenStatus(status) => AfterOpenPoll(m, status).0
    case CloseStatus(status) => AfterClosePoll(m, status).0
    case _ => m
  }

  function Apply(s: System, a: Action): System
    requires Enabled(s, a)
  {
    match a
    case AskOpen(requested) =>
      var (m, step) := NextOpen(s.machine, requested);
      s.(machine := m, call := CallFor(step))
    case AskClose =>
      var (m, step) := NextClose(s.machine);
      s.(machine := m, call := CallFor(step))
    case AcceptOpen(receipt) =>
      var obj := OpenObject(s.call.step.config, receipt.objectPath);
      s.(mod := WithRecord(s.mod, receipt.transitionId, Transition(Serve(obj), Running)),
         call := OpenAnswer(Ok(receipt)))
    case RejectOpen => s.(call := OpenAnswer(Err(())))
    case AcceptClose(id) =>
      s.(mod := WithRecord(s.mod, id, Transition(StopServing, Running)),
         call := CloseAnswer(Ok(Some(id))))
    case CloseAtOnce => s.(mod := s.mod.(serving := None), call := CloseAnswer(Ok(None)))
    case RejectClose => s.(call := CloseAnswer(Err(())))
    case AnswerPoll(status) =>
      s.(call := if s.call.step.PollOpen? then OpenStatus(status) else CloseStatus(status))
    case RecordReply => s.(machine := Recorded(s.machine, s.call), call := NoCall)
    case LoseReply => s.(call := NoCall)
    case Finish(id) =>
      var t := s.mod.records[id];
      s.(mod := s.mod.(serving := EffectOn(t.effect),
                       records := s.mod.records[id := t.(outcome := Finished)]))
    case Fail(id) =>
      s.(mod := s.mod.(records := s.mod.records[id := s.mod.records[id].(outcome := Rejected)]))
    case RetireRecord(id) => s.(mod := s.mod.(records := s.mod.records - {id}))
  }

  /**
  What the environment may do without ever breaking the agreement. It may lose the
  acceptance of an open only if that open took no effect, the acceptance of a close only
  if that close is no longer under way, and retire the record of a replacement that took
  effect only once it was observed. Anything else it may do.
  */
  predicate Harmless(s: System, a: Action)
    requires Enabled(s, a)
  {
    match a
    case LoseReply =>
      && (s.call.OpenAnswer? && s.call.openReply.Ok? ==>
            OutcomeOf(s.mod, s.call.openReply.value.transitionId).Rejected?)
      && (s.call.CloseAnswer? && s.call.closeReply.Ok? && s.call.closeReply.value.Some? ==>
            !OutcomeOf(s.mod, s.call.closeReply.value.value).Running?)
    case RetireRecord(id) =>
      !(s.mod.records[id].outcome.Finished? && s.mod.records[id].effect.Serve?
        && Awaited(s).Some? && Awaited(s).value.0 == id)
    case _ => true
  }

  ghost predicate IsRun(s: System, run: seq<Action>)
    decreases |run|
  {
    run == [] || (Enabled(s, run[0]) && IsRun(Apply(s, run[0]), run[1..]))
  }

  ghost predicate IsHarmlessRun(s: System, run: seq<Action>)
    decreases |run|
  {
    run == [] ||
    (Enabled(s, run[0]) && Harmless(s, run[0]) && IsHarmlessRun(Apply(s, run[0]), run[1..]))
  }

  ghost function After(s: System, run: seq<Action>): System
    requires IsRun(s, run)
    decreases |run|
  {
    if run == [] then s else After(Apply(s, run[0]), run[1..])
  }

  lemma {:induction false} HarmlessRunIsRun(s: System, run: seq<Action>)
    requires IsHarmlessRun(s, run)
    ensures IsRun(s, run)
    decreases |run|
  {
    if run != [] {
      HarmlessRunIsRun(Apply(s, run[0]), run[1..]);
    }
  }

  // The last object an open or a close settled on.
  function Settled(state: State): Option<OpenObject> {
    match state
    case Closed => None
    case StartingOpen(_, previous) => previous
    case Opening(_, previous, _) => previous
    case Open(obj) => Some(obj)
    case StartingClose(obj) => Some(obj)
    case Closing(obj, _) => Some(obj)
  }

  // The transition the machine, or the reply about to be recorded, is waiting for.
  function Awaited(s: System): Option<(string, Effect)> {
    match s.machine.state
    case StartingOpen(config, _) =>
      if s.call.OpenAnswer? && s.call.openReply.Ok?
      then Some((s.call.openReply.value.transitionId,
                 Serve(OpenObject(config, s.call.openReply.value.objectPath))))
      else None
    case Opening(config, _, receipt) =>
      Some((receipt.transitionId, Serve(OpenObject(config, receipt.objectPath))))
    case StartingClose(_) =>
      if s.call.CloseAnswer? && s.call.closeReply.Ok? && s.call.closeReply.value.Some?
      then Some((s.call.closeReply.value.value, StopServing))
      else None
    case Closing(_, id) => Some((id, StopServing))
    case _ => None
  }

  // What the module may be serving: the settled object until the awaited transition
  // finishes, and its effect from then on. A close, once asked for, may already have
  // ended without the machine having learned so.
  ghost predicate ServesAsExpected(s: System) {
    var awaited := Awaited(s);
    if awaited.Some? && OutcomeOf(s.mod, awaited.value.0).Finished? then
      s.mod.serving == EffectOn(awaited.value.1)
    else
      || (s.mod.serving == Settled(s.machine.state) && s.call != CloseAnswer(Ok(None)))
      || (s.mod.serving == None && (s.machine.state.StartingClose? || s.machine.state.Closing?))
  }

  // The call in flight is the one this state asks for.
  ghost predicate CallFits(s: System) {
    match s.call
    case NoCall => true
    case Asked(CallOpen(config)) => s.machine.state.StartingOpen? && s.machine.state.config == config
    case Asked(CallClose) => s.machine.state.StartingClose?
    case Asked(PollOpen(id)) => s.machine.state.Opening? && s.machine.state.receipt.transitionId == id
    case Asked(PollClose(id)) => s.machine.state.Closing? && s.machine.state.transitionId == id
    case Asked(_) => false
    case OpenAnswer(_) => s.machine.state.StartingOpen?
    case CloseAnswer(_) => s.machine.state.StartingClose?
    case OpenStatus(status) =>
      s.machine.state.Opening? && StatusFits(s.mod, s.machine.state.receipt.transitionId, status)
    case CloseStatus(status) =>
      s.machine.state.Closing?
      && (if status.Complete?
          then s.mod.serving == None && !OutcomeOf(s.mod, s.machine.state.transitionId).Running?
          else StatusFits(s.mod, s.machine.state.transitionId, status))
  }

  // A terminal status, once answered, stays true; `Pending` may have gone stale.
  ghost predicate StatusFits(mod: Module, id: string, status: TransitionStatus) {
    match status
    case Complete => OutcomeOf(mod, id).Finished?
    case Failed => OutcomeOf(mod, id).Rejected?
    case Unknown => OutcomeOf(mod, id).Rejected?
    case _ => true
  }

  // An object is replaced only by one of another configuration.
  predicate ReplacesAnother(state: State) {
    (state.StartingOpen? || state.Opening?) && state.previous.Some? ==> state.previous.value.config != state.config
  }

  ghost predicate Agreement(s: System) {
    && ServesAsExpected(s)
    && ReplacesAnother(s.machine.state)
    && CallFits(s)
    && s.mod.records.Keys <= s.mod.issued
    && (forall id :: id in s.mod.records && s.mod.records[id].outcome.Running?
                     ==> Awaited(s).Some? && Awaited(s).value.0 == id)
    && (Awaited(s).Some? ==>
          var (id, effect) := Awaited(s).value;
          id in s.mod.issued && (id in s.mod.records ==> s.mod.records[id].effect == effect))
  }

  lemma AskingKeepsAgreement(s: System, a: Action)
    requires Agreement(s) && Enabled(s, a) && (a.AskOpen? || a.AskClose?)
    ensures Agreement(Apply(s, a))
  {
  }

  lemma AnsweringKeepsAgreement(s: System, a: Action)
    requires Agreement(s) && Enabled(s, a)
    requires a.AcceptOpen? || a.RejectOpen? || a.AcceptClose? || a.CloseAtOnce? || a.RejectClose?
             || a.AnswerPoll?
    ensures Agreement(Apply(s, a))
  {
  }

  lemma RecordingKeepsAgreement(s: System, a: Action)
    requires Agreement(s) && Enabled(s, a) && Harmless(s, a) && (a.RecordReply? || a.LoseReply?)
    ensures Agreement(Apply(s, a))
  {
  }

  lemma ModuleProgressKeepsAgreement(s: System, a: Action)
    requires Agreement(s) && Enabled(s, a) && Harmless(s, a)
    requires a.Finish? || a.Fail? || a.RetireRecord?
    ensures Agreement(Apply(s, a))
  {
  }

  lemma StepKeepsAgreement(s: System, a: Action)
    requires Agreement(s) && Enabled(s, a) && Harmless(s, a)
    ensures Agreement(Apply(s, a))
  {
    match a {
      case AskOpen(_) => AskingKeepsAgreement(s, a);
      case AskClose => AskingKeepsAgreement(s, a);
      case RecordReply => RecordingKeepsAgreement(s, a);
      case LoseReply => RecordingKeepsAgreement(s, a);
      case Finish(_) => ModuleProgressKeepsAgreement(s, a);
      case Fail(_) => ModuleProgressKeepsAgreement(s, a);
      case RetireRecord(_) => ModuleProgressKeepsAgreement(s, a);
      case _ => AnsweringKeepsAgreement(s, a);
    }
  }

  /** The machine and the module agree in every run of harmless actions. */
  lemma {:induction false} RunKeepsAgreement(s: System, run: seq<Action>)
    requires Agreement(s) && IsHarmlessRun(s, run)
    ensures IsRun(s, run) && Agreement(After(s, run))
    decreases |run|
  {
    HarmlessRunIsRun(s, run);
    if run != [] {
      StepKeepsAgreement(s, run[0]);
      RunKeepsAgreement(Apply(s, run[0]), run[1..]);
    }
  }

  // The claim about what is served.
  predicate Claim(s: System) {
    && (s.machine.state.Open? ==> s.mod.serving == Some(s.machine.state.obj))
    && (s.machine.state.Closed? ==> s.mod.serving == None)
  }

  /** `Open` names exactly what is served, and `Closed` means nothing is. */
  lemma OpenIsServedAndClosedIsNot(run: seq<Action>)
    requires IsHarmlessRun(START, run)
    ensures IsRun(START, run)
    ensures Claim(After(START, run))
  {
    RunKeepsAgreement(START, run);
  }

  /** Between settlements the module serves the last settled object, or already the
      outcome of the one transition awaited (for a close, nothing); no other transition
      is running. */
  lemma SettledObjectIsServedUntilReplaced(run: seq<Action>)
    requires IsHarmlessRun(START, run)
    ensures IsRun(START, run)
    ensures var s := After(START, run);
            || s.mod.serving == Settled(s.machine.state)
            || (s.mod.serving == None && (s.machine.state.StartingClose? || s.machine.state.Closing?))
            || (Awaited(s).Some? && OutcomeOf(s.mod, Awaited(s).value.0).Finished?
                && s.mod.serving == EffectOn(Awaited(s).value.1))
    ensures var s := After(START, run);
            forall id :: id in s.mod.records && s.mod.records[id].outcome.Running?
                         ==> Awaited(s).Some? && Awaited(s).value.0 == id
  {
    RunKeepsAgreement(START, run);
  }

  // One step per element, so the solver evaluates a concrete run without search.
  lemma RunCons(s: System, a: Action, rest: seq<Action>)
    requires Enabled(s, a) && IsRun(Apply(s, a), rest)
    ensures IsRun(s, [a] + rest) && After(s, [a] + rest) == After(Apply(s, a), rest)
  {
    assert ([a] + rest)[1..] == rest;
  }

  lemma {:induction false} RunAppend(s: System, run: seq<Action>, a: Action)
    requires IsRun(s, run) && Enabled(After(s, run), a)
    ensures IsRun(s, run + [a]) && After(s, run + [a]) == Apply(After(s, run), a)
    decreases |run|
  {
    if run == [] {
      RunCons(s, a, []);
      assert [] + [a] == [a] + [];
    } else {
      RunAppend(Apply(s, run[0]), run[1..], a);
      RunCons(s, run[0], run[1..] + [a]);
      assert run + [a] == [run[0]] + (run[1..] + [a]);
    }
  }

  lemma Then(run: seq<Action>, a: Action) returns (longer: seq<Action>)
    requires IsRun(START, run) && Enabled(After(START, run), a)
    ensures IsRun(START, longer) && After(START, longer) == Apply(After(START, run), a)
  {
    RunAppend(START, run, a);
    longer := run + [a];
  }

  /** Losing an acceptance breaks the agreement: the replacement takes effect, the
      repeated call is rejected, and the machine falls back to the old object. */
  lemma LostAcceptanceBreaksAgreement(a: OpenObject, b: OpenObject)
    returns (run: seq<Action>)
    requires a.config != b.config
    ensures IsRun(START, run)
    ensures After(START, run).machine.state == Open(a)
    ensures After(START, run).mod.serving == Some(b)
  {
    run := OpenRun(a, "1");
    run := Then(run, AskOpen(b.config));
    var receipt := Receipt(b.objectPath, "22");
    run := Then(run, AcceptOpen(receipt));
    run := Then(run, LoseReply);
    run := Then(run, Finish("22"));
    run := Then(run, AskOpen(b.config));
    run := Then(run, RejectOpen);
    run := Then(run, RecordReply);
  }

  // A run that opens `obj` and settles on it.
  lemma OpenRun(obj: OpenObject, id: string) returns (run: seq<Action>)
    ensures IsRun(START, run)
    ensures var s := After(START, run);
            s.machine == Machine(Open(obj), false) && s.call.NoCall? && s.mod.issued == {id}
            && s.mod.serving == Some(obj)
  {
    run := [];
    run := Then(run, AskOpen(obj.config));
    var receipt := Receipt(obj.objectPath, id);
    run := Then(run, AcceptOpen(receipt));
    run := Then(run, RecordReply);
    run := Then(run, Finish(id));
    run := Then(run, AskOpen(obj.config));
    run := Then(run, AnswerPoll(Complete));
    run := Then(run, RecordReply);
  }

  /** So does `Unknown` for a transition that did take effect. */
  lemma UnknownAfterEffectBreaksAgreement(a: OpenObject, b: OpenObject)
    returns (run: seq<Action>)
    requires a.config != b.config
    ensures IsRun(START, run)
    ensures After(START, run).machine.state == Open(a)
    ensures After(START, run).mod.serving == Some(b)
  {
    run := OpenRun(a, "1");
    run := Then(run, AskOpen(b.config));
    var receipt := Receipt(b.objectPath, "22");
    run := Then(run, AcceptOpen(receipt));
    run := Then(run, RecordReply);
    run := Then(run, Finish("22"));
    run := Then(run, RetireRecord("22"));
    run := Then(run, AskOpen(b.config));
    run := Then(run, AnswerPoll(Unknown));
    run := Then(run, RecordReply);
    run := Then(run, AskOpen(b.config));
    run := Then(run, RejectOpen);
    run := Then(run, RecordReply);
  }

  // A run in which the acceptance of a close is lost and the repeated close ends at once.
  lemma LostCloseRun(a: OpenObject) returns (run: seq<Action>)
    ensures IsRun(START, run)
    ensures var s := After(START, run);
            s.machine.state.Closed? && s.call.NoCall? && s.mod.issued == {"1", "22"}
            && "22" in s.mod.records && s.mod.records["22"] == Transition(StopServing, Running)
  {
    run := OpenRun(a, "1");
    run := Then(run, AskClose);
    run := Then(run, AcceptClose("22"));
    run := Then(run, LoseReply);
    run := Then(run, AskClose);
    run := Then(run, CloseAtOnce);
    run := Then(run, RecordReply);
  }

  /** And so does losing the acceptance of a close: the close finishes after a later
      open has settled. */
  lemma LostCloseAcceptanceBreaksAgreement(a: OpenObject, b: OpenObject)
    returns (run: seq<Action>)
    ensures IsRun(START, run)
    ensures After(START, run).machine.state == Open(b)
    ensures After(START, run).mod.serving == None
  {
    run := LostCloseRun(a);
    run := Then(run, AskOpen(b.config));
    var receipt := Receipt(b.objectPath, "333");
    run := Then(run, AcceptOpen(receipt));
    run := Then(run, RecordReply);
    run := Then(run, Finish("333"));
    run := Then(run, AskOpen(b.config));
    run := Then(run, AnswerPoll(Complete));
    run := Then(run, RecordReply);
    run := Then(run, Finish("22"));
  }
}
