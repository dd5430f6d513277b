/** The driver loop around the machine, and its retry discipline over whole runs. */
module LifecycleDriver {
  import opened Prelude
  import opened LifecycleMachine

  // A module that accepts every call; `receipt(k)` is what it answers to the k-th
  // accepted call, `delay(k)` how often it then says Pending before Complete, and
  // `atOnce(k)` whether a close needs no receipt at all.
  datatype PatientModule = PatientModule(
    receipt: nat -> Receipt,
    delay: nat -> nat,
    atOnce: nat -> bool)

  // Calls still needed before `requested` is open.
  function OpenRank(state: State, requested: Config): nat {
    match state
    case Open(obj) => if obj.config == requested then 0 else 3
    case Opening(config, _, _) => if config == requested then 1 else 4
    case StartingOpen(config, _) => if config == requested then 2 else 5
    case Closed => 3
    case Closing(_, _) => 4
    case StartingClose(_) => 5
  }

  function CloseRank(state: State): nat {
    match state
    case Closed => 0
    case Closing(_, _) => 1
    case StartingClose(_) => 2
    case Open(_) => 3
    case Opening(_, _, _) => 4
    case StartingOpen(_, _) => 5
  }

  // What one driver turn makes of the machine: it performs the call `step` names and
  // records the reply. `left` is how many Pending answers remain for the current receipt.
  datatype TurnResult = TurnResult(m: Machine, k: nat, left: nat, fault: Option<Fault>)

  function Polled(answer: (Machine, Poll), k: nat, left: nat): TurnResult {
    TurnResult(answer.0, k, left, if answer.1.PollFault? then Some(answer.1.fault) else None)
  }

  function Turn(m: Machine, step: Step, env: PatientModule, k: nat, left: nat): TurnResult {
    match step
    case CallOpen(_) => TurnResult(AfterOpenReply(m, Ok(env.receipt(k))), k + 1, env.delay(k), None)
    case CallClose =>
      var reply := if env.atOnce(k) then None else Some(env.receipt(k).transitionId);
      TurnResult(AfterCloseReply(m, Ok(reply)), k + 1, env.delay(k), None)
    case PollOpen(_) =>
      if left > 0 then Polled(AfterOpenPoll(m, Pending), k, left - 1) else Polled(AfterOpenPoll(m, Complete), k, 0)
    case PollClose(_) =>
      if left > 0 then Polled(AfterClosePoll(m, Pending), k, left - 1) else Polled(AfterClosePoll(m, Complete), k, 0)
    case _ => TurnResult(m, k, left, None)
  }

  /** Asks `NextOpen` until it is `Ready`, from any state at all, and gives up at a fault:
      there is none. */
  function DriveOpen(m: Machine, requested: Config, env: PatientModule, k: nat, left: nat)
    : (r: (Machine, Option<Fault>))
    ensures r.1.None? && r.0.state.Open? && r.0.state.obj.config == requested
    ensures NextOpen(r.0, requested) == (r.0, Ready(r.0.state.obj))
    decreases OpenRank(m.state, requested), left
  {
    var (asked, step) := NextOpen(m, requested);
    if step.Ready? then (m, None)
    else
      var turn := Turn(asked, step, env, k, left);
      if turn.fault.Some? then (turn.m, turn.fault)
      else DriveOpen(turn.m, requested, env, turn.k, turn.left)
  }

  /** Asks `NextClose` until everything is closed, in the same way. */
  function DriveClose(m: Machine, env: PatientModule, k: nat, left: nat): (r: (Machine, Option<Fault>))
    ensures r.1.None? && r.0.state.Closed? && NextClose(r.0) == (r.0, AllClosed)
    decreases CloseRank(m.state), left
  {
    var (asked, step) := NextClose(m);
    if step.AllClosed? then (m, None)
    else
      var turn := Turn(asked, step, env, k, left);
      if turn.fault.Some? then (turn.m, turn.fault)
      else DriveClose(turn.m, env, turn.k, turn.left)
  }

  // ----- what an answer tells the driver -----

  predicate IsSettled(state: State) {
    state.Open? || state.Closed?
  }

  // The transition whose outcome the machine is waiting for.
  function AwaitedOpen(m: Machine): Option<string> {
    if m.state.Opening? then Some(m.state.receipt.transitionId) else None
  }

  function AwaitedClose(m: Machine): Option<string> {
    if m.state.Closing? then Some(m.state.transitionId) else None
  }

  // What an answer means: `Done`, that the transition awaited has settled; a fault, that it is
  // still awaited though it is not under way; else that the driver is to go on.
  predicate AnswerFits(awaited: Option<string>, still: Option<string>, status: TransitionStatus,
                       settled: bool, answer: Poll)
  {
    && (answer.Done? <==> awaited.Some? && settled)
    && (answer.PollFault? <==> awaited.Some? && still == awaited && !status.Pending?)
    && (answer == PollFault(ModuleFault) <==> awaited.Some? && status.Undefined?)
    && (awaited.Some? && status.Pending? ==> still == awaited)
  }

  /**
  The answers to polls of an open, over all machines and statuses. After `Done` the object
  asked for is ready; after a fault the same transition is polled again; after a retry the same
  call is made again.
  */
  lemma OpenAnswersFit(m: Machine, status: TransitionStatus)
    ensures var (next, answer) := AfterOpenPoll(m, status);
            && AnswerFits(AwaitedOpen(m), AwaitedOpen(next), status, IsSettled(next.state), answer)
            && (answer.Done? ==>
                  NextOpen(next, m.state.config).1 == Ready(OpenObject(m.state.config, m.state.receipt.objectPath)))
            && (answer.PollFault? ==> NextClose(next) == (next, PollOpen(m.state.receipt.transitionId)))
            && (m.state.Opening? && answer.Continue? && !status.Pending? ==>
                  NextClose(next) == (next, CallOpen(m.state.config)) && next.state.previous == m.state.previous)
            && (!m.state.Opening? ==> next == m)
  {
  }

  /** The same for a close. */
  lemma CloseAnswersFit(m: Machine, status: TransitionStatus)
    ensures var (next, answer) := AfterClosePoll(m, status);
            && AnswerFits(AwaitedClose(m), AwaitedClose(next), status, IsSettled(next.state), answer)
            && (answer.Done? ==> NextClose(next).1 == AllClosed)
            && (answer.PollFault? ==> NextClose(next) == (next, PollClose(m.state.transitionId)))
            && (m.state.Closing? && answer.Continue? && !status.Pending? ==>
                  NextClose(next) == (next, CallClose) && next.state.obj == m.state.obj)
            && (!m.state.Closing? ==> next == m)
  {
  }

  // Any call on the machine, in any order.
  datatype Event =
    | OpenStepped(requested: Config)
    | CloseStepped
    | OpenReplied(openReply: Result<Receipt, ()>)
    | OpenPolled(openStatus: TransitionStatus)
    | CloseReplied(closeReply: Result<Option<string>, ()>)
    | ClosePolled(closeStatus: TransitionStatus)

  function On(m: Machine, e: Event): Machine {
    match e
    case OpenStepped(requested) => NextOpen(m, requested).0
    case CloseStepped => NextClose(m).0
    case OpenReplied(reply) => AfterOpenReply(m, reply)
    case OpenPolled(status) => AfterOpenPoll(m, status).0
    case CloseReplied(reply) => AfterCloseReply(m, reply)
    case ClosePolled(status) => AfterClosePoll(m, status).0
  }

  // The answer to a terminal status polled while its transition is awaited.
  function TerminalAnswer(m: Machine, e: Event): seq<Poll> {
    match e
    case OpenPolled(status) =>
      if m.state.Opening? && (status.Failed? || status.Unknown?) then [AfterOpenPoll(m, status).1] else []
    case ClosePolled(status) =>
      if m.state.Closing? && (status.Failed? || status.Unknown?) then [AfterClosePoll(m, status).1] else []
    case _ => []
  }

  // The machine after `events`, and the terminal answers since it last settled.
  function Play(m: Machine, answers: seq<Poll>, events: seq<Event>): (Machine, seq<Poll>)
    decreases |events|
  {
    if events == [] then (m, answers)
    else
      var next := On(m, events[0]);
      var log := if IsSettled(next.state) then [] else answers + TerminalAnswer(m, events[0]);
      Play(next, log, events[1..])
  }

  ghost predicate Alternates(answers: seq<Poll>) {
    forall i :: 0 <= i < |answers| ==>
      answers[i] == if i % 2 == 0 then Continue else PollFault(Transport)
  }

  ghost predicate RetryInvariant(m: Machine, answers: seq<Poll>) {
    Alternates(answers)
    && (m.retriedTerminal <==> |answers| % 2 == 1)
    && (IsSettled(m.state) ==> answers == [])
  }

  lemma EventKeepsRetryInvariant(m: Machine, answers: seq<Poll>, e: Event)
    requires RetryInvariant(m, answers)
    ensures var next := On(m, e);
            RetryInvariant(next, if IsSettled(next.state) then [] else answers + TerminalAnswer(m, e))
  {
    if TerminalAnswer(m, e) != [] {
      assert |answers + TerminalAnswer(m, e)| == |answers| + 1;
    }
  }

  lemma {:induction false} PlayKeepsRetryInvariant(m: Machine, answers: seq<Poll>, events: seq<Event>)
    requires RetryInvariant(m, answers)
    ensures RetryInvariant(Play(m, answers, events).0, Play(m, answers, events).1)
    decreases |events|
  {
    if events != [] {
      var next := On(m, events[0]);
      EventKeepsRetryInvariant(m, answers, events[0]);
      PlayKeepsRetryInvariant(
        next, if IsSettled(next.state) then [] else answers + TerminalAnswer(m, events[0]), events[1..]);
    }
  }

  function CountOf(answers: seq<Poll>, p: Poll): nat {
    if answers == [] then 0
    else CountOf(answers[..|answers| - 1], p) + if answers[|answers| - 1] == p then 1 else 0
  }

  lemma {:induction false} AlternationCounts(answers: seq<Poll>)
    requires Alternates(answers)
    ensures CountOf(answers, Continue) == (|answers| + 1) / 2
    ensures CountOf(answers, PollFault(Transport)) == |answers| / 2
  {
    if answers != [] {
      AlternationCounts(answers[..|answers| - 1]);
    }
  }

  /** Over every sequence of calls: settled means no retry is owed; the answers to
      terminal statuses since then alternate; and each retry but one was paid for by
      a fault. */
  lemma RetriesAlternateWithFaults(events: seq<Event>)
    ensures var (m, answers) := Play(INITIAL, [], events);
            && (IsSettled(m.state) ==> !m.retriedTerminal)
            && Alternates(answers)
            && CountOf(answers, Continue)
               == CountOf(answers, PollFault(Transport)) + (if m.retriedTerminal then 1 else 0)
  {
    var (m, answers) := Play(INITIAL, [], events);
    PlayKeepsRetryInvariant(INITIAL, [], events);
    AlternationCounts(answers);
  }
}
