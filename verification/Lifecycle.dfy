/**
The per-directory open/close state machine. `Machine` is the pair of fields the
object holds; the `Next*`/`After*` functions are the transitions on that value,
and the class below performs them in place.
*/
module LifecycleMachine {
  import opened Prelude

  // A client configuration is only ever compared for equality.
  datatype Config = Config(encoded: string)

  datatype OpenObject = OpenObject(config: Config, objectPath: string)

  // The reply to an accepted open call.
  datatype Receipt = Receipt(objectPath: string, transitionId: string)

  // `Undefined` stands for any status this contract does not define.
  datatype TransitionStatus = Pending | Complete | Failed | Unknown | Undefined

  datatype State =
    | Closed
    | StartingOpen(config: Config, previous: Option<OpenObject>)
    | Opening(config: Config, previous: Option<OpenObject>, receipt: Receipt)
    | Open(obj: OpenObject)
    | StartingClose(obj: OpenObject)
    | Closing(obj: OpenObject, transitionId: string)

  datatype Step =
    | Ready(obj: OpenObject)
    | CallOpen(config: Config)
    | PollOpen(id: string)
    | CallClose
    | PollClose(id: string)
    | AllClosed

  datatype Fault = Transport | ModuleFault

  datatype Poll = Continue | Done | PollFault(fault: Fault)

  datatype Machine = Machine(state: State, retriedTerminal: bool)

  const INITIAL := Machine(State.Closed, false)

  function NextOpen(m: Machine, requested: Config): (Machine, Step) {
    match m.state
    case Open(obj) =>
      if obj.config == requested then (m, Ready(obj))
      else (m.(state := StartingOpen(requested, Some(obj))), CallOpen(requested))
    case Closed => (m.(state := StartingOpen(requested, None)), CallOpen(requested))
    case StartingOpen(config, _) => (m, CallOpen(config))
    case Opening(_, _, receipt) => (m, PollOpen(receipt.transitionId))
    case StartingClose(_) => (m, CallClose)
    case Closing(_, id) => (m, PollClose(id))
  }

  function NextClose(m: Machine): (Machine, Step) {
    match m.state
    case Closed => (m, AllClosed)
    case Open(obj) => (m.(state := StartingClose(obj)), CallClose)
    case StartingOpen(config, _) => (m, CallOpen(config))
    case Opening(_, _, receipt) => (m, PollOpen(receipt.transitionId))
    case StartingClose(_) => (m, CallClose)
    case Closing(_, id) => (m, PollClose(id))
  }

  function AfterOpenReply(m: Machine, reply: Result<Receipt, ()>): Machine {
    match m.state
    case StartingOpen(config, previous) =>
      if reply.Ok? then m.(state := Opening(config, previous, reply.value))
      else Machine(if previous.Some? then Open(previous.value) else State.Closed, false)
    case _ => m
  }

  function AfterCloseReply(m: Machine, reply: Result<Option<string>, ()>): Machine {
    match m.state
    case StartingClose(obj) =>
      (match reply
       case Ok(Some(id)) => m.(state := Closing(obj, id))
       case Ok(None) => Machine(State.Closed, false)
       case Err(_) => m)
    case _ => m
  }

  function AfterOpenPoll(m: Machine, status: TransitionStatus): (Machine, Poll) {
    match m.state
    case Opening(config, previous, receipt) =>
      (match status
       case Pending => (m, Continue)
       case Complete => (Machine(Open(OpenObject(config, receipt.objectPath)), false), Done)
       case Undefined => (m, PollFault(ModuleFault))
       case _ =>
         if m.retriedTerminal then (m.(retriedTerminal := false), PollFault(Transport))
         else (Machine(StartingOpen(config, previous), true), Continue))
    case _ => (m, Continue)
  }

  function AfterClosePoll(m: Machine, status: TransitionStatus): (Machine, Poll) {
    match m.state
    case Closing(obj, _) =>
      (match status
       case Pending => (m, Continue)
       case Complete => (Machine(State.Closed, false), Done)
       case Undefined => (m, PollFault(ModuleFault))
       case _ =>
         if m.retriedTerminal then (m.(retriedTerminal := false), PollFault(Transport))
         else (Machine(StartingClose(obj), true), Continue))
    case _ => (m, Continue)
  }

  /** The object whose fields the driver updates, one method per call site. */
  class ConfiguredLifecycle {
    var state: State
    var retriedTerminal: bool

    ghost function View(): Machine
      reads this
    {
      Machine(state, retriedTerminal)
    }

    constructor ()
      ensures View() == INITIAL
    {
      state, retriedTerminal := State.Closed, false;
    }

    method OpenStep(requested: Config) returns (step: Step)
      modifies this
      ensures (View(), step) == NextOpen(old(View()), requested)
    {
      match state {
        case Open(obj) =>
          if obj.config == requested {
            return Ready(obj);
          }
          state := StartingOpen(requested, Some(obj));
          return CallOpen(requested);
        case Closed =>
          state := StartingOpen(requested, None);
          return CallOpen(requested);
        case StartingOpen(config, _) => return CallOpen(config);
        case Opening(_, _, receipt) => return PollOpen(receipt.transitionId);
        case StartingClose(_) => return CallClose;
        case Closing(_, id) => return PollClose(id);
      }
    }

    method CloseStep() returns (step: Step)
      modifies this
      ensures (View(), step) == NextClose(old(View()))
    {
      match state {
        case Closed => return AllClosed;
        case Open(obj) =>
          state := StartingClose(obj);
          return CallClose;
        case StartingOpen(config, _) => return CallOpen(config);
        case Opening(_, _, receipt) => return PollOpen(receipt.transitionId);
        case StartingClose(_) => return CallClose;
        case Closing(_, id) => return PollClose(id);
      }
    }

    method OpenReplied(reply: Result<Receipt, ()>)
      modifies this
      ensures View() == AfterOpenReply(old(View()), reply)
    {
      if state.StartingOpen? {
        var config, previous := state.config, state.previous;
        if reply.Ok? {
          state := Opening(config, previous, reply.value);
        } else {
          retriedTerminal := false;
          state := if previous.Some? then Open(previous.value) else State.Closed;
        }
      }
    }

    method OpenPolled(status: TransitionStatus) returns (poll: Poll)
      modifies this
      ensures (View(), poll) == AfterOpenPoll(old(View()), status)
    {
      if !state.Opening? {
        return Continue;
      }
      var config, previous, receipt := state.config, state.previous, state.receipt;
      match status {
        case Pending => return Continue;
        case Complete =>
          retriedTerminal := false;
          state := Open(OpenObject(config, receipt.objectPath));
          return Done;
        case Undefined => return PollFault(ModuleFault);
        case _ =>
          if retriedTerminal {
            retriedTerminal := false;
            return PollFault(Transport);
          }
          retriedTerminal := true;
          state := StartingOpen(config, previous);
          return Continue;
      }
    }

    method CloseReplied(reply: Result<Option<string>, ()>)
      modifies this
      ensures View() == AfterCloseReply(old(View()), reply)
    {
      if state.StartingClose? {
        match reply {
          case Ok(Some(id)) => state := Closing(state.obj, id);
          case Ok(None) =>
            retriedTerminal := false;
            state := State.Closed;
          case Err(_) =>
        }
      }
    }

    method ClosePolled(status: TransitionStatus) returns (poll: Poll)
      modifies this
      ensures (View(), poll) == AfterClosePoll(old(View()), status)
    {
      if !state.Closing? {
        return Continue;
      }
      var obj := state.obj;
      match status {
        case Pending => return Continue;
        case Complete =>
          retriedTerminal := false;
          state := State.Closed;
          return Done;
        case Undefined => return PollFault(ModuleFault);
        case _ =>
          if retriedTerminal {
            retriedTerminal := false;
            return PollFault(Transport);
          }
          retriedTerminal := true;
          state := StartingClose(obj);
          return Continue;
      }
    }
  }

  /** Asking again before any reply arrives changes nothing and names the same call. */
  lemma AskingAgainRepeatsTheStep(m: Machine, requested: Config)
    ensures NextOpen(NextOpen(m, requested).0, requested) == NextOpen(m, requested)
    ensures NextClose(NextClose(m).0) == NextClose(m)
  {
  }
}
