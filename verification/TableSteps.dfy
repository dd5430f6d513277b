/**
Every operation of the client table as a sequence of lock steps: one step takes a
lock, or does the work done under it and lets it go, or runs a callback. Any thread
may step at any time, so a run of these steps is an interleaving of the calls.

A callback is a step that answers anything; a callback that itself uses the table is
covered by the steps other threads may take while this one waits for its answer.
*/
module TableSteps {
  import opened Prelude
  import opened TableOperations

  type Tid = nat

  // What to do under the `clients` lock alone, and under the `reservations` lock alone.
  datatype ClientsWork =
    | Insert(dir: Dir, client: ClientId)
    | Retire(dir: Dir)
    | Evict(dir: Dir, client: ClientId)
    | Snapshot

  datatype ReservationsWork = ObtainFor(dir: Dir) | RaiseFence(dir: Dir) | Lookup(dir: Dir)

  // A `finish_cleanup` call: its arguments, and what remains of the orphan retry it
  // belongs to, if it belongs to one.
  datatype FinishCall = FinishCall(dir: Dir, client: Option<ClientId>, r: ResId, orphans: Option<set<(Dir, ResId)>>)

  // An attempt of `reservation_with_action`; `stale` are the reservations that earlier
  // attempts of the same call found replaced.
  datatype AttachCall = AttachCall(dir: Dir, action: ActionId, stale: set<ResId>)

  datatype Reply =
    | AdmissionReply(admission: Admission)
    | Flag(ok: bool)
    | Token(r: ResId)
    | NoReply

  datatype Pc =
    | Idle
    | Replied(reply: Reply)
    // clients lock only
    | ClientsWant(clientsWork: ClientsWork)
    | ClientsHeld(clientsWork: ClientsWork)
    // reservations lock only
    | ReservationsWant(work: ReservationsWork)
    | ReservationsHeld(work: ReservationsWork)
    // admit: clients, then reservations inside it
    | AdmitWant(dir: Dir)
    | AdmitRemoved(dir: Dir)
    | AdmitWantReservations(dir: Dir)
    | AdmitLook(dir: Dir)
    | AdmitDecide(dir: Dir, reserved: bool)
    | AdmitCreate(dir: Dir)
    // complete_host_cleanup: the cell, then reservations
    | HostWantCell(dir: Dir, r: ResId)
    | HostWantReservations(dir: Dir, r: ResId)
    | HostWork(dir: Dir, r: ResId)
    | HostRelease(r: ResId, ok: bool)
    // reservation_with_action
    | AttachWant(attach: AttachCall)
    | AttachObtain(attach: AttachCall)
    | AttachWantCell(attach: AttachCall, r: ResId)
    | AttachWantCheck(attach: AttachCall, r: ResId)
    | AttachCheck(attach: AttachCall, r: ResId)
    | AttachDecide(attach: AttachCall, r: ResId, current: bool)
    // finish_cleanup; `saw` is the action this call ran to a true answer
    | FinishWantCell(call: FinishCall)
    | FinishWantCheck(call: FinishCall)
    | FinishCheck(call: FinishCall)
    | FinishFlag(call: FinishCall, current: bool)
    | FinishWantOwner(call: FinishCall)
    | FinishOwner(call: FinishCall)
    | FinishAction(call: FinishCall)
    | FinishWantEvict(call: FinishCall, saw: Option<ActionId>)
    | FinishEvict(call: FinishCall, saw: Option<ActionId>)
    | FinishWantDrop(call: FinishCall, saw: Option<ActionId>)
    | FinishDrop(call: FinishCall, saw: Option<ActionId>)
    | FinishRelease(call: FinishCall, ok: bool)
    // retry_orphaned
    | RetryWant
    | RetrySnapshot
    | RetryNext(orphans: set<(Dir, ResId)>)
    | RetryWantClients(dir: Dir, r: ResId, orphans: set<(Dir, ResId)>)
    | RetryLook(dir: Dir, r: ResId, orphans: set<(Dir, ResId)>)

  // How a reservation left the map: by a finish that ran `saw` to true (or had no
  // action to run), or by the host's confirmation.
  datatype Removal = ByFinish(saw: Option<ActionId>) | ByHost

  // What the environment decides in a step: which call begins, what a callback
  // answers, which id an allocation gets, which orphan comes next.
  datatype Choice =
    | Go
    | Begin(pc: Pc)
    | Answer(yes: bool)
    | Created(client: Option<ClientId>)
    | Allocate(unused: ResId)
    | Pick(dir: Dir, r: ResId)

  predicate BeginsCall(tb: Tables, pc: Pc) {
    match pc
    case ClientsWant(_) => true
    case ReservationsWant(_) => true
    case AdmitWant(_) => true
    case HostWantCell(_, r) => r in tb.cells
    case AttachWant(attach) => attach.stale == {}
    case FinishWantCell(call) => call.r in tb.cells && call.orphans.None?
    case RetryWant => true
    case _ => false
  }

  // The locks a thread holds while at `pc`.
  predicate HoldsClients(pc: Pc) {
    pc.ClientsHeld? || pc.AdmitRemoved? || pc.AdmitWantReservations? || pc.AdmitLook? || pc.AdmitDecide?
    || pc.AdmitCreate? || pc.FinishOwner? || pc.FinishEvict? || pc.RetryLook?
  }

  predicate HoldsReservations(pc: Pc) {
    pc.ReservationsHeld? || pc.AdmitLook? || pc.HostWork? || pc.AttachObtain? || pc.AttachCheck?
    || pc.FinishCheck? || pc.FinishDrop? || pc.RetrySnapshot?
  }

  function HoldsCell(pc: Pc): Option<ResId> {
    match pc
    case HostWantReservations(_, r) => Some(r)
    case HostWork(_, r) => Some(r)
    case HostRelease(r, _) => Some(r)
    case AttachWantCheck(_, r) => Some(r)
    case AttachCheck(_, r) => Some(r)
    case AttachDecide(_, r, _) => Some(r)
    case FinishWantCheck(call) => Some(call.r)
    case FinishCheck(call) => Some(call.r)
    case FinishFlag(call, _) => Some(call.r)
    case FinishWantOwner(call) => Some(call.r)
    case FinishOwner(call) => Some(call.r)
    case FinishAction(call) => Some(call.r)
    case FinishWantEvict(call, _) => Some(call.r)
    case FinishEvict(call, _) => Some(call.r)
    case FinishWantDrop(call, _) => Some(call.r)
    case FinishDrop(call, _) => Some(call.r)
    case FinishRelease(call, _) => Some(call.r)
    case _ => None
  }

  // What a step does to the locks.
  datatype LockMove =
    | KeepLocks
    | TakeClients
    | TakeReservations
    | TakeCell(r: ResId)
    | DropClients
    | DropReservations
    | DropCell(r: ResId)

  // What a step does to the maps and the cells.
  datatype Change =
    | Unchanged
    | ClientsSet(clients: map<Dir, ClientId>)
    | Retired(client: ClientId)
    | Allocated(dir: Dir, r: ResId, fenced: bool)
    | FenceRaised(r: ResId)
    | FenceLowered(r: ResId)
    | ActionSet(r: ResId, action: ActionId)
    | Removed(dir: Dir, r: ResId, how: Removal)

  datatype Effect = Effect(pc: Pc, move: LockMove, change: Change)

  // The tables, with the history that says, for every reservation ever allocated, which
  // directory it was made for and how it left.
  datatype World = World(tables: Tables, home: map<ResId, Dir>, removed: map<ResId, Removal>)

  datatype State = State(
    world: World,
    clientsLock: Option<Tid>,
    reservationsLock: Option<Tid>,
    cellLocks: map<ResId, Tid>,
    pcs: map<Tid, Pc>)

  const START := State(World(EMPTY_TABLES, map[], map[]), None, None, map[], map[])

  function PcOf(s: State, t: Tid): Pc {
    if t in s.pcs then s.pcs[t] else Idle
  }

  // The environment's choice is one this point of the call leaves open.
  predicate ChoiceFits(tb: Tables, pc: Pc, c: Choice) {
    match pc
    case Idle => c.Begin? && BeginsCall(tb, c.pc)
    case AdmitRemoved(_) => c.Answer?
    case AdmitCreate(_) => c.Created?
    case ReservationsHeld(work) =>
      if !work.Lookup? && work.dir !in tb.reservations then c.Allocate? && c.unused !in tb.cells else c.Go?
    case AttachObtain(attach) =>
      if attach.dir !in tb.reservations then c.Allocate? && c.unused !in tb.cells else c.Go?
    case FinishAction(_) => c.Answer?
    case RetryNext(orphans) => if orphans == {} then c.Go? else c.Pick? && (c.dir, c.r) in orphans
    case _ => c.Go?
  }

  // Where a finish call goes next once its answer is known.
  function AfterFinish(call: FinishCall, ok: bool): Pc {
    if call.orphans.Some? then RetryNext(call.orphans.value) else Replied(Flag(ok))
  }

  function ClientsEffect(tb: Tables, work: ClientsWork): Effect {
    match work
    case Insert(dir, client) =>
      Effect(Replied(NoReply), DropClients, ClientsSet(tb.clients[dir := client]))
    case Retire(dir) =>
      Effect(Replied(NoReply), DropClients,
             if dir in tb.clients then Retired(tb.clients[dir]) else Unchanged)
    case Evict(dir, client) =>
      Effect(Replied(Flag(Owns(tb, dir, client))), DropClients,
             if Owns(tb, dir, client) then ClientsSet(tb.clients - {dir}) else Unchanged)
    case Snapshot => Effect(Replied(NoReply), DropClients, Unchanged)
  }

  function ReservationsEffect(tb: Tables, work: ReservationsWork, c: Choice): Effect {
    match work
    case ObtainFor(dir) =>
      if c.Allocate? then Effect(Replied(Token(c.unused)), DropReservations, Allocated(dir, c.unused, false))
      else Effect(Replied(StoredToken(tb, dir)), DropReservations, Unchanged)
    case RaiseFence(dir) =>
      if c.Allocate? then Effect(Replied(Token(c.unused)), DropReservations, Allocated(dir, c.unused, true))
      else Effect(Replied(StoredToken(tb, dir)), DropReservations,
                  if dir in tb.reservations then FenceRaised(tb.reservations[dir]) else Unchanged)
    case Lookup(dir) => Effect(Replied(StoredToken(tb, dir)), DropReservations, Unchanged)
  }

  function StoredToken(tb: Tables, dir: Dir): Reply {
    if dir in tb.reservations then Token(tb.reservations[dir]) else NoReply
  }

  function AdmitEffect(tb: Tables, pc: Pc, c: Choice): Effect {
    match pc
    case AdmitWant(dir) => Effect(AdmitRemoved(dir), TakeClients, Unchanged)
    case AdmitRemoved(dir) =>
      if c.Answer? && c.yes then Effect(Replied(AdmissionReply(Unavailable)), DropClients, Unchanged)
      else Effect(AdmitWantReservations(dir), KeepLocks, Unchanged)
    case AdmitWantReservations(dir) => Effect(AdmitLook(dir), TakeReservations, Unchanged)
    case AdmitLook(dir) => Effect(AdmitDecide(dir, dir in tb.reservations), DropReservations, Unchanged)
    case AdmitDecide(dir, reserved) =>
      if reserved then Effect(Replied(AdmissionReply(Unavailable)), DropClients, Unchanged)
      else if dir in tb.clients then
        Effect(Replied(AdmissionReply(
                 if tb.clients[dir] in tb.retiring then Unavailable else Admitted(tb.clients[dir]))),
               DropClients, Unchanged)
      else Effect(AdmitCreate(dir), KeepLocks, Unchanged)
    case AdmitCreate(dir) =>
      if c.Created? && c.client.Some? then
        Effect(Replied(AdmissionReply(Admitted(c.client.value))), DropClients,
               ClientsSet(tb.clients[dir := c.client.value]))
      else Effect(Replied(AdmissionReply(CreateFailed)), DropClients, Unchanged)
    case _ => Effect(pc, KeepLocks, Unchanged)
  }

  function HostEffect(tb: Tables, pc: Pc): Effect {
    match pc
    case HostWantCell(dir, r) => Effect(HostWantReservations(dir, r), TakeCell(r), Unchanged)
    case HostWantReservations(dir, r) => Effect(HostWork(dir, r), TakeReservations, Unchanged)
    case HostWork(dir, r) =>
      if !Current(tb, dir, r) then Effect(HostRelease(r, false), DropReservations, Unchanged)
      else Effect(HostRelease(r, true), DropReservations,
                  if ActionOf(tb, r).None? then Removed(dir, r, ByHost) else FenceLowered(r))
    case HostRelease(r, ok) => Effect(Replied(Flag(ok)), DropCell(r), Unchanged)
    case _ => Effect(pc, KeepLocks, Unchanged)
  }

  function AttachEffect(tb: Tables, pc: Pc, c: Choice): Effect {
    match pc
    case AttachWant(attach) => Effect(AttachObtain(attach), TakeReservations, Unchanged)
    case AttachObtain(attach) =>
      if attach.dir in tb.reservations then
        Effect(AttachWantCell(attach, tb.reservations[attach.dir]), DropReservations, Unchanged)
      else
        var r := if c.Allocate? then c.unused else 0;
        Effect(AttachWantCell(attach, r), DropReservations, Allocated(attach.dir, r, false))
    case AttachWantCell(attach, r) => Effect(AttachWantCheck(attach, r), TakeCell(r), Unchanged)
    case AttachWantCheck(attach, r) => Effect(AttachCheck(attach, r), TakeReservations, Unchanged)
    case AttachCheck(attach, r) =>
      Effect(AttachDecide(attach, r, Current(tb, attach.dir, r)), DropReservations, Unchanged)
    case AttachDecide(attach, r, current) =>
      if !current then
        Effect(AttachWant(attach.(stale := attach.stale + {r})), DropCell(r), Unchanged)
      else
        Effect(Replied(Token(r)), DropCell(r),
               if ActionOf(tb, r).Some? then Unchanged else ActionSet(r, attach.action))
    case _ => Effect(pc, KeepLocks, Unchanged)
  }

  function FinishEffect(tb: Tables, pc: Pc, c: Choice): Effect {
    match pc
    case FinishWantCell(call) => Effect(FinishWantCheck(call), TakeCell(call.r), Unchanged)
    case FinishWantCheck(call) => Effect(FinishCheck(call), TakeReservations, Unchanged)
    case FinishCheck(call) =>
      Effect(FinishFlag(call, Current(tb, call.dir, call.r)), DropReservations, Unchanged)
    case FinishFlag(call, current) =>
      Effect(if !current || Fenced(tb, call.r) then FinishRelease(call, false)
             else if call.client.Some? then FinishWantOwner(call)
             else FinishAction(call), KeepLocks, Unchanged)
    case FinishWantOwner(call) => Effect(FinishOwner(call), TakeClients, Unchanged)
    case FinishOwner(call) =>
      Effect(if call.client.Some? && !Owns(tb, call.dir, call.client.value)
             then FinishRelease(call, false)
             else FinishAction(call), DropClients, Unchanged)
    case FinishAction(call) =>
      var action := ActionOf(tb, call.r);
      Effect(if action.Some? && !(c.Answer? && c.yes) then FinishRelease(call, false)
             else if call.client.Some? then FinishWantEvict(call, action)
             else FinishWantDrop(call, action), KeepLocks, Unchanged)
    case FinishWantEvict(call, saw) => Effect(FinishEvict(call, saw), TakeClients, Unchanged)
    case FinishEvict(call, saw) =>
      if call.client.Some? && !Owns(tb, call.dir, call.client.value)
      then Effect(FinishRelease(call, false), DropClients, Unchanged)
      else Effect(FinishWantDrop(call, saw), DropClients, ClientsSet(tb.clients - {call.dir}))
    case FinishWantDrop(call, saw) => Effect(FinishDrop(call, saw), TakeReservations, Unchanged)
    case FinishDrop(call, saw) =>
      if !Fenced(tb, call.r) && Current(tb, call.dir, call.r)
      then Effect(FinishRelease(call, true), DropReservations, Removed(call.dir, call.r, ByFinish(saw)))
      else Effect(FinishRelease(call, false), DropReservations, Unchanged)
    case FinishRelease(call, ok) => Effect(AfterFinish(call, ok), DropCell(call.r), Unchanged)
    case _ => Effect(pc, KeepLocks, Unchanged)
  }

  function RetryEffect(tb: Tables, pc: Pc, c: Choice): Effect {
    match pc
    case RetryWant => Effect(RetrySnapshot, TakeReservations, Unchanged)
    case RetrySnapshot =>
      Effect(RetryNext(set d | d in tb.reservations :: (d, tb.reservations[d])), DropReservations, Unchanged)
    case RetryNext(orphans) =>
      if c.Pick? then Effect(RetryWantClients(c.dir, c.r, orphans - {(c.dir, c.r)}), KeepLocks, Unchanged)
      else Effect(Replied(NoReply), KeepLocks, Unchanged)
    case RetryWantClients(dir, r, orphans) => Effect(RetryLook(dir, r, orphans), TakeClients, Unchanged)
    case RetryLook(dir, r, orphans) =>
      Effect(if dir in tb.clients then RetryNext(orphans)
             else FinishWantCell(FinishCall(dir, None, r, Some(orphans))), DropClients, Unchanged)
    case _ => Effect(pc, KeepLocks, Unchanged)
  }

  function PlainEffect(tb: Tables, pc: Pc, c: Choice): Effect {
    match pc
    case Idle => Effect(if c.Begin? then c.pc else Idle, KeepLocks, Unchanged)
    case Replied(_) => Effect(Idle, KeepLocks, Unchanged)
    case ClientsWant(work) => Effect(ClientsHeld(work), TakeClients, Unchanged)
    case ClientsHeld(work) => ClientsEffect(tb, work)
    case ReservationsWant(work) => Effect(ReservationsHeld(work), TakeReservations, Unchanged)
    case ReservationsHeld(work) => ReservationsEffect(tb, work, c)
    case _ => Effect(pc, KeepLocks, Unchanged)
  }

  // The operation a point belongs to.
  datatype Group = PlainGroup | AdmitGroup | HostGroup | AttachGroup | FinishGroup | RetryGroup

  function GroupOf(pc: Pc): Group {
    match pc
    case AdmitWant(_) => AdmitGroup
    case AdmitRemoved(_) => AdmitGroup
    case AdmitWantReservations(_) => AdmitGroup
    case AdmitLook(_) => AdmitGroup
    case AdmitDecide(_, _) => AdmitGroup
    case AdmitCreate(_) => AdmitGroup
    case HostWantCell(_, _) => HostGroup
    case HostWantReservations(_, _) => HostGroup
    case HostWork(_, _) => HostGroup
    case HostRelease(_, _) => HostGroup
    case AttachWant(_) => AttachGroup
    case AttachObtain(_) => AttachGroup
    case AttachWantCell(_, _) => AttachGroup
    case AttachWantCheck(_, _) => AttachGroup
    case AttachCheck(_, _) => AttachGroup
    case AttachDecide(_, _, _) => AttachGroup
    case FinishWantCell(_) => FinishGroup
    case FinishWantCheck(_) => FinishGroup
    case FinishCheck(_) => FinishGroup
    case FinishFlag(_, _) => FinishGroup
    case FinishWantOwner(_) => FinishGroup
    case FinishOwner(_) => FinishGroup
    case FinishAction(_) => FinishGroup
    case FinishWantEvict(_, _) => FinishGroup
    case FinishEvict(_, _) => FinishGroup
    case FinishWantDrop(_, _) => FinishGroup
    case FinishDrop(_, _) => FinishGroup
    case FinishRelease(_, _) => FinishGroup
    case RetryWant => RetryGroup
    case RetrySnapshot => RetryGroup
    case RetryNext(_) => RetryGroup
    case RetryWantClients(_, _, _) => RetryGroup
    case RetryLook(_, _, _) => RetryGroup
    case _ => PlainGroup
  }

  function EffectOf(tb: Tables, pc: Pc, c: Choice): Effect {
    match GroupOf(pc)
    case PlainGroup => PlainEffect(tb, pc, c)
    case AdmitGroup => AdmitEffect(tb, pc, c)
    case HostGroup => HostEffect(tb, pc)
    case AttachGroup => AttachEffect(tb, pc, c)
    case FinishGroup => FinishEffect(tb, pc, c)
    case RetryGroup => RetryEffect(tb, pc, c)
  }

  // A lock is granted only while it is free.
  predicate Granted(s: State, move: LockMove) {
    match move
    case TakeClients => s.clientsLock.None?
    case TakeReservations => s.reservationsLock.None?
    case TakeCell(r) => r !in s.cellLocks
    case _ => true
  }

  predicate CanStep(s: State, t: Tid, c: Choice) {
    ChoiceFits(s.world.tables, PcOf(s, t), c) && Granted(s, EffectOf(s.world.tables, PcOf(s, t), c).move)
  }

  function Moved(s: State, t: Tid, move: LockMove): State {
    match move
    case KeepLocks => s
    case TakeClients => s.(clientsLock := Some(t))
    case TakeReservations => s.(reservationsLock := Some(t))
    case TakeCell(r) => s.(cellLocks := s.cellLocks[r := t])
    case DropClients => s.(clientsLock := None)
    case DropReservations => s.(reservationsLock := None)
    case DropCell(r) => s.(cellLocks := s.cellLocks - {r})
  }

  function Changed(tb: Tables, change: Change): Tables {
    match change
    case Unchanged => tb
    case ClientsSet(clients) => tb.(clients := clients)
    case Retired(client) => tb.(retiring := tb.retiring + {client})
    case Allocated(dir, r, fenced) =>
      tb.(reservations := tb.reservations[dir := r], cells := tb.cells[r := Cell(None, fenced)])
    case FenceRaised(r) => WithCell(tb, r, Cell(ActionOf(tb, r), true))
    case FenceLowered(r) => WithCell(tb, r, Cell(ActionOf(tb, r), false))
    case ActionSet(r, action) => WithCell(tb, r, Cell(Some(action), Fenced(tb, r)))
    case Removed(dir, r, how) =>
      WithoutReservation(
        WithCell(tb, r, Cell(ActionOf(tb, r), if how.ByHost? then false else Fenced(tb, r))), dir)
  }

  function Advanced(w: World, change: Change): World {
    World(Changed(w.tables, change),
          if change.Allocated? then w.home[change.r := change.dir] else w.home,
          if change.Removed? then w.removed[change.r := change.how] else w.removed)
  }

  function Perform(s: State, t: Tid, e: Effect): State {
    Moved(s, t, e.move).(world := Advanced(s.world, e.change), pcs := s.pcs[t := e.pc])
  }

  function Step(s: State, t: Tid, c: Choice): State {
    Perform(s, t, EffectOf(s.world.tables, PcOf(s, t), c))
  }
}
