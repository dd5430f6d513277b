/**
What holds in every interleaving of the table's lock steps. The proof is rely and
guarantee: each step keeps the stepping thread's own facts, and promises the other
threads only changes their facts survive.
*/
module TableInvariants {
  import opened Prelude
  import opened TableOperations
  import opened TableSteps

  // `r` is the reservation its directory stores.
  predicate Stored(w: World, r: ResId) {
    r in w.home && Current(w.tables, w.home[r], r)
  }

  ghost predicate ClientsLockMatches(s: State) {
    forall t: Tid :: s.clientsLock == Some(t) <==> HoldsClients(PcOf(s, t))
  }

  ghost predicate ReservationsLockMatches(s: State) {
    forall t: Tid :: s.reservationsLock == Some(t) <==> HoldsReservations(PcOf(s, t))
  }

  ghost predicate CellLocksMatch(s: State) {
    forall t: Tid, r: ResId :: (r in s.cellLocks && s.cellLocks[r] == t) <==> HoldsCell(PcOf(s, t)) == Some(r)
  }

  // Every reservation is stored under the one directory it was made for or was
  // removed, never both; a fenced one is stored; a removed one still carries exactly
  // the action its remover ran to true, or none.
  ghost predicate RecordsMatch(w: World) {
    && w.home.Keys == w.tables.cells.Keys
    && (forall d :: d in w.tables.reservations ==>
          w.tables.reservations[d] in w.home && w.home[w.tables.reservations[d]] == d)
    && (forall r :: r in w.home ==> (Stored(w, r) <==> r !in w.removed))
    && w.removed.Keys <= w.home.Keys
    && (forall r :: r in w.home && Fenced(w.tables, r) ==> Stored(w, r))
    && (forall r :: r in w.removed ==> ActionOf(w.tables, r) == ActionAtRemoval(w.removed[r]))
  }

  function ActionAtRemoval(how: Removal): Option<ActionId> {
    if how.ByFinish? then how.saw else None
  }

  // What a thread may rely on at one point of its call: the reservation it found
  // stored (and still holds the cell lock of), the action it saw succeed there, the
  // reservations it found replaced, and the directory its current one was made for.
  datatype Facts = Facts(
    stored: Option<(Dir, ResId)>,
    saw: Option<Option<ActionId>>,
    gone: set<ResId>,
    made: Option<(Dir, ResId)>)

  const NOTHING := Facts(None, None, {}, None)

  function FactsOf(pc: Pc): Facts {
    match pc
    case AttachWant(attach) => NOTHING.(gone := attach.stale)
    case AttachObtain(attach) => NOTHING.(gone := attach.stale)
    case AttachWantCell(attach, r) => Facts(None, None, attach.stale, Some((attach.dir, r)))
    case AttachWantCheck(attach, r) => Facts(None, None, attach.stale, Some((attach.dir, r)))
    case AttachCheck(attach, r) => Facts(None, None, attach.stale, Some((attach.dir, r)))
    case AttachDecide(attach, r, current) =>
      Facts(if current then Some((attach.dir, r)) else None, None,
            if current then attach.stale else attach.stale + {r}, Some((attach.dir, r)))
    case FinishFlag(call, current) => NOTHING.(stored := if current then Some((call.dir, call.r)) else None)
    case FinishWantOwner(call) => NOTHING.(stored := Some((call.dir, call.r)))
    case FinishOwner(call) => NOTHING.(stored := Some((call.dir, call.r)))
    case FinishAction(call) => NOTHING.(stored := Some((call.dir, call.r)))
    case FinishWantEvict(call, saw) => NOTHING.(stored := Some((call.dir, call.r)), saw := Some(saw))
    case FinishEvict(call, saw) => NOTHING.(stored := Some((call.dir, call.r)), saw := Some(saw))
    case FinishWantDrop(call, saw) => NOTHING.(stored := Some((call.dir, call.r)), saw := Some(saw))
    case FinishDrop(call, saw) => NOTHING.(stored := Some((call.dir, call.r)), saw := Some(saw))
    case _ => NOTHING
  }

  ghost predicate FactsHold(w: World, facts: Facts) {
    && (facts.stored.Some? ==> StoredAt(w, facts.stored.value.0, facts.stored.value.1))
    && (facts.saw.Some? && facts.stored.Some? ==>
          ActionOf(w.tables, facts.stored.value.1) == facts.saw.value)
    && facts.gone <= w.removed.Keys
    && (facts.made.Some? ==>
          facts.made.value.1 in w.home && w.home[facts.made.value.1] == facts.made.value.0)
  }

  predicate StoredAt(w: World, dir: Dir, r: ResId) {
    Stored(w, r) && w.home[r] == dir
  }

  // An attempt never chases a reservation its call already found replaced.
  predicate ChasesFresh(pc: Pc) {
    match pc
    case AttachWantCell(attach, r) => r !in attach.stale
    case AttachWantCheck(attach, r) => r !in attach.stale
    case AttachCheck(attach, r) => r !in attach.stale
    case AttachDecide(attach, r, _) => r !in attach.stale
    case _ => true
  }

  ghost predicate ThreadKnows(w: World, pc: Pc) {
    FactsHold(w, FactsOf(pc)) && ChasesFresh(pc)
  }

  ghost predicate Inv(s: State) {
    && ClientsLockMatches(s) && ReservationsLockMatches(s) && CellLocksMatch(s)
    && RecordsMatch(s.world)
    && forall t: Tid :: ThreadKnows(s.world, PcOf(s, t))
  }

  lemma StartHasInv()
    ensures Inv(START)
  {
  }

  // --- locks ---

  predicate ClientsMove(pc: Pc, e: Effect) {
    && (e.move.TakeClients? ==> !HoldsClients(pc) && HoldsClients(e.pc))
    && (e.move.DropClients? ==> HoldsClients(pc) && !HoldsClients(e.pc))
    && (!e.move.TakeClients? && !e.move.DropClients? ==> HoldsClients(pc) == HoldsClients(e.pc))
  }

  predicate ReservationsMove(pc: Pc, e: Effect) {
    && (e.move.TakeReservations? ==> !HoldsReservations(pc) && HoldsReservations(e.pc))
    && (e.move.DropReservations? ==> HoldsReservations(pc) && !HoldsReservations(e.pc))
    && (!e.move.TakeReservations? && !e.move.DropReservations? ==>
          HoldsReservations(pc) == HoldsReservations(e.pc))
  }

  predicate CellMove(pc: Pc, e: Effect) {
    && (e.move.TakeCell? ==> HoldsCell(pc).None? && HoldsCell(e.pc) == Some(e.move.r))
    && (e.move.DropCell? ==> HoldsCell(pc) == Some(e.move.r) && HoldsCell(e.pc).None?)
    && (!e.move.TakeCell? && !e.move.DropCell? ==> HoldsCell(pc) == HoldsCell(e.pc))
  }

  lemma PerformKeepsClientsLock(s: State, t: Tid, e: Effect)
    requires ClientsLockMatches(s) && Granted(s, e.move)
    requires ClientsMove(PcOf(s, t), e)
    ensures ClientsLockMatches(Perform(s, t, e))
  {
    forall u: Tid ensures PcOf(Perform(s, t, e), u) == if u == t then e.pc else PcOf(s, u) {}
  }

  lemma PerformKeepsReservationsLock(s: State, t: Tid, e: Effect)
    requires ReservationsLockMatches(s) && Granted(s, e.move)
    requires ReservationsMove(PcOf(s, t), e)
    ensures ReservationsLockMatches(Perform(s, t, e))
  {
    forall u: Tid ensures PcOf(Perform(s, t, e), u) == if u == t then e.pc else PcOf(s, u) {}
  }

  lemma PerformKeepsCellLocks(s: State, t: Tid, e: Effect)
    requires CellLocksMatch(s) && Granted(s, e.move)
    requires CellMove(PcOf(s, t), e)
    ensures CellLocksMatch(Perform(s, t, e))
  {
    forall u: Tid ensures PcOf(Perform(s, t, e), u) == if u == t then e.pc else PcOf(s, u) {}
  }

  // --- records ---

  // The change is one a step may make: an allocation takes an unused id and an empty
  // slot, a fence or an action goes on a stored reservation, and a removal takes one
  // that is stored and unfenced, or confirmed by the host, with its action as claimed.
  ghost predicate Sound(w: World, change: Change) {
    match change
    case Allocated(dir, r, _) => r !in w.home && dir !in w.tables.reservations
    case FenceRaised(r) => Stored(w, r)
    case FenceLowered(r) => Stored(w, r)
    case ActionSet(r, _) => Stored(w, r)
    case Removed(dir, r, how) =>
      StoredAt(w, dir, r) && ActionOf(w.tables, r) == ActionAtRemoval(how)
      && (how.ByFinish? ==> !Fenced(w.tables, r))
    case _ => true
  }

  // The cell whose lock the change needs, if it needs one.
  function Needs(change: Change): Option<ResId> {
    match change
    case ActionSet(r, _) => Some(r)
    case Removed(_, r, _) => Some(r)
    case FenceLowered(r) => Some(r)
    case _ => None
  }

  // What a change does to everyone else's world: it allocates and removes, but a cell's
  // action changes, and a reservation leaves, only under that cell's lock.
  ghost predicate Spares(w: World, w': World, needed: Option<ResId>) {
    && (forall r :: r in w.home ==> r in w'.home && w'.home[r] == w.home[r])
    && (forall r :: r in w.removed ==> r in w'.removed && w'.removed[r] == w.removed[r])
    && (forall r :: r in w.home && needed != Some(r) ==>
          (Stored(w, r) ==> Stored(w', r)) && ActionOf(w'.tables, r) == ActionOf(w.tables, r))
  }

  // The effect moves locks as the two points say.
  predicate MovesMatch(pc: Pc, e: Effect) {
    ClientsMove(pc, e) && ReservationsMove(pc, e) && CellMove(pc, e)
  }

  // It makes a change it may, holding the cell that change needs.
  ghost predicate ChangeFits(w: World, pc: Pc, e: Effect) {
    Sound(w, e.change) && (Needs(e.change).Some? ==> HoldsCell(pc) == Needs(e.change))
  }

  lemma PlainMovesMatch(tb: Tables, pc: Pc, c: Choice)
    requires ChoiceFits(tb, pc, c) && GroupOf(pc) == PlainGroup
    ensures MovesMatch(pc, PlainEffect(tb, pc, c))
  {
  }

  lemma AdmitMovesMatch(tb: Tables, pc: Pc, c: Choice)
    requires ChoiceFits(tb, pc, c) && GroupOf(pc) == AdmitGroup
    ensures MovesMatch(pc, AdmitEffect(tb, pc, c))
  {
  }

  lemma HostMovesMatch(tb: Tables, pc: Pc, c: Choice)
    requires ChoiceFits(tb, pc, c) && GroupOf(pc) == HostGroup
    ensures MovesMatch(pc, HostEffect(tb, pc))
  {
  }

  lemma AttachMovesMatch(tb: Tables, pc: Pc, c: Choice)
    requires ChoiceFits(tb, pc, c) && GroupOf(pc) == AttachGroup
    ensures MovesMatch(pc, AttachEffect(tb, pc, c))
  {
  }

  lemma FinishCellMoves(tb: Tables, pc: Pc, c: Choice)
    requires GroupOf(pc) == FinishGroup
    ensures CellMove(pc, FinishEffect(tb, pc, c))
  {
  }

  lemma FinishMapMoves(tb: Tables, pc: Pc, c: Choice)
    requires GroupOf(pc) == FinishGroup
    ensures ClientsMove(pc, FinishEffect(tb, pc, c)) && ReservationsMove(pc, FinishEffect(tb, pc, c))
  {
  }

  lemma FinishMovesMatch(tb: Tables, pc: Pc, c: Choice)
    requires GroupOf(pc) == FinishGroup
    ensures MovesMatch(pc, FinishEffect(tb, pc, c))
  {
    FinishCellMoves(tb, pc, c);
    FinishMapMoves(tb, pc, c);
  }

  lemma RetryMovesMatch(tb: Tables, pc: Pc, c: Choice)
    requires ChoiceFits(tb, pc, c) && GroupOf(pc) == RetryGroup
    ensures MovesMatch(pc, RetryEffect(tb, pc, c))
  {
  }

  lemma PlainChangeFits(w: World, pc: Pc, c: Choice)
    requires RecordsMatch(w) && ThreadKnows(w, pc) && ChoiceFits(w.tables, pc, c)
    requires GroupOf(pc) == PlainGroup
    ensures ChangeFits(w, pc, PlainEffect(w.tables, pc, c))
  {
  }

  lemma AdmitChangeFits(w: World, pc: Pc, c: Choice)
    requires RecordsMatch(w) && ThreadKnows(w, pc) && ChoiceFits(w.tables, pc, c)
    requires GroupOf(pc) == AdmitGroup
    ensures ChangeFits(w, pc, AdmitEffect(w.tables, pc, c))
  {
  }

  lemma HostChangeFits(w: World, pc: Pc, c: Choice)
    requires RecordsMatch(w) && ThreadKnows(w, pc) && ChoiceFits(w.tables, pc, c)
    requires GroupOf(pc) == HostGroup
    ensures ChangeFits(w, pc, HostEffect(w.tables, pc))
  {
  }

  lemma AttachChangeFits(w: World, pc: Pc, c: Choice)
    requires RecordsMatch(w) && ThreadKnows(w, pc) && ChoiceFits(w.tables, pc, c)
    requires GroupOf(pc) == AttachGroup
    ensures ChangeFits(w, pc, AttachEffect(w.tables, pc, c))
  {
  }

  lemma FinishChangeFits(w: World, pc: Pc, c: Choice)
    requires RecordsMatch(w) && ThreadKnows(w, pc) && ChoiceFits(w.tables, pc, c)
    requires GroupOf(pc) == FinishGroup
    ensures ChangeFits(w, pc, FinishEffect(w.tables, pc, c))
  {
  }

  lemma RetryChangeFits(w: World, pc: Pc, c: Choice)
    requires RecordsMatch(w) && ThreadKnows(w, pc) && ChoiceFits(w.tables, pc, c)
    requires GroupOf(pc) == RetryGroup
    ensures ChangeFits(w, pc, RetryEffect(w.tables, pc, c))
  {
  }

  lemma EffectMovesMatch(tb: Tables, pc: Pc, c: Choice)
    requires ChoiceFits(tb, pc, c)
    ensures MovesMatch(pc, EffectOf(tb, pc, c))
  {
    match GroupOf(pc) {
      case PlainGroup => PlainMovesMatch(tb, pc, c);
      case AdmitGroup => AdmitMovesMatch(tb, pc, c);
      case HostGroup => HostMovesMatch(tb, pc, c);
      case AttachGroup => AttachMovesMatch(tb, pc, c);
      case FinishGroup => FinishMovesMatch(tb, pc, c);
      case RetryGroup => RetryMovesMatch(tb, pc, c);
    }
  }

  lemma EffectChangeFits(w: World, pc: Pc, c: Choice)
    requires RecordsMatch(w) && ThreadKnows(w, pc) && ChoiceFits(w.tables, pc, c)
    ensures ChangeFits(w, pc, EffectOf(w.tables, pc, c))
  {
    match GroupOf(pc) {
      case PlainGroup => PlainChangeFits(w, pc, c);
      case AdmitGroup => AdmitChangeFits(w, pc, c);
      case HostGroup => HostChangeFits(w, pc, c);
      case AttachGroup => AttachChangeFits(w, pc, c);
      case FinishGroup => FinishChangeFits(w, pc, c);
      case RetryGroup => RetryChangeFits(w, pc, c);
    }
  }

  lemma AllocationKeepsRecords(w: World, change: Change)
    requires RecordsMatch(w) && Sound(w, change) && change.Allocated?
    ensures RecordsMatch(Advanced(w, change))
  {
    var w' := Advanced(w, change);
    forall r | r in w.home ensures Stored(w', r) == Stored(w, r) {}
    assert Stored(w', change.r);
  }

  lemma AllocationSparesOthers(w: World, change: Change)
    requires RecordsMatch(w) && Sound(w, change) && change.Allocated?
    ensures Spares(w, Advanced(w, change), Needs(change))
  {
    var w' := Advanced(w, change);
    forall r | r in w.home ensures Stored(w', r) == Stored(w, r) {}
    assert Stored(w', change.r);
  }

  lemma RemovalKeepsRecords(w: World, change: Change)
    requires RecordsMatch(w) && Sound(w, change) && change.Removed?
    ensures RecordsMatch(Advanced(w, change))
  {
    var w' := Advanced(w, change);
    forall r | r in w.home && r != change.r ensures Stored(w', r) == Stored(w, r) {}
    assert !Stored(w', change.r);
  }

  lemma RemovalSparesOthers(w: World, change: Change)
    requires RecordsMatch(w) && Sound(w, change) && change.Removed?
    ensures Spares(w, Advanced(w, change), Needs(change))
  {
    var w' := Advanced(w, change);
    forall r | r in w.home && r != change.r ensures Stored(w', r) == Stored(w, r) {}
    assert !Stored(w', change.r);
  }

  lemma CellChangeKeepsRecords(w: World, change: Change)
    requires RecordsMatch(w) && Sound(w, change)
    requires change.FenceRaised? || change.FenceLowered? || change.ActionSet?
    ensures RecordsMatch(Advanced(w, change))
  {
    var w' := Advanced(w, change);
    assert w'.home == w.home && w'.removed == w.removed;
    forall r ensures Stored(w', r) == Stored(w, r) {}
  }

  lemma CellChangeSparesOthers(w: World, change: Change)
    requires RecordsMatch(w) && Sound(w, change)
    requires change.FenceRaised? || change.FenceLowered? || change.ActionSet?
    ensures Spares(w, Advanced(w, change), Needs(change))
  {
    var w' := Advanced(w, change);
    assert w'.home == w.home && w'.removed == w.removed;
    forall r ensures Stored(w', r) == Stored(w, r) {}
  }

  lemma ClientChangeKeepsRecords(w: World, change: Change)
    requires RecordsMatch(w) && (change.Unchanged? || change.ClientsSet? || change.Retired?)
    ensures RecordsMatch(Advanced(w, change))
  {
    var w' := Advanced(w, change);
    forall r ensures Stored(w', r) == Stored(w, r) {}
  }

  lemma ClientChangeSparesOthers(w: World, change: Change)
    requires RecordsMatch(w) && (change.Unchanged? || change.ClientsSet? || change.Retired?)
    ensures Spares(w, Advanced(w, change), Needs(change))
  {
    var w' := Advanced(w, change);
    forall r ensures Stored(w', r) == Stored(w, r) {}
  }

  lemma SoundChangeKeepsRecords(w: World, change: Change)
    requires RecordsMatch(w) && Sound(w, change)
    ensures RecordsMatch(Advanced(w, change)) && Spares(w, Advanced(w, change), Needs(change))
  {
    match change {
      case Allocated(_, _, _) =>
        AllocationKeepsRecords(w, change);
        AllocationSparesOthers(w, change);
      case Removed(_, _, _) =>
        RemovalKeepsRecords(w, change);
        RemovalSparesOthers(w, change);
      case Unchanged =>
        ClientChangeKeepsRecords(w, change);
        ClientChangeSparesOthers(w, change);
      case ClientsSet(_) =>
        ClientChangeKeepsRecords(w, change);
        ClientChangeSparesOthers(w, change);
      case Retired(_) =>
        ClientChangeKeepsRecords(w, change);
        ClientChangeSparesOthers(w, change);
      case _ =>
        CellChangeKeepsRecords(w, change);
        CellChangeSparesOthers(w, change);
    }
  }

  // --- what threads know ---

  lemma StoredFactIsLocked(pc: Pc)
    ensures FactsOf(pc).stored.Some? ==> HoldsCell(pc) == Some(FactsOf(pc).stored.value.1)
  {
  }

  lemma SparedFactsHold(w: World, w': World, needed: Option<ResId>, facts: Facts)
    requires FactsHold(w, facts) && Spares(w, w', needed)
    requires facts.stored.Some? ==> needed != Some(facts.stored.value.1)
    ensures FactsHold(w', facts)
  {
  }

  // What a thread knows next, it knew, or has just read.
  lemma AttacherFacts(w: World, pc: Pc, c: Choice)
    requires RecordsMatch(w) && ThreadKnows(w, pc) && ChoiceFits(w.tables, pc, c)
    requires GroupOf(pc) == AttachGroup && !pc.AttachObtain?
    ensures var e := EffectOf(w.tables, pc, c);
            && FactsHold(w, FactsOf(e.pc))
            && ChasesFresh(e.pc)
            && (FactsOf(e.pc).stored.Some? ==> Needs(e.change).None?)
  {
  }

  // A finish call keeps what it knew, or adds what it has just read.
  predicate FactsFlow(tb: Tables, was: Facts, now: Facts) {
    && now.gone == {} && now.made.None?
    && (now.stored.Some? ==>
          now.stored == was.stored || Current(tb, now.stored.value.0, now.stored.value.1))
    && (now.saw.Some? ==>
          now.stored.Some?
          && ((now.stored == was.stored && now.saw == was.saw)
              || now.saw.value == ActionOf(tb, now.stored.value.1)))
  }

  lemma FinishFactsFlow(tb: Tables, pc: Pc, c: Choice)
    requires GroupOf(pc) == FinishGroup
    ensures FactsFlow(tb, FactsOf(pc), FactsOf(FinishEffect(tb, pc, c).pc))
  {
  }

  lemma FinishChangesLast(tb: Tables, pc: Pc, c: Choice)
    requires GroupOf(pc) == FinishGroup
    ensures var e := FinishEffect(tb, pc, c);
            FactsOf(e.pc).stored.Some? ==> Needs(e.change).None?
  {
  }

  lemma FlowingFactsHold(w: World, was: Facts, now: Facts)
    requires RecordsMatch(w) && FactsHold(w, was) && FactsFlow(w.tables, was, now)
    ensures FactsHold(w, now)
  {
  }

  lemma FinisherFacts(w: World, pc: Pc, c: Choice)
    requires FactsHold(w, FactsOf(pc)) && RecordsMatch(w) && GroupOf(pc) == FinishGroup
    ensures var e := FinishEffect(w.tables, pc, c);
            && FactsHold(w, FactsOf(e.pc))
            && (FactsOf(e.pc).stored.Some? ==> Needs(e.change).None?)
  {
    FinishFactsFlow(w.tables, pc, c);
    FinishChangesLast(w.tables, pc, c);
    FlowingFactsHold(w, FactsOf(pc), FactsOf(FinishEffect(w.tables, pc, c).pc));
  }

  lemma FinisherChases(tb: Tables, pc: Pc, c: Choice)
    requires GroupOf(pc) == FinishGroup
    ensures ChasesFresh(FinishEffect(tb, pc, c).pc)
  {
  }

  lemma OtherFacts(tb: Tables, pc: Pc, c: Choice)
    requires ChoiceFits(tb, pc, c) && GroupOf(pc) != AttachGroup && GroupOf(pc) != FinishGroup
    ensures var next := EffectOf(tb, pc, c).pc; FactsOf(next) == NOTHING && ChasesFresh(next)
  {
  }

  lemma NextFacts(w: World, pc: Pc, c: Choice)
    requires RecordsMatch(w) && ThreadKnows(w, pc) && ChoiceFits(w.tables, pc, c)
    requires !pc.AttachObtain?
    ensures var e := EffectOf(w.tables, pc, c);
            && FactsHold(w, FactsOf(e.pc))
            && ChasesFresh(e.pc)
            && (FactsOf(e.pc).stored.Some? ==> Needs(e.change).None?)
  {
    match GroupOf(pc) {
      case AttachGroup => AttacherFacts(w, pc, c);
      case FinishGroup =>
        FinisherFacts(w, pc, c);
        FinisherChases(w.tables, pc, c);
      case _ => OtherFacts(w.tables, pc, c);
    }
  }

  lemma ObtainedFacts(w: World, pc: Pc, c: Choice)
    requires RecordsMatch(w) && ThreadKnows(w, pc) && ChoiceFits(w.tables, pc, c)
    requires pc.AttachObtain?
    ensures var e := EffectOf(w.tables, pc, c);
            ThreadKnows(Advanced(w, e.change), e.pc)
  {
  }

  lemma StepperKnows(w: World, pc: Pc, c: Choice)
    requires RecordsMatch(w) && ThreadKnows(w, pc) && ChoiceFits(w.tables, pc, c)
    ensures var e := EffectOf(w.tables, pc, c);
            ThreadKnows(Advanced(w, e.change), e.pc)
  {
    if pc.AttachObtain? {
      ObtainedFacts(w, pc, c);
    } else {
      var e := EffectOf(w.tables, pc, c);
      NextFacts(w, pc, c);
      EffectChangeFits(w, pc, c);
      SoundChangeKeepsRecords(w, e.change);
      SparedFactsHold(w, Advanced(w, e.change), Needs(e.change), FactsOf(e.pc));
    }
  }

  lemma OthersKnow(s: State, t: Tid, c: Choice, u: Tid)
    requires Inv(s) && CanStep(s, t, c) && u != t
    ensures var e := EffectOf(s.world.tables, PcOf(s, t), c);
            ThreadKnows(Advanced(s.world, e.change), PcOf(s, u))
  {
    var pc, e := PcOf(s, u), EffectOf(s.world.tables, PcOf(s, t), c);
    EffectChangeFits(s.world, PcOf(s, t), c);
    SoundChangeKeepsRecords(s.world, e.change);
    StoredFactIsLocked(pc);
    SparedFactsHold(s.world, Advanced(s.world, e.change), Needs(e.change), FactsOf(pc));
  }

  lemma StepKeepsLocks(s: State, t: Tid, c: Choice)
    requires Inv(s) && CanStep(s, t, c)
    ensures var s' := Step(s, t, c);
            ClientsLockMatches(s') && ReservationsLockMatches(s') && CellLocksMatch(s')
  {
    var pc, e := PcOf(s, t), EffectOf(s.world.tables, PcOf(s, t), c);
    EffectMovesMatch(s.world.tables, pc, c);
    PerformKeepsClientsLock(s, t, e);
    PerformKeepsReservationsLock(s, t, e);
    PerformKeepsCellLocks(s, t, e);
  }

  lemma StepKeepsInv(s: State, t: Tid, c: Choice)
    requires Inv(s) && CanStep(s, t, c)
    ensures Inv(Step(s, t, c))
  {
    var e := EffectOf(s.world.tables, PcOf(s, t), c);
    StepKeepsLocks(s, t, c);
    EffectChangeFits(s.world, PcOf(s, t), c);
    SoundChangeKeepsRecords(s.world, e.change);
    forall u: Tid ensures ThreadKnows(Step(s, t, c).world, PcOf(Step(s, t, c), u)) {
      if u == t {
        StepperKnows(s.world, PcOf(s, t), c);
      } else {
        OthersKnow(s, t, c, u);
      }
    }
  }
}
