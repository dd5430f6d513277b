/**
A call that no other call disturbs: its lock steps, taken one after another, come to
exactly what the operation run in one piece does, whatever its callbacks answer.
*/
module TableAlone {
  import opened Prelude
  import opened TableOperations
  import opened TableSteps
  import opened TableInvariants
  import opened TableTheorems

  function Alone(tb: Tables, pc: Pc, cs: seq<Choice>): (Tables, Pc)
    decreases |cs|
  {
    if cs == [] then (tb, pc)
    else
      var e := EffectOf(tb, pc, cs[0]);
      Alone(Changed(tb, e.change), e.pc, cs[1..])
  }

  ghost predicate Fits(tb: Tables, pc: Pc, cs: seq<Choice>)
    decreases |cs|
  {
    cs == [] ||
    (ChoiceFits(tb, pc, cs[0])
     && var e := EffectOf(tb, pc, cs[0]); Fits(Changed(tb, e.change), e.pc, cs[1..]))
  }

  // The steps `cs` take the call from `pc` to `end`.
  ghost predicate Leads(tb: Tables, pc: Pc, cs: seq<Choice>, end: (Tables, Pc)) {
    Fits(tb, pc, cs) && Alone(tb, pc, cs) == end
  }

  lemma First(tb: Tables, pc: Pc, c: Choice, rest: seq<Choice>, end: (Tables, Pc))
    requires ChoiceFits(tb, pc, c)
    requires var e := EffectOf(tb, pc, c); Leads(Changed(tb, e.change), e.pc, rest, end)
    ensures Leads(tb, pc, [c] + rest, end)
  {
    assert ([c] + rest)[1..] == rest;
  }

  // `First`, for a step of `finish_cleanup`.
  lemma FirstFinish(tb: Tables, pc: Pc, c: Choice, rest: seq<Choice>, end: (Tables, Pc))
    requires GroupOf(pc) == FinishGroup && (if pc.FinishAction? then c.Answer? else c.Go?)
    requires var e := FinishEffect(tb, pc, c); Leads(Changed(tb, e.change), e.pc, rest, end)
    ensures Leads(tb, pc, [c] + rest, end)
  {
    First(tb, pc, c, rest, end);
  }

  // --- what an undisturbed call comes to ---

  // The steps `cs` take the call from `pc` to its answer, and no further.
  ghost predicate Ends(tb: Tables, pc: Pc, cs: seq<Choice>, end: (Tables, Pc))
    decreases |cs|
  {
    if pc.Replied? then cs == [] && end == (tb, pc)
    else
      && cs != [] && ChoiceFits(tb, pc, cs[0])
      && var e := EffectOf(tb, pc, cs[0]); Ends(Changed(tb, e.change), e.pc, cs[1..], end)
  }

  lemma {:induction false} EndingLeads(tb: Tables, pc: Pc, cs: seq<Choice>, end: (Tables, Pc))
    requires Ends(tb, pc, cs, end)
    ensures Leads(tb, pc, cs, end) && end.1.Replied?
    decreases |cs|
  {
    if !pc.Replied? {
      var e := EffectOf(tb, pc, cs[0]);
      EndingLeads(Changed(tb, e.change), e.pc, cs[1..], end);
    }
  }

  // What the environment answers in the course of one call: the reservations whose
  // actions succeed, whether the directory is removed, what the constructor returns,
  // and the id of a reservation that is allocated.
  datatype Plan = Plan(succeeds: set<ResId>, removed: bool, created: Option<ClientId>, unused: ResId)

  // Every stored reservation has its cell, and its one directory.
  ghost predicate WellFormed(tb: Tables) {
    && (forall d :: d in tb.reservations ==> tb.reservations[d] in tb.cells)
    && (forall d, e ::
          d in tb.reservations && e in tb.reservations && tb.reservations[d] == tb.reservations[e] ==> d == e)
  }

  // A retry's own reservations, all still stored.
  ghost predicate AllStored(tb: Tables, orphans: set<(Dir, ResId)>) {
    forall o :: o in orphans ==> Current(tb, o.0, o.1)
  }

  function EveryReservation(tb: Tables): set<(Dir, ResId)> {
    set d | d in tb.reservations :: (d, tb.reservations[d])
  }

  // What the retry of `orphans` leaves behind.
  function Retried(tb: Tables, orphans: set<(Dir, ResId)>, succeeds: set<ResId>): Tables {
    tb.(reservations := map d | d in tb.reservations
                               && !((d, tb.reservations[d]) in orphans && Releases(tb, d, succeeds))
                            :: tb.reservations[d])
  }

  // What a cleanup comes to that has done its work, its retry's other reservations included.
  function Resumed(tb: Tables, call: FinishCall, ok: bool, plan: Plan): (Tables, Pc) {
    if call.orphans.Some? then (Retried(tb, call.orphans.value, plan.succeeds), Replied(NoReply))
    else (tb, Replied(Flag(ok)))
  }

  function Finished(tb: Tables, call: FinishCall, plan: Plan): (Tables, Pc) {
    var (tb', ok) := Finish(tb, call.dir, call.client, call.r, call.r in plan.succeeds);
    Resumed(tb', call, ok, plan)
  }

  function Admitting(tb: Tables, dir: Dir, removed: bool, plan: Plan): (Tables, Pc) {
    var (tb', admission) := Admit(tb, dir, removed, plan.created);
    (tb', Replied(AdmissionReply(admission)))
  }

  function Hosted(tb: Tables, dir: Dir, r: ResId): (Tables, Pc) {
    var (tb', ok) := CompleteHost(tb, dir, r);
    (tb', Replied(Flag(ok)))
  }

  function Attached(tb: Tables, attach: AttachCall, plan: Plan): (Tables, Pc) {
    var (tb', r) := Attach(tb, attach.dir, attach.action, plan.unused);
    (tb', Replied(Token(r)))
  }

  function Reserved(tb: Tables, work: ReservationsWork, plan: Plan): (Tables, Pc) {
    match work
    case ObtainFor(dir) => var (tb', r) := Obtain(tb, dir, plan.unused); (tb', Replied(Token(r)))
    case RaiseFence(dir) => var (tb', r) := Fence(tb, dir, plan.unused); (tb', Replied(Token(r)))
    case Lookup(dir) => (tb, Replied(StoredToken(tb, dir)))
  }

  // Where an undisturbed call gets to from `pc`.
  function Expected(tb: Tables, pc: Pc, plan: Plan): (Tables, Pc) {
    match pc
    case ReservationsWant(work) => Reserved(tb, work, plan)
    case ReservationsHeld(work) => Reserved(tb, work, plan)
    case AdmitWant(dir) => Admitting(tb, dir, plan.removed, plan)
    case AdmitRemoved(dir) => Admitting(tb, dir, plan.removed, plan)
    case AdmitWantReservations(dir) => Admitting(tb, dir, false, plan)
    case AdmitLook(dir) => Admitting(tb, dir, false, plan)
    case AdmitDecide(dir, _) => Admitting(tb, dir, false, plan)
    case AdmitCreate(dir) => Admitting(tb, dir, false, plan)
    case HostWantCell(dir, r) => Hosted(tb, dir, r)
    case HostWantReservations(dir, r) => Hosted(tb, dir, r)
    case HostWork(dir, r) => Hosted(tb, dir, r)
    case HostRelease(_, ok) => (tb, Replied(Flag(ok)))
    case AttachWant(attach) => Attached(tb, attach, plan)
    case AttachObtain(attach) => Attached(tb, attach, plan)
    case AttachWantCell(attach, _) => Attached(tb, attach, plan)
    case AttachWantCheck(attach, _) => Attached(tb, attach, plan)
    case AttachCheck(attach, _) => Attached(tb, attach, plan)
    case AttachDecide(attach, _, _) => Attached(tb, attach, plan)
    case FinishWantCell(call) => Finished(tb, call, plan)
    case FinishWantCheck(call) => Finished(tb, call, plan)
    case FinishCheck(call) => Finished(tb, call, plan)
    case FinishFlag(call, _) => Finished(tb, call, plan)
    case FinishWantOwner(call) => Finished(tb, call, plan)
    case FinishOwner(call) => Finished(tb, call, plan)
    case FinishAction(call) => Finished(tb, call, plan)
    case FinishWantEvict(call, _) =>
      Resumed(WithoutReservation(WithoutClient(tb, call.dir), call.dir), call, true, plan)
    case FinishEvict(call, _) =>
      Resumed(WithoutReservation(WithoutClient(tb, call.dir), call.dir), call, true, plan)
    case FinishWantDrop(call, _) => Resumed(WithoutReservation(tb, call.dir), call, true, plan)
    case FinishDrop(call, _) => Resumed(WithoutReservation(tb, call.dir), call, true, plan)
    case FinishRelease(call, ok) => Resumed(tb, call, ok, plan)
    case RetryWant => (Retried(tb, EveryReservation(tb), plan.succeeds), Replied(NoReply))
    case RetrySnapshot => (Retried(tb, EveryReservation(tb), plan.succeeds), Replied(NoReply))
    case RetryNext(orphans) => (Retried(tb, orphans, plan.succeeds), Replied(NoReply))
    case RetryWantClients(dir, r, orphans) => (Retried(tb, orphans + {(dir, r)}, plan.succeeds), Replied(NoReply))
    case RetryLook(dir, r, orphans) => (Retried(tb, orphans + {(dir, r)}, plan.succeeds), Replied(NoReply))
    case _ => (tb, pc)
  }

  // A cleanup whose retry, if it belongs to one, has other reservations left.
  ghost predicate CallFits(tb: Tables, call: FinishCall) {
    call.orphans.Some? ==>
      && call.client.None? && AllStored(tb, call.orphans.value)
      && forall o :: o in call.orphans.value ==> o.0 != call.dir
  }

  ghost predicate Cleared(tb: Tables, call: FinishCall) {
    CallFits(tb, call) && Current(tb, call.dir, call.r) && !Fenced(tb, call.r)
  }

  ghost predicate OwnedToo(tb: Tables, call: FinishCall) {
    Cleared(tb, call) && (call.client.Some? ==> Owns(tb, call.dir, call.client.value))
  }

  ghost predicate RetryFits(tb: Tables, dir: Dir, r: ResId, orphans: set<(Dir, ResId)>) {
    AllStored(tb, orphans) && Current(tb, dir, r) && (dir, r) !in orphans
  }

  // What is true at each point of a call that nothing has disturbed.
  ghost predicate Undisturbed(tb: Tables, pc: Pc) {
    && WellFormed(tb)
    && match pc
       case Replied(_) => true
       case ReservationsWant(_) => true
       case ReservationsHeld(_) => true
       case AdmitWant(_) => true
       case AdmitRemoved(_) => true
       case AdmitWantReservations(_) => true
       case AdmitLook(_) => true
       case AdmitDecide(dir, reserved) => reserved == (dir in tb.reservations)
       case AdmitCreate(dir) => dir !in tb.reservations && dir !in tb.clients
       case HostWantCell(_, _) => true
       case HostWantReservations(_, _) => true
       case HostWork(_, _) => true
       case HostRelease(_, _) => true
       case AttachWant(_) => true
       case AttachObtain(_) => true
       case AttachWantCell(attach, r) => Current(tb, attach.dir, r)
       case AttachWantCheck(attach, r) => Current(tb, attach.dir, r)
       case AttachCheck(attach, r) => Current(tb, attach.dir, r)
       case AttachDecide(attach, r, current) => current && Current(tb, attach.dir, r)
       case FinishWantCell(call) => CallFits(tb, call)
       case FinishWantCheck(call) => CallFits(tb, call)
       case FinishCheck(call) => CallFits(tb, call)
       case FinishFlag(call, current) => CallFits(tb, call) && current == Current(tb, call.dir, call.r)
       case FinishWantOwner(call) => Cleared(tb, call) && call.client.Some?
       case FinishOwner(call) => Cleared(tb, call) && call.client.Some?
       case FinishAction(call) => OwnedToo(tb, call)
       case FinishWantEvict(call, _) => OwnedToo(tb, call) && call.client.Some?
       case FinishEvict(call, _) => OwnedToo(tb, call) && call.client.Some?
       case FinishWantDrop(call, _) => Cleared(tb, call)
       case FinishDrop(call, _) => Cleared(tb, call)
       case FinishRelease(call, _) => CallFits(tb, call)
       case RetryWant => true
       case RetrySnapshot => true
       case RetryNext(orphans) => AllStored(tb, orphans)
       case RetryWantClients(dir, r, orphans) => RetryFits(tb, dir, r, orphans)
       case RetryLook(dir, r, orphans) => RetryFits(tb, dir, r, orphans)
       case _ => false
  }

  // The plan, with what the choice `c` tells about it.
  function Told(pc: Pc, c: Choice, plan: Plan): Plan {
    match c
    case Answer(yes) =>
      if pc.AdmitRemoved? then plan.(removed := yes)
      else if pc.FinishAction? then
        plan.(succeeds := if yes then plan.succeeds + {pc.call.r} else plan.succeeds - {pc.call.r})
      else plan
    case Created(client) => plan.(created := client)
    case Allocate(unused) => plan.(unused := unused)
    case _ => plan
  }

  // One step of an undisturbed call: it stays undisturbed, and gets to the same place.
  ghost predicate Onward(tb: Tables, pc: Pc, c: Choice, e: Effect, plan: Plan) {
    && Undisturbed(Changed(tb, e.change), e.pc)
    && Expected(Changed(tb, e.change), e.pc, plan) == Expected(tb, pc, Told(pc, c, plan))
  }

  lemma ReservingGoesOn(tb: Tables, pc: Pc, c: Choice, plan: Plan)
    requires Undisturbed(tb, pc) && ChoiceFits(tb, pc, c) && (pc.ReservationsWant? || pc.ReservationsHeld?)
    ensures Onward(tb, pc, c, PlainEffect(tb, pc, c), plan)
  {
    if pc.ReservationsHeld? && c.Allocate? {
      assert tb.cells[c.unused := FRESH_CELL][c.unused := Cell(None, true)] == tb.cells[c.unused := Cell(None, true)];
    }
  }

  lemma AdmittingGoesOn(tb: Tables, pc: Pc, c: Choice, plan: Plan)
    requires Undisturbed(tb, pc) && ChoiceFits(tb, pc, c) && GroupOf(pc) == AdmitGroup
    ensures Onward(tb, pc, c, AdmitEffect(tb, pc, c), plan)
  {
  }

  lemma HostingGoesOn(tb: Tables, pc: Pc, c: Choice, plan: Plan)
    requires Undisturbed(tb, pc) && ChoiceFits(tb, pc, c) && GroupOf(pc) == HostGroup
    ensures Onward(tb, pc, c, HostEffect(tb, pc), plan)
  {
  }

  lemma AttachBegins(tb: Tables, pc: Pc, c: Choice, plan: Plan)
    requires Undisturbed(tb, pc) && ChoiceFits(tb, pc, c) && pc.AttachWant?
    ensures Onward(tb, pc, c, AttachEffect(tb, pc, c), plan)
  {
  }

  lemma ObtainingGoesOn(tb: Tables, pc: Pc, c: Choice, plan: Plan)
    requires Undisturbed(tb, pc) && ChoiceFits(tb, pc, c) && pc.AttachObtain?
    ensures Onward(tb, pc, c, AttachEffect(tb, pc, c), plan)
  {
  }

  lemma FollowingGoesOn(tb: Tables, pc: Pc, c: Choice, plan: Plan)
    requires Undisturbed(tb, pc) && ChoiceFits(tb, pc, c)
    requires pc.AttachWantCell? || pc.AttachWantCheck? || pc.AttachCheck?
    ensures Onward(tb, pc, c, AttachEffect(tb, pc, c), plan)
  {
  }

  lemma DecidingGoesOn(tb: Tables, pc: Pc, c: Choice, plan: Plan)
    requires Undisturbed(tb, pc) && ChoiceFits(tb, pc, c) && pc.AttachDecide?
    ensures Onward(tb, pc, c, AttachEffect(tb, pc, c), plan)
  {
  }

  lemma WaitsForOwner(tb: Tables, pc: Pc, c: Choice, plan: Plan)
    requires Undisturbed(tb, pc) && ChoiceFits(tb, pc, c)
    requires pc.FinishWantOwner?
    ensures Onward(tb, pc, c, FinishEffect(tb, pc, c), plan)
  {
  }

  lemma WaitsForEviction(tb: Tables, pc: Pc, c: Choice, plan: Plan)
    requires Undisturbed(tb, pc) && ChoiceFits(tb, pc, c)
    requires pc.FinishWantEvict?
    ensures Onward(tb, pc, c, FinishEffect(tb, pc, c), plan)
  {
  }

  lemma WaitsForDrop(tb: Tables, pc: Pc, c: Choice, plan: Plan)
    requires Undisturbed(tb, pc) && ChoiceFits(tb, pc, c)
    requires pc.FinishWantDrop?
    ensures Onward(tb, pc, c, FinishEffect(tb, pc, c), plan)
  {
  }

  lemma EnteringGoesOn(tb: Tables, pc: Pc, c: Choice, plan: Plan)
    requires Undisturbed(tb, pc) && ChoiceFits(tb, pc, c)
    requires pc.FinishWantCell? || pc.FinishWantCheck? || pc.FinishCheck?
    ensures Onward(tb, pc, c, FinishEffect(tb, pc, c), plan)
  {
  }

  lemma CheckingGoesOn(tb: Tables, pc: Pc, c: Choice, plan: Plan)
    requires Undisturbed(tb, pc) && ChoiceFits(tb, pc, c) && (pc.FinishFlag? || pc.FinishOwner?)
    ensures Onward(tb, pc, c, FinishEffect(tb, pc, c), plan)
  {
  }

  lemma ReleasingGoesOn(tb: Tables, pc: Pc, c: Choice, plan: Plan)
    requires Undisturbed(tb, pc) && ChoiceFits(tb, pc, c) && pc.FinishRelease?
    ensures Onward(tb, pc, c, FinishEffect(tb, pc, c), plan)
  {
  }

  lemma OtherReservations(tb: Tables, call: FinishCall, o: (Dir, ResId))
    requires WellFormed(tb) && Cleared(tb, call) && call.orphans.Some? && o in call.orphans.value
    ensures o.0 != call.dir && o.1 != call.r
  {
    assert Current(tb, o.0, o.1);
  }

  // An action's answer tells nothing about the retry's other reservations.
  lemma OtherAnswersStay(tb: Tables, call: FinishCall, tb': Tables, plan: Plan, told: Plan, ok: bool)
    requires WellFormed(tb) && Cleared(tb, call)
    requires tb' == tb || tb' == WithoutReservation(tb, call.dir)
    requires plan.succeeds - {call.r} == told.succeeds - {call.r}
    ensures Resumed(tb', call, ok, plan) == Resumed(tb', call, ok, told)
  {
    if call.orphans.Some? {
      forall d | d in tb'.reservations && (d, tb'.reservations[d]) in call.orphans.value
        ensures Releases(tb', d, plan.succeeds) == Releases(tb', d, told.succeeds)
      {
        OtherReservations(tb, call, (d, tb'.reservations[d]));
        assert tb'.reservations[d] in plan.succeeds <==> tb'.reservations[d] in plan.succeeds - {call.r};
        assert tb'.reservations[d] in told.succeeds <==> tb'.reservations[d] in told.succeeds - {call.r};
      }
      assert Retried(tb', call.orphans.value, plan.succeeds).reservations
             == Retried(tb', call.orphans.value, told.succeeds).reservations;
    }
  }

  lemma ActingGoesOn(tb: Tables, pc: Pc, c: Choice, plan: Plan)
    requires Undisturbed(tb, pc) && ChoiceFits(tb, pc, c) && pc.FinishAction?
    ensures Onward(tb, pc, c, FinishEffect(tb, pc, c), plan)
  {
    var told := Told(pc, c, plan);
    assert plan.succeeds - {pc.call.r} == told.succeeds - {pc.call.r};
    OtherAnswersStay(tb, pc.call, tb, plan, told, false);
    OtherAnswersStay(tb, pc.call, WithoutReservation(tb, pc.call.dir), plan, told, true);
  }

  lemma EvictingGoesOn(tb: Tables, pc: Pc, c: Choice, plan: Plan)
    requires Undisturbed(tb, pc) && ChoiceFits(tb, pc, c) && pc.FinishEvict?
    ensures Onward(tb, pc, c, FinishEffect(tb, pc, c), plan)
  {
  }

  lemma DroppingGoesOn(tb: Tables, pc: Pc, c: Choice, plan: Plan)
    requires Undisturbed(tb, pc) && ChoiceFits(tb, pc, c) && pc.FinishDrop?
    ensures Onward(tb, pc, c, FinishEffect(tb, pc, c), plan)
  {
    var call := pc.call;
    assert tb.cells[call.r := Cell(ActionOf(tb, call.r), Fenced(tb, call.r))] == tb.cells;
    assert Changed(tb, Removed(call.dir, call.r, ByFinish(pc.saw))) == WithoutReservation(tb, call.dir);
  }

  // A reservation that is next: without it, or with it and its release done, the
  // retry comes to the same.
  lemma RetriedApart(tb: Tables, dir: Dir, r: ResId, orphans: set<(Dir, ResId)>, plan: Plan)
    requires WellFormed(tb) && RetryFits(tb, dir, r, orphans)
    ensures dir in tb.clients
      ==> Retried(tb, orphans + {(dir, r)}, plan.succeeds) == Retried(tb, orphans, plan.succeeds)
    ensures dir !in tb.clients ==>
              var tb' := Finish(tb, dir, None, r, r in plan.succeeds).0;
              Retried(tb, orphans + {(dir, r)}, plan.succeeds) == Retried(tb', orphans, plan.succeeds)
  {
    var tb' := Finish(tb, dir, None, r, r in plan.succeeds).0;
    if dir !in tb.clients {
      forall d | d in tb'.reservations && (d, tb'.reservations[d]) in orphans
        ensures d != dir && Releases(tb', d, plan.succeeds) == Releases(tb, d, plan.succeeds)
      {
        assert Current(tb, d, tb'.reservations[d]);
      }
      assert Retried(tb, orphans + {(dir, r)}, plan.succeeds).reservations
             == Retried(tb', orphans, plan.succeeds).reservations;
    } else {
      assert Retried(tb, orphans + {(dir, r)}, plan.succeeds).reservations
             == Retried(tb, orphans, plan.succeeds).reservations;
    }
  }

  lemma RetryBegins(tb: Tables, pc: Pc, c: Choice, plan: Plan)
    requires Undisturbed(tb, pc) && ChoiceFits(tb, pc, c)
    requires pc.RetryWant?
    ensures Onward(tb, pc, c, RetryEffect(tb, pc, c), plan)
  {
  }

  lemma SnapshotGoesOn(tb: Tables, pc: Pc, c: Choice, plan: Plan)
    requires Undisturbed(tb, pc) && ChoiceFits(tb, pc, c)
    requires pc.RetrySnapshot?
    ensures Onward(tb, pc, c, RetryEffect(tb, pc, c), plan)
  {
  }

  lemma PickedGoesOn(tb: Tables, pc: Pc, c: Choice, plan: Plan)
    requires Undisturbed(tb, pc) && ChoiceFits(tb, pc, c)
    requires pc.RetryWantClients?
    ensures Onward(tb, pc, c, RetryEffect(tb, pc, c), plan)
  {
  }

  lemma PickingGoesOn(tb: Tables, pc: Pc, c: Choice, plan: Plan)
    requires Undisturbed(tb, pc) && ChoiceFits(tb, pc, c) && pc.RetryNext?
    ensures Onward(tb, pc, c, RetryEffect(tb, pc, c), plan)
  {
    if c.Pick? {
      assert pc.orphans - {(c.dir, c.r)} + {(c.dir, c.r)} == pc.orphans;
    } else {
      assert Retried(tb, pc.orphans, plan.succeeds).reservations == tb.reservations;
    }
  }

  lemma LookingGoesOn(tb: Tables, pc: Pc, c: Choice, plan: Plan)
    requires Undisturbed(tb, pc) && ChoiceFits(tb, pc, c) && pc.RetryLook?
    ensures Onward(tb, pc, c, RetryEffect(tb, pc, c), plan)
  {
    RetriedApart(tb, pc.dir, pc.r, pc.orphans, plan);
    forall o | o in pc.orphans ensures o.0 != pc.dir {
      assert Current(tb, o.0, o.1);
    }
  }

  lemma AttachStepGoesOn(tb: Tables, pc: Pc, c: Choice, plan: Plan)
    requires Undisturbed(tb, pc) && ChoiceFits(tb, pc, c) && GroupOf(pc) == AttachGroup
    ensures Onward(tb, pc, c, AttachEffect(tb, pc, c), plan)
  {
    if pc.AttachWant? {
      AttachBegins(tb, pc, c, plan);
    } else if pc.AttachObtain? {
      ObtainingGoesOn(tb, pc, c, plan);
    } else if pc.AttachDecide? {
      DecidingGoesOn(tb, pc, c, plan);
    } else {
      FollowingGoesOn(tb, pc, c, plan);
    }
  }

  lemma FinishStepGoesOn(tb: Tables, pc: Pc, c: Choice, plan: Plan)
    requires Undisturbed(tb, pc) && ChoiceFits(tb, pc, c) && GroupOf(pc) == FinishGroup
    ensures Onward(tb, pc, c, FinishEffect(tb, pc, c), plan)
  {
    if pc.FinishWantCell? || pc.FinishWantCheck? || pc.FinishCheck? {
      EnteringGoesOn(tb, pc, c, plan);
    } else if pc.FinishAction? {
      ActingGoesOn(tb, pc, c, plan);
    } else if pc.FinishEvict? {
      EvictingGoesOn(tb, pc, c, plan);
    } else if pc.FinishDrop? {
      DroppingGoesOn(tb, pc, c, plan);
    } else if pc.FinishRelease? {
      ReleasingGoesOn(tb, pc, c, plan);
    } else if pc.FinishFlag? || pc.FinishOwner? {
      CheckingGoesOn(tb, pc, c, plan);
    } else if pc.FinishWantOwner? {
      WaitsForOwner(tb, pc, c, plan);
    } else if pc.FinishWantEvict? {
      WaitsForEviction(tb, pc, c, plan);
    } else {
      WaitsForDrop(tb, pc, c, plan);
    }
  }

  lemma RetryStepGoesOn(tb: Tables, pc: Pc, c: Choice, plan: Plan)
    requires Undisturbed(tb, pc) && ChoiceFits(tb, pc, c) && GroupOf(pc) == RetryGroup
    ensures Onward(tb, pc, c, RetryEffect(tb, pc, c), plan)
  {
    if pc.RetryNext? {
      PickingGoesOn(tb, pc, c, plan);
    } else if pc.RetryLook? {
      LookingGoesOn(tb, pc, c, plan);
    } else if pc.RetryWant? {
      RetryBegins(tb, pc, c, plan);
    } else if pc.RetrySnapshot? {
      SnapshotGoesOn(tb, pc, c, plan);
    } else {
      PickedGoesOn(tb, pc, c, plan);
    }
  }

  lemma StepGoesOn(tb: Tables, pc: Pc, c: Choice, plan: Plan)
    requires Undisturbed(tb, pc) && !pc.Replied? && ChoiceFits(tb, pc, c)
    ensures Onward(tb, pc, c, EffectOf(tb, pc, c), plan)
  {
    match GroupOf(pc) {
      case PlainGroup => ReservingGoesOn(tb, pc, c, plan);
      case AdmitGroup => AdmittingGoesOn(tb, pc, c, plan);
      case HostGroup => HostingGoesOn(tb, pc, c, plan);
      case AttachGroup => AttachStepGoesOn(tb, pc, c, plan);
      case FinishGroup => FinishStepGoesOn(tb, pc, c, plan);
      case RetryGroup => RetryStepGoesOn(tb, pc, c, plan);
    }
  }

  // --- every end is expected ---

  // An allocation the call may still make gets an id no reservation has.
  ghost predicate PlanFits(tb: Tables, pc: Pc, plan: Plan) {
    match pc
    case ReservationsWant(work) => work.Lookup? || work.dir in tb.reservations || plan.unused !in tb.cells
    case ReservationsHeld(work) => work.Lookup? || work.dir in tb.reservations || plan.unused !in tb.cells
    case AttachWant(attach) => attach.dir in tb.reservations || plan.unused !in tb.cells
    case AttachObtain(attach) => attach.dir in tb.reservations || plan.unused !in tb.cells
    case _ => true
  }

  // `end` is where the call gets to when the environment answers as `plan` says.
  ghost predicate Outcome(tb: Tables, pc: Pc, plan: Plan, end: (Tables, Pc)) {
    PlanFits(tb, pc, plan) && end == Expected(tb, pc, plan)
  }

  const NO_PLAN := Plan({}, false, None, 0)

  lemma ToldPlanFits(tb: Tables, pc: Pc, c: Choice, plan: Plan)
    requires !pc.Replied? && ChoiceFits(tb, pc, c)
    requires var e := EffectOf(tb, pc, c); PlanFits(Changed(tb, e.change), e.pc, plan)
    ensures PlanFits(tb, pc, Told(pc, c, plan))
  {
  }

  lemma {:induction false} EndIsExpected(tb: Tables, pc: Pc, cs: seq<Choice>, end: (Tables, Pc)) returns (plan: Plan)
    requires Undisturbed(tb, pc) && Ends(tb, pc, cs, end)
    ensures Outcome(tb, pc, plan, end)
    decreases |cs|
  {
    plan := NO_PLAN;
    if !pc.Replied? {
      var e := EffectOf(tb, pc, cs[0]);
      StepGoesOn(tb, pc, cs[0], plan);
      plan := EndIsExpected(Changed(tb, e.change), e.pc, cs[1..], end);
      StepGoesOn(tb, pc, cs[0], plan);
      ToldPlanFits(tb, pc, cs[0], plan);
      plan := Told(pc, cs[0], plan);
    }
  }

  // --- every expected end is reached ---

  // How far a call is from its answer: whether a retry has yet to take its snapshot,
  // the reservations it has left, and the steps before it takes the next.
  function Before(pc: Pc): nat {
    if pc.RetryWant? || pc.RetrySnapshot? then 1 else 0
  }

  function OrphansLeft(pc: Pc): set<(Dir, ResId)> {
    match GroupOf(pc)
    case FinishGroup => if pc.call.orphans.Some? then pc.call.orphans.value else {}
    case RetryGroup => if Before(pc) == 1 then {} else pc.orphans
    case _ => {}
  }

  function StepsLeft(pc: Pc): nat {
    match pc
    case RetryWant => 2
    case RetrySnapshot => 1
    case RetryNext(_) => 1
    case RetryWantClients(_, _, _) => 20
    case RetryLook(_, _, _) => 19
    case FinishWantCell(_) => 18
    case FinishWantCheck(_) => 17
    case FinishCheck(_) => 16
    case FinishFlag(_, _) => 15
    case FinishWantOwner(_) => 14
    case FinishOwner(_) => 13
    case FinishAction(_) => 12
    case FinishWantEvict(_, _) => 11
    case FinishEvict(_, _) => 10
    case FinishWantDrop(_, _) => 9
    case FinishDrop(_, _) => 8
    case FinishRelease(_, _) => 7
    case AttachWant(_) => 6
    case AttachObtain(_) => 5
    case AttachWantCell(_, _) => 4
    case AttachWantCheck(_, _) => 3
    case AttachCheck(_, _) => 2
    case AttachDecide(_, _, _) => 1
    case AdmitWant(_) => 6
    case AdmitRemoved(_) => 5
    case AdmitWantReservations(_) => 4
    case AdmitLook(_) => 3
    case AdmitDecide(_, _) => 2
    case AdmitCreate(_) => 1
    case HostWantCell(_, _) => 4
    case HostWantReservations(_, _) => 3
    case HostWork(_, _) => 2
    case HostRelease(_, _) => 1
    case ReservationsWant(_) => 2
    case ReservationsHeld(_) => 1
    case _ => 0
  }

  predicate Nearer(pc: Pc, pc': Pc) {
    || Before(pc') < Before(pc)
    || (Before(pc') == Before(pc) && OrphansLeft(pc') < OrphansLeft(pc))
    || (Before(pc') == Before(pc) && OrphansLeft(pc') == OrphansLeft(pc) && StepsLeft(pc') < StepsLeft(pc))
  }

  lemma FinishGetsNearer(tb: Tables, pc: Pc, c: Choice)
    requires GroupOf(pc) == FinishGroup
    ensures Nearer(pc, FinishEffect(tb, pc, c).pc)
  {
  }

  lemma RetryGetsNearer(tb: Tables, pc: Pc, c: Choice)
    requires GroupOf(pc) == RetryGroup && ChoiceFits(tb, pc, c)
    ensures Nearer(pc, RetryEffect(tb, pc, c).pc)
  {
  }

  lemma AttachGetsNearer(tb: Tables, pc: Pc, c: Choice)
    requires GroupOf(pc) == AttachGroup && (pc.AttachDecide? ==> pc.current)
    ensures Nearer(pc, AttachEffect(tb, pc, c).pc)
  {
  }

  lemma StepGetsNearer(tb: Tables, pc: Pc, c: Choice)
    requires Undisturbed(tb, pc) && !pc.Replied? && ChoiceFits(tb, pc, c)
    ensures Nearer(pc, EffectOf(tb, pc, c).pc)
  {
    match GroupOf(pc) {
      case FinishGroup => FinishGetsNearer(tb, pc, c);
      case RetryGroup => RetryGetsNearer(tb, pc, c);
      case AttachGroup => AttachGetsNearer(tb, pc, c);
      case _ =>
    }
  }

  // The choice that the plan asks for; which reservation a retry takes next is open.
  function Planned(tb: Tables, pc: Pc, plan: Plan): Choice {
    match pc
    case AdmitRemoved(_) => Answer(plan.removed)
    case AdmitCreate(_) => Created(plan.created)
    case ReservationsHeld(work) => if !work.Lookup? && work.dir !in tb.reservations then Allocate(plan.unused) else Go
    case AttachObtain(attach) => if attach.dir !in tb.reservations then Allocate(plan.unused) else Go
    case FinishAction(call) => Answer(call.r in plan.succeeds)
    case _ => Go
  }

  lemma PlannedGoesOn(tb: Tables, pc: Pc, plan: Plan) returns (c: Choice)
    requires Undisturbed(tb, pc) && !pc.Replied? && PlanFits(tb, pc, plan)
    ensures ChoiceFits(tb, pc, c) && Told(pc, c, plan) == plan
    ensures var e := EffectOf(tb, pc, c); PlanFits(Changed(tb, e.change), e.pc, plan)
  {
    c := Planned(tb, pc, plan);
    if pc.RetryNext? && pc.orphans != {} {
      var o :| o in pc.orphans;
      c := Pick(o.0, o.1);
    }
  }

  lemma {:induction false} ExpectedIsReached(tb: Tables, pc: Pc, plan: Plan, end: (Tables, Pc))
    returns (cs: seq<Choice>)
    requires Undisturbed(tb, pc) && Outcome(tb, pc, plan, end)
    ensures Ends(tb, pc, cs, end)
    decreases Before(pc), OrphansLeft(pc), StepsLeft(pc)
  {
    cs := [];
    if !pc.Replied? {
      var c := PlannedGoesOn(tb, pc, plan);
      var e := EffectOf(tb, pc, c);
      StepGoesOn(tb, pc, c, plan);
      StepGetsNearer(tb, pc, c);
      cs := ExpectedIsReached(Changed(tb, e.change), e.pc, plan, end);
      assert ([c] + cs)[1..] == cs;
      cs := [c] + cs;
    }
  }

  /**
  Every undisturbed sequence of steps ends where the call in one piece does, for some
  answers of its callbacks; and for any answers, some sequence ends there.
  */
  lemma LoneCallExactly(tb: Tables, pc: Pc, end: (Tables, Pc))
    requires Undisturbed(tb, pc)
    ensures (exists cs :: Ends(tb, pc, cs, end)) ==> (exists plan :: Outcome(tb, pc, plan, end))
    ensures (exists plan :: Outcome(tb, pc, plan, end)) ==> (exists cs :: Ends(tb, pc, cs, end))
  {
    if cs :| Ends(tb, pc, cs, end) {
      var plan := EndIsExpected(tb, pc, cs, end);
    }
    if plan :| Outcome(tb, pc, plan, end) {
      var cs := ExpectedIsReached(tb, pc, plan, end);
    }
  }

  // --- call by call ---

  /** An undisturbed `finish_cleanup` does what `Finish` says and answers what it says,
      and nothing else. */
  lemma FinishAlone(tb: Tables, call: FinishCall, end: (Tables, Pc))
    requires call.orphans.None? && WellFormed(tb)
    ensures (exists cs :: Ends(tb, FinishWantCell(call), cs, end))
            <==> exists succeeds :: var (tb', ok) := Finish(tb, call.dir, call.client, call.r, succeeds);
                                    end == (tb', Replied(Flag(ok)))
  {
    LoneCallExactly(tb, FinishWantCell(call), end);
    if succeeds :| var (tb', ok) := Finish(tb, call.dir, call.client, call.r, succeeds);
                   end == (tb', Replied(Flag(ok))) {
      var plan := NO_PLAN.(succeeds := if succeeds then {call.r} else {});
      assert Outcome(tb, FinishWantCell(call), plan, end);
    }
  }

  /** So does an undisturbed `complete_host_cleanup`. */
  lemma HostAlone(tb: Tables, dir: Dir, r: ResId, end: (Tables, Pc))
    requires WellFormed(tb)
    ensures (exists cs :: Ends(tb, HostWantCell(dir, r), cs, end))
            <==> var (tb', ok) := CompleteHost(tb, dir, r); end == (tb', Replied(Flag(ok)))
  {
    LoneCallExactly(tb, HostWantCell(dir, r), end);
    assert Outcome(tb, HostWantCell(dir, r), NO_PLAN, Hosted(tb, dir, r));
  }

  /** And `reservation_with_action`, at its first attempt. */
  lemma AttachAlone(tb: Tables, attach: AttachCall, end: (Tables, Pc))
    requires WellFormed(tb)
    ensures (exists cs :: Ends(tb, AttachWant(attach), cs, end))
            <==> exists unused :: (attach.dir in tb.reservations || unused !in tb.cells)
                                  && var (tb', r) := Attach(tb, attach.dir, attach.action, unused);
                                     end == (tb', Replied(Token(r)))
  {
    LoneCallExactly(tb, AttachWant(attach), end);
    if unused :| (attach.dir in tb.reservations || unused !in tb.cells)
                 && var (tb', r) := Attach(tb, attach.dir, attach.action, unused); end == (tb', Replied(Token(r))) {
      assert Outcome(tb, AttachWant(attach), NO_PLAN.(unused := unused), end);
    }
  }

  /** And `admit`. */
  lemma AdmitAlone(tb: Tables, dir: Dir, end: (Tables, Pc))
    requires WellFormed(tb)
    ensures (exists cs :: Ends(tb, AdmitWant(dir), cs, end))
            <==> exists removed, created :: var (tb', admission) := Admit(tb, dir, removed, created);
                                            end == (tb', Replied(AdmissionReply(admission)))
  {
    LoneCallExactly(tb, AdmitWant(dir), end);
    if removed, created :| var (tb', admission) := Admit(tb, dir, removed, created);
                           end == (tb', Replied(AdmissionReply(admission))) {
      assert Outcome(tb, AdmitWant(dir), NO_PLAN.(removed := removed, created := created), end);
    }
  }

  /** And the calls that only obtain a reservation. */
  lemma ObtainAlone(tb: Tables, dir: Dir, end: (Tables, Pc))
    requires WellFormed(tb)
    ensures (exists cs :: Ends(tb, ReservationsWant(ObtainFor(dir)), cs, end))
            <==> exists unused :: (dir in tb.reservations || unused !in tb.cells)
                                  && var (tb', r) := Obtain(tb, dir, unused); end == (tb', Replied(Token(r)))
  {
    LoneCallExactly(tb, ReservationsWant(ObtainFor(dir)), end);
    if unused :| (dir in tb.reservations || unused !in tb.cells)
                 && var (tb', r) := Obtain(tb, dir, unused); end == (tb', Replied(Token(r))) {
      assert Outcome(tb, ReservationsWant(ObtainFor(dir)), NO_PLAN.(unused := unused), end);
    }
  }

  /** And `reserve_host_completion`, which also raises its fence. */
  lemma FenceAlone(tb: Tables, dir: Dir, end: (Tables, Pc))
    requires WellFormed(tb)
    ensures (exists cs :: Ends(tb, ReservationsWant(RaiseFence(dir)), cs, end))
            <==> exists unused :: (dir in tb.reservations || unused !in tb.cells)
                                  && var (tb', r) := Fence(tb, dir, unused); end == (tb', Replied(Token(r)))
  {
    LoneCallExactly(tb, ReservationsWant(RaiseFence(dir)), end);
    if unused :| (dir in tb.reservations || unused !in tb.cells)
                 && var (tb', r) := Fence(tb, dir, unused); end == (tb', Replied(Token(r))) {
      assert Outcome(tb, ReservationsWant(RaiseFence(dir)), NO_PLAN.(unused := unused), end);
    }
  }

  lemma RetriedAll(tb: Tables, succeeds: set<ResId>)
    ensures Retried(tb, EveryReservation(tb), succeeds) == WithoutOrphans(tb, succeeds)
  {
    assert Retried(tb, EveryReservation(tb), succeeds).reservations == WithoutOrphans(tb, succeeds).reservations;
  }

  /** And `retry_orphaned`, in whatever order it visits the reservations. */
  lemma RetryAlone(tb: Tables, end: (Tables, Pc))
    requires WellFormed(tb)
    ensures (exists cs :: Ends(tb, RetryWant, cs, end))
            <==> exists succeeds :: end == (WithoutOrphans(tb, succeeds), Replied(NoReply))
  {
    LoneCallExactly(tb, RetryWant, end);
    if plan :| Outcome(tb, RetryWant, plan, end) {
      RetriedAll(tb, plan.succeeds);
    }
    if succeeds :| end == (WithoutOrphans(tb, succeeds), Replied(NoReply)) {
      RetriedAll(tb, succeeds);
      assert Outcome(tb, RetryWant, NO_PLAN.(succeeds := succeeds), end);
    }
  }

  // --- undisturbed steps are a run of the whole table ---

  ghost predicate OthersHoldNothing(s: State, t: Tid) {
    forall u: Tid :: u != t ==>
      !HoldsClients(PcOf(s, u)) && !HoldsReservations(PcOf(s, u)) && HoldsCell(PcOf(s, u)).None?
  }

  function MovesOf(t: Tid, cs: seq<Choice>): seq<Move> {
    seq(|cs|, i requires 0 <= i < |cs| => Move(t, cs[i]))
  }

  lemma LoneStepIsGranted(s: State, t: Tid, c: Choice)
    requires Inv(s) && OthersHoldNothing(s, t) && ChoiceFits(s.world.tables, PcOf(s, t), c)
    ensures CanStep(s, t, c)
  {
    assert s.clientsLock.Some? ==> HoldsClients(PcOf(s, s.clientsLock.value));
    assert s.reservationsLock.Some? ==> HoldsReservations(PcOf(s, s.reservationsLock.value));
    assert forall r :: r in s.cellLocks ==> HoldsCell(PcOf(s, s.cellLocks[r])) == Some(r);
    LocksAreOrdered(s.world.tables, PcOf(s, t), c);
  }

  /** While no other call holds a lock, what one call can do is exactly what it can do alone. */
  lemma {:induction false} AloneIsARun(s: State, t: Tid, cs: seq<Choice>)
    requires Inv(s) && OthersHoldNothing(s, t)
    ensures var run := MovesOf(t, cs);
            && (IsRun(s, run) <==> Fits(s.world.tables, PcOf(s, t), cs))
            && (IsRun(s, run) ==>
                  (After(s, run).world.tables, PcOf(After(s, run), t)) == Alone(s.world.tables, PcOf(s, t), cs))
    decreases |cs|
  {
    if cs != [] && ChoiceFits(s.world.tables, PcOf(s, t), cs[0]) {
      LoneStepIsGranted(s, t, cs[0]);
      StepKeepsInv(s, t, cs[0]);
      AloneIsARun(Step(s, t, cs[0]), t, cs[1..]);
      assert MovesOf(t, cs)[1..] == MovesOf(t, cs[1..]);
    }
  }

  /** So in the whole table too, a call that nothing disturbs ends where it ends alone. */
  lemma EndingIsARun(s: State, t: Tid, cs: seq<Choice>, end: (Tables, Pc))
    requires Inv(s) && OthersHoldNothing(s, t) && Ends(s.world.tables, PcOf(s, t), cs, end)
    ensures WellFormed(s.world.tables)
    ensures var run := MovesOf(t, cs);
            IsRun(s, run) && (After(s, run).world.tables, PcOf(After(s, run), t)) == end
  {
    assert RecordsMatch(s.world);
    EndingLeads(s.world.tables, PcOf(s, t), cs, end);
    AloneIsARun(s, t, cs);
  }

  // --- runs ---

  lemma RunCons(s: State, m: Move, rest: seq<Move>)
    requires CanStep(s, m.t, m.c) && IsRun(Step(s, m.t, m.c), rest)
    ensures IsRun(s, [m] + rest) && After(s, [m] + rest) == After(Step(s, m.t, m.c), rest)
  {
    assert ([m] + rest)[1..] == rest;
  }

  lemma FirstOfBoth(first: seq<Move>, second: seq<Move>)
    requires first != []
    ensures first + second == [first[0]] + (first[1..] + second)
  {
  }

  lemma {:induction false} RunsCompose(s: State, first: seq<Move>, second: seq<Move>)
    requires IsRun(s, first) && IsRun(After(s, first), second)
    ensures IsRun(s, first + second) && After(s, first + second) == After(After(s, first), second)
    decreases |first|
  {
    if first == [] {
      assert first + second == second;
    } else {
      var m, rest := first[0], first[1..];
      RunsCompose(Step(s, m.t, m.c), rest, second);
      FirstOfBoth(first, second);
      RunCons(s, m, rest + second);
    }
  }

  lemma NoOneHoldsReservations(s: State, t: Tid)
    requires Inv(s) && OthersHoldNothing(s, t) && !HoldsReservations(PcOf(s, t))
    ensures s.reservationsLock.None?
  {
    forall u: Tid ensures s.reservationsLock != Some(u) {}
  }

  lemma {:induction false} LoneRunTouchesNoOne(s: State, t: Tid, cs: seq<Choice>, u: Tid)
    requires Inv(s) && OthersHoldNothing(s, t) && Fits(s.world.tables, PcOf(s, t), cs) && u != t
    requires PcOf(s, u).Idle?
    ensures var s' := After(s, MovesOf(t, cs)); PcOf(s', u).Idle? && OthersHoldNothing(s', t)
    decreases |cs|
  {
    if cs != [] {
      LoneStepIsGranted(s, t, cs[0]);
      StepKeepsInv(s, t, cs[0]);
      LoneRunTouchesNoOne(Step(s, t, cs[0]), t, cs[1..], u);
      assert MovesOf(t, cs)[1..] == MovesOf(t, cs[1..]);
    }
  }
}
