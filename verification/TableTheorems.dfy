/** What the table promises its callers, over every interleaving. */
module TableTheorems {
  import opened Prelude
  import opened TableOperations
  import opened TableSteps
  import opened TableInvariants

  datatype Move = Move(t: Tid, c: Choice)

  ghost predicate IsRun(s: State, run: seq<Move>)
    decreases |run|
  {
    run == [] || (CanStep(s, run[0].t, run[0].c) && IsRun(Step(s, run[0].t, run[0].c), run[1..]))
  }

  ghost function After(s: State, run: seq<Move>): State
    decreases |run|
  {
    if run == [] then s else After(Step(s, run[0].t, run[0].c), run[1..])
  }

  lemma {:induction false} RunKeepsInv(s: State, run: seq<Move>)
    requires Inv(s) && IsRun(s, run)
    ensures Inv(After(s, run))
    decreases |run|
  {
    if run != [] {
      StepKeepsInv(s, run[0].t, run[0].c);
      RunKeepsInv(Step(s, run[0].t, run[0].c), run[1..]);
    }
  }

  lemma ReachableHasInv(run: seq<Move>)
    requires IsRun(START, run)
    ensures Inv(After(START, run))
  {
    StartHasInv();
    RunKeepsInv(START, run);
  }

  lemma {:induction false} RunSplits(s: State, run: seq<Move>, m: Move)
    requires IsRun(s, run + [m])
    ensures IsRun(s, run) && CanStep(After(s, run), m.t, m.c)
    ensures After(s, run + [m]) == Step(After(s, run), m.t, m.c)
    decreases |run|
  {
    if run == [] {
      assert run + [m] == [m];
    } else {
      assert (run + [m])[1..] == run[1..] + [m];
      RunSplits(Step(s, run[0].t, run[0].c), run[1..], m);
    }
  }

  // --- accepted actions ---

  // In step `i` of the run, `t` ran the action `a` of reservation `r` and it answered true.
  ghost predicate RanToTrue(run: seq<Move>, i: nat, t: Tid, r: ResId, a: ActionId) {
    && i < |run|
    && run[i] == Move(t, Answer(true))
    && var s := After(START, run[..i]);
       PcOf(s, t).FinishAction? && PcOf(s, t).call.r == r && ActionOf(s.world.tables, r) == Some(a)
  }

  ghost predicate Succeeded(run: seq<Move>, r: ResId, a: ActionId) {
    exists i: nat, t :: RanToTrue(run, i, t, r, a)
  }

  lemma SucceededStays(run: seq<Move>, m: Move, r: ResId, a: ActionId)
    requires Succeeded(run, r, a)
    ensures Succeeded(run + [m], r, a)
  {
    var i: nat, t :| RanToTrue(run, i, t, r, a);
    assert (run + [m])[..i] == run[..i];
    assert RanToTrue(run + [m], i, t, r, a);
  }

  // Whatever a finish call claims to have seen succeed did, and so did whatever a
  // removal claims.
  ghost predicate ClaimsAreTrue(run: seq<Move>) {
    var s := After(START, run);
    && (forall t: Tid, a :: ClaimOf(PcOf(s, t), a).Some? ==> Succeeded(run, ClaimOf(PcOf(s, t), a).value, a))
    && (forall r, a :: r in s.world.removed && s.world.removed[r] == ByFinish(Some(a)) ==> Succeeded(run, r, a))
  }

  // The reservation whose action `a` this point of a finish call claims to have seen succeed.
  function ClaimOf(pc: Pc, a: ActionId): Option<ResId> {
    match pc
    case FinishWantEvict(call, saw) => if saw == Some(a) then Some(call.r) else None
    case FinishEvict(call, saw) => if saw == Some(a) then Some(call.r) else None
    case FinishWantDrop(call, saw) => if saw == Some(a) then Some(call.r) else None
    case FinishDrop(call, saw) => if saw == Some(a) then Some(call.r) else None
    case _ => None
  }

  // A new claim comes only from running the action; a removal hands its claim on.
  lemma ClaimsComeFromActions(tb: Tables, pc: Pc, c: Choice, a: ActionId)
    requires ChoiceFits(tb, pc, c)
    ensures var e := EffectOf(tb, pc, c);
            && (ClaimOf(e.pc, a).Some? && ClaimOf(e.pc, a) != ClaimOf(pc, a) ==>
                  pc.FinishAction? && c == Answer(true) && ClaimOf(e.pc, a).value == pc.call.r
                  && ActionOf(tb, pc.call.r) == Some(a))
            && (e.change.Removed? && e.change.how == ByFinish(Some(a)) ==>
                  ClaimOf(pc, a) == Some(e.change.r))
  {
    if GroupOf(pc) == FinishGroup {
      assert EffectOf(tb, pc, c) == FinishEffect(tb, pc, c);
    } else {
      OthersClaimNothing(tb, pc, c, a);
    }
  }

  ghost predicate ClaimsNothing(e: Effect, a: ActionId) {
    ClaimOf(e.pc, a).None? && (e.change.Removed? ==> e.change.how.ByHost?)
  }

  lemma PlainClaimsNothing(tb: Tables, pc: Pc, c: Choice, a: ActionId)
    requires ChoiceFits(tb, pc, c) && GroupOf(pc) == PlainGroup
    ensures ClaimsNothing(PlainEffect(tb, pc, c), a)
  {
  }

  lemma AttachClaimsNothing(tb: Tables, pc: Pc, c: Choice, a: ActionId)
    requires GroupOf(pc) == AttachGroup
    ensures ClaimsNothing(AttachEffect(tb, pc, c), a)
  {
  }

  lemma OthersClaimNothing(tb: Tables, pc: Pc, c: Choice, a: ActionId)
    requires ChoiceFits(tb, pc, c) && GroupOf(pc) != FinishGroup
    ensures ClaimsNothing(EffectOf(tb, pc, c), a)
  {
    if GroupOf(pc) == PlainGroup {
      PlainClaimsNothing(tb, pc, c, a);
    } else if GroupOf(pc) == AttachGroup {
      AttachClaimsNothing(tb, pc, c, a);
    }
  }

  lemma StepKeepsClaims(run: seq<Move>, m: Move)
    requires IsRun(START, run + [m]) && ClaimsAreTrue(run)
    ensures ClaimsAreTrue(run + [m])
  {
    RunSplits(START, run, m);
    var s, s' := After(START, run), After(START, run + [m]);
    forall t: Tid, a | ClaimOf(PcOf(s', t), a).Some?
      ensures Succeeded(run + [m], ClaimOf(PcOf(s', t), a).value, a)
    {
      ClaimsComeFromActions(s.world.tables, PcOf(s, m.t), m.c, a);
      if ClaimOf(PcOf(s, t), a) == ClaimOf(PcOf(s', t), a) {
        SucceededStays(run, m, ClaimOf(PcOf(s', t), a).value, a);
      } else {
        assert t == m.t;
        assert (run + [m])[..|run|] == run;
        assert RanToTrue(run + [m], |run|, t, ClaimOf(PcOf(s', t), a).value, a);
      }
    }
    forall r, a | r in s'.world.removed && s'.world.removed[r] == ByFinish(Some(a))
      ensures Succeeded(run + [m], r, a)
    {
      ClaimsComeFromActions(s.world.tables, PcOf(s, m.t), m.c, a);
      SucceededStays(run, m, r, a);
    }
  }

  lemma {:induction false} ClaimsHold(run: seq<Move>)
    requires IsRun(START, run)
    ensures ClaimsAreTrue(run)
  {
    if run != [] {
      var prefix, last := run[..|run| - 1], run[|run| - 1];
      assert run == prefix + [last];
      RunSplits(START, prefix, last);
      ClaimsHold(prefix);
      StepKeepsClaims(prefix, last);
    }
  }

  /** A reservation that carries an action is the stored one of its directory until that
      very action has been run to a true answer by a finish call. */
  lemma AcceptedActionIsNeverLost(run: seq<Move>, r: ResId, a: ActionId)
    requires IsRun(START, run)
    requires ActionOf(After(START, run).world.tables, r) == Some(a)
    ensures Stored(After(START, run).world, r) || Succeeded(run, r, a)
  {
    ReachableHasInv(run);
    ClaimsHold(run);
  }

  /** `reservation_with_action` answers with a stored reservation that carries an action:
      the one it brought, unless one was already set. */
  lemma AttachAnswersWithACarrier(s: State, t: Tid, c: Choice)
    requires Inv(s) && CanStep(s, t, c)
    requires PcOf(s, t).AttachDecide? && PcOf(s, t).current
    ensures var (pc, s') := (PcOf(s, t), Step(s, t, c));
            && PcOf(s', t) == Replied(Token(pc.r))
            && StoredAt(s'.world, pc.attach.dir, pc.r)
            && ActionOf(s'.world.tables, pc.r)
               == Some(ActionOf(s.world.tables, pc.r).GetOr(pc.attach.action))
  {
    assert ThreadKnows(s.world, PcOf(s, t));
    DecidingCarries(s.world.tables, PcOf(s, t), c);
  }

  lemma DecidingCarries(tb: Tables, pc: Pc, c: Choice)
    requires pc.AttachDecide? && pc.current
    ensures var (e, carried) := (EffectOf(tb, pc, c), Some(ActionOf(tb, pc.r).GetOr(pc.attach.action)));
            && e.pc == Replied(Token(pc.r)) && ActionOf(Changed(tb, e.change), pc.r) == carried
            && Changed(tb, e.change).reservations == tb.reservations
            && !e.change.Allocated? && !e.change.Removed?
  {
  }

  /** An action, once set, is never replaced or cleared. */
  lemma ActionIsNeverReplaced(s: State, t: Tid, c: Choice, r: ResId)
    requires Inv(s) && CanStep(s, t, c) && ActionOf(s.world.tables, r).Some?
    ensures ActionOf(Step(s, t, c).world.tables, r) == ActionOf(s.world.tables, r)
  {
    EffectChangeFits(s.world, PcOf(s, t), c);
    SetsOnlyEmptySlots(s.world.tables, PcOf(s, t), c);
    ChangeKeepsAction(s.world, EffectOf(s.world.tables, PcOf(s, t), c).change, r);
  }

  lemma ChangeKeepsAction(w: World, change: Change, r: ResId)
    requires RecordsMatch(w) && Sound(w, change) && ActionOf(w.tables, r).Some?
    requires change.ActionSet? ==> ActionOf(w.tables, change.r).None?
    ensures ActionOf(Changed(w.tables, change), r) == ActionOf(w.tables, r)
  {
  }

  lemma FinishSetsNoAction(tb: Tables, pc: Pc, c: Choice)
    ensures !FinishEffect(tb, pc, c).change.ActionSet?
  {
  }

  lemma PlainSetsNoAction(tb: Tables, pc: Pc, c: Choice)
    ensures !PlainEffect(tb, pc, c).change.ActionSet?
  {
  }

  lemma AttachSetsEmptySlot(tb: Tables, pc: Pc, c: Choice)
    requires GroupOf(pc) == AttachGroup
    ensures var change := AttachEffect(tb, pc, c).change; change.ActionSet? ==> ActionOf(tb, change.r).None?
  {
  }

  lemma SetsOnlyEmptySlots(tb: Tables, pc: Pc, c: Choice)
    requires ChoiceFits(tb, pc, c)
    ensures var change := EffectOf(tb, pc, c).change;
            change.ActionSet? ==> ActionOf(tb, change.r).None?
  {
    match GroupOf(pc) {
      case AttachGroup => AttachSetsEmptySlot(tb, pc, c);
      case FinishGroup => FinishSetsNoAction(tb, pc, c);
      case PlainGroup => PlainSetsNoAction(tb, pc, c);
      case _ => {}
    }
  }

  /** Each retry of `reservation_with_action` is paid for by a removal no earlier retry of
      the call was paid by, so a call never retries more often than removals happen. */
  lemma RetriesArePaidFor(run: seq<Move>, t: Tid, c: Choice)
    requires IsRun(START, run)
    ensures var (s, pc) := (After(START, run), PcOf(After(START, run), t));
            && (pc.AttachWant? ==> |pc.attach.stale| <= |s.world.removed|)
            && (pc.AttachDecide? && !pc.current ==>
                  var next := PcOf(Step(s, t, c), t);
                  next.AttachWant? && |next.attach.stale| == |pc.attach.stale| + 1
                  && pc.r in s.world.removed && pc.r !in pc.attach.stale)
  {
    ReachableHasInv(run);
    var s := After(START, run);
    assert ThreadKnows(s.world, PcOf(s, t));
    StaleAreGone(s.world, PcOf(s, t));
    if PcOf(s, t).AttachWant? {
      SmallerSet(PcOf(s, t).attach.stale, s.world.removed.Keys);
    } else if PcOf(s, t).AttachDecide? && !PcOf(s, t).current {
      OneMoreStale(s.world.tables, PcOf(s, t), c);
    }
  }

  lemma StaleAreGone(w: World, pc: Pc)
    requires ThreadKnows(w, pc)
    ensures pc.AttachWant? ==> pc.attach.stale <= w.removed.Keys
    ensures pc.AttachDecide? && !pc.current ==> pc.r in w.removed && pc.r !in pc.attach.stale
  {
  }

  lemma OneMoreStale(tb: Tables, pc: Pc, c: Choice)
    requires pc.AttachDecide? && !pc.current
    ensures EffectOf(tb, pc, c).pc == AttachWant(pc.attach.(stale := pc.attach.stale + {pc.r}))
  {
  }

  // --- the host fence and stale tokens ---

  /** A fence comes down only when the host confirms that very reservation. */
  lemma FenceFallsOnlyToItsHost(s: State, t: Tid, c: Choice, r: ResId)
    requires Inv(s) && CanStep(s, t, c) && Fenced(s.world.tables, r)
    ensures Fenced(Step(s, t, c).world.tables, r)
            || (r in s.world.home && PcOf(s, t) == HostWork(s.world.home[r], r))
  {
    EffectChangeFits(s.world, PcOf(s, t), c);
    LoweredByHost(s.world.tables, PcOf(s, t), c);
    assert RecordsMatch(s.world);
    OnlyTheseLower(s.world.tables, EffectOf(s.world.tables, PcOf(s, t), c).change, r);
  }

  lemma OnlyTheseLower(tb: Tables, change: Change, r: ResId)
    requires Fenced(tb, r) && (change.Allocated? ==> change.r !in tb.cells)
    ensures Fenced(Changed(tb, change), r)
            || (change.FenceLowered? && change.r == r) || (change.Removed? && change.how.ByHost? && change.r == r)
  {
  }

  lemma FinishLowersNothing(tb: Tables, pc: Pc, c: Choice)
    requires GroupOf(pc) == FinishGroup
    ensures var change := FinishEffect(tb, pc, c).change;
            !change.FenceLowered? && (change.Removed? ==> change.how.ByFinish?)
  {
  }

  lemma PlainLowersNothing(tb: Tables, pc: Pc, c: Choice)
    requires GroupOf(pc) == PlainGroup
    ensures var change := PlainEffect(tb, pc, c).change; !change.FenceLowered? && !change.Removed?
  {
  }

  lemma LoweredByHost(tb: Tables, pc: Pc, c: Choice)
    requires ChoiceFits(tb, pc, c)
    ensures var change := EffectOf(tb, pc, c).change;
            && (change.FenceLowered? ==> pc.HostWork? && pc.r == change.r && Current(tb, pc.dir, pc.r))
            && (change.Removed? && change.how.ByHost? ==>
                  pc.HostWork? && pc.r == change.r && pc.dir == change.dir)
  {
    if GroupOf(pc) == FinishGroup {
      FinishLowersNothing(tb, pc, c);
    } else if GroupOf(pc) == PlainGroup {
      PlainLowersNothing(tb, pc, c);
    }
  }

  // The thread has looked for a reservation of `dir`, found none, and may still admit.
  predicate PastLook(pc: Pc, dir: Dir) {
    pc == AdmitDecide(dir, false) || pc == AdmitCreate(dir)
  }

  /** A client is admitted only from there. */
  lemma AdmissionComesFromThere(tb: Tables, pc: Pc, c: Choice)
    requires ChoiceFits(tb, pc, c) && !pc.Replied?
    requires var next := EffectOf(tb, pc, c).pc;
             next.Replied? && next.reply.AdmissionReply? && next.reply.admission.Admitted?
    ensures (pc.AdmitDecide? || pc.AdmitCreate?) && PastLook(pc, pc.dir)
  {
  }

  lemma OnlyAdmitDecides(tb: Tables, pc: Pc, c: Choice)
    requires ChoiceFits(tb, pc, c) && GroupOf(pc) != AdmitGroup
    ensures var next := EffectOf(tb, pc, c).pc; !next.AdmitDecide? && !next.AdmitCreate?
  {
    if GroupOf(pc) == FinishGroup {
      assert EffectOf(tb, pc, c) == FinishEffect(tb, pc, c);
    }
  }

  lemma LookSeesReservation(tb: Tables, pc: Pc, c: Choice, dir: Dir)
    requires ChoiceFits(tb, pc, c) && dir in tb.reservations && !PastLook(pc, dir)
    ensures !PastLook(EffectOf(tb, pc, c).pc, dir)
  {
    if GroupOf(pc) == AdmitGroup {
      assert EffectOf(tb, pc, c) == AdmitEffect(tb, pc, c);
    } else {
      OnlyAdmitDecides(tb, pc, c);
    }
  }

  // No step of the run is the host confirming `r`.
  ghost predicate Unconfirmed(s: State, run: seq<Move>, r: ResId)
    decreases |run|
  {
    run == [] ||
    (!(PcOf(s, run[0].t).HostWork? && PcOf(s, run[0].t).r == r)
     && Unconfirmed(Step(s, run[0].t, run[0].c), run[1..], r))
  }

  lemma FenceSurvivesStep(s: State, m: Move, r: ResId)
    requires Inv(s) && CanStep(s, m.t, m.c) && Fenced(s.world.tables, r)
    requires !(PcOf(s, m.t).HostWork? && PcOf(s, m.t).r == r)
    ensures var s' := Step(s, m.t, m.c);
            Fenced(s'.world.tables, r) && r in s.world.home && r in s'.world.home
            && s'.world.home[r] == s.world.home[r]
  {
    EffectChangeFits(s.world, PcOf(s, m.t), m.c);
    SoundChangeKeepsRecords(s.world, EffectOf(s.world.tables, PcOf(s, m.t), m.c).change);
    if !Fenced(Step(s, m.t, m.c).world.tables, r) {
      FenceFallsOnlyToItsHost(s, m.t, m.c, r);
    }
  }

  lemma LookIsNotPassed(s: State, m: Move, t: Tid, dir: Dir)
    requires CanStep(s, m.t, m.c) && dir in s.world.tables.reservations
    ensures PastLook(PcOf(Step(s, m.t, m.c), t), dir) ==> PastLook(PcOf(s, t), dir)
  {
    if m.t == t && !PastLook(PcOf(s, t), dir) {
      LookSeesReservation(s.world.tables, PcOf(s, t), m.c, dir);
    }
  }

  lemma FenceHoldsForAStep(s: State, m: Move, r: ResId)
    requires Inv(s) && CanStep(s, m.t, m.c) && Fenced(s.world.tables, r)
    requires !(PcOf(s, m.t).HostWork? && PcOf(s, m.t).r == r)
    ensures var s' := Step(s, m.t, m.c);
            Inv(s') && Fenced(s'.world.tables, r) && s'.world.home[r] == s.world.home[r]
  {
    StepKeepsInv(s, m.t, m.c);
    FenceSurvivesStep(s, m, r);
  }

  /** From the moment a fence is up until its host confirms, its reservation stays the
      stored one, whatever cleanups and retries run, and an admission is past its look
      only if it was when the fence came up. */
  lemma {:induction false} FenceHoldsUntilConfirmed(s: State, run: seq<Move>, r: ResId, t: Tid)
    requires Inv(s) && IsRun(s, run) && Fenced(s.world.tables, r) && Unconfirmed(s, run, r)
    ensures var s' := After(s, run);
            && Fenced(s'.world.tables, r) && StoredAt(s'.world, s.world.home[r], r)
            && (PastLook(PcOf(s', t), s.world.home[r]) ==> PastLook(PcOf(s, t), s.world.home[r]))
    decreases |run|
  {
    if run != [] {
      var m := run[0];
      FenceHoldsForAStep(s, m, r);
      LookIsNotPassed(s, m, t, s.world.home[r]);
      FenceHoldsUntilConfirmed(Step(s, m.t, m.c), run[1..], r, t);
    }
  }

  /** A removed reservation never comes back, and its slot never changes again. */
  lemma {:induction false} RemovedStaysRemoved(s: State, run: seq<Move>, r: ResId)
    requires Inv(s) && IsRun(s, run) && r in s.world.removed
    ensures var s' := After(s, run);
            r in s'.world.removed && !Stored(s'.world, r) && !Fenced(s'.world.tables, r)
            && ActionOf(s'.world.tables, r) == ActionOf(s.world.tables, r)
    decreases |run|
  {
    if run != [] {
      var m := run[0];
      StepKeepsInv(s, m.t, m.c);
      EffectChangeFits(s.world, PcOf(s, m.t), m.c);
      SoundChangeKeepsRecords(s.world, EffectOf(s.world.tables, PcOf(s, m.t), m.c).change);
      RemovedStaysRemoved(Step(s, m.t, m.c), run[1..], r);
    }
  }

  // A cleanup or confirmation with token `r` that has changed nothing and will answer no.
  predicate Futile(pc: Pc, r: ResId) {
    match pc
    case HostWantCell(_, token) => token == r
    case HostWantReservations(_, token) => token == r
    case HostWork(_, token) => token == r
    case HostRelease(token, ok) => token == r && !ok
    case FinishWantCell(call) => call.r == r
    case FinishWantCheck(call) => call.r == r
    case FinishCheck(call) => call.r == r
    case FinishFlag(call, current) => call.r == r && !current
    case FinishRelease(call, ok) => call.r == r && !ok
    case _ => false
  }

  predicate Refuses(pc: Pc, r: ResId) {
    Futile(pc, r) || pc == Replied(Flag(false)) || pc.RetryNext?
  }

  lemma FutileHostStep(tb: Tables, pc: Pc, c: Choice, r: ResId)
    requires GroupOf(pc) == HostGroup && Futile(pc, r) && forall dir :: !Current(tb, dir, r)
    ensures var e := HostEffect(tb, pc); e.change.Unchanged? && Refuses(e.pc, r)
  {
  }

  lemma FutileFinishStep(tb: Tables, pc: Pc, c: Choice, r: ResId)
    requires GroupOf(pc) == FinishGroup && Futile(pc, r) && forall dir :: !Current(tb, dir, r)
    ensures var e := FinishEffect(tb, pc, c); e.change.Unchanged? && Refuses(e.pc, r)
  {
  }

  /** A call with a stale token changes neither map nor any reservation, and answers no. */
  lemma StaleTokenChangesNothing(s: State, t: Tid, c: Choice, r: ResId)
    requires Inv(s) && CanStep(s, t, c) && r in s.world.removed && Futile(PcOf(s, t), r)
    ensures Step(s, t, c).world == s.world && Refuses(PcOf(Step(s, t, c), t), r)
  {
    assert forall dir :: !Current(s.world.tables, dir, r) by { assert !Stored(s.world, r); }
    if GroupOf(PcOf(s, t)) == HostGroup {
      FutileHostStep(s.world.tables, PcOf(s, t), c, r);
    } else {
      FutileFinishStep(s.world.tables, PcOf(s, t), c, r);
    }
  }

  // --- deadlock ---

  lemma {:induction false} UnusedIdExists(used: set<ResId>) returns (r: ResId)
    ensures r !in used
    ensures forall x :: x in used ==> x < r
  {
    if used == {} {
      r := 0;
    } else {
      var x :| x in used;
      var rest := UnusedIdExists(used - {x});
      r := if x < rest then rest else x + 1;
      forall y | y in used ensures y < r {
        assert y == x || y in used - {x};
      }
    }
  }

  // A choice that fits this point of a call.
  lemma SomeChoiceFits(tb: Tables, pc: Pc) returns (c: Choice)
    requires !pc.Idle?
    ensures ChoiceFits(tb, pc, c)
  {
    if pc.ReservationsHeld? || pc.AttachObtain? {
      var r := UnusedIdExists(tb.cells.Keys);
      c := if ChoiceFits(tb, pc, Go) then Go else Allocate(r);
    } else if pc.RetryNext? && pc.orphans != {} {
      var o :| o in pc.orphans;
      c := Pick(o.0, o.1);
    } else {
      c := if pc.AdmitRemoved? || pc.FinishAction? then Answer(true)
           else if pc.AdmitCreate? then Created(None) else Go;
    }
  }

  // Locks are taken in one order: a cell, then clients, then reservations.
  lemma LocksAreOrdered(tb: Tables, pc: Pc, c: Choice)
    requires ChoiceFits(tb, pc, c)
    ensures var move := EffectOf(tb, pc, c).move;
            && (move.TakeCell? ==> HoldsCell(pc).None? && !HoldsClients(pc) && !HoldsReservations(pc))
            && (move.TakeClients? ==> !HoldsClients(pc) && !HoldsReservations(pc))
            && (move.TakeReservations? ==> !HoldsReservations(pc))
  {
  }

  ghost predicate SomeoneCanStep(s: State) {
    exists t: Tid, c :: !PcOf(s, t).Idle? && CanStep(s, t, c)
  }

  lemma ReservationsHolderCanStep(s: State)
    requires Inv(s) && s.reservationsLock.Some?
    ensures SomeoneCanStep(s)
  {
    var t := s.reservationsLock.value;
    assert HoldsReservations(PcOf(s, t));
    var c := SomeChoiceFits(s.world.tables, PcOf(s, t));
    LocksAreOrdered(s.world.tables, PcOf(s, t), c);
    assert CanStep(s, t, c);
  }

  lemma ClientsHolderCanStep(s: State)
    requires Inv(s) && s.clientsLock.Some? && s.reservationsLock.None?
    ensures SomeoneCanStep(s)
  {
    var t := s.clientsLock.value;
    assert HoldsClients(PcOf(s, t));
    var c := SomeChoiceFits(s.world.tables, PcOf(s, t));
    LocksAreOrdered(s.world.tables, PcOf(s, t), c);
    assert CanStep(s, t, c);
  }

  /** While any call is under way, some call can take a step. */
  lemma NoDeadlock(run: seq<Move>, t: Tid)
    requires IsRun(START, run) && !PcOf(After(START, run), t).Idle?
    ensures SomeoneCanStep(After(START, run))
  {
    ReachableHasInv(run);
    var s := After(START, run);
    if s.reservationsLock.Some? {
      ReservationsHolderCanStep(s);
    } else if s.clientsLock.Some? {
      ClientsHolderCanStep(s);
    } else {
      var c := SomeChoiceFits(s.world.tables, PcOf(s, t));
      if !CanStep(s, t, c) {
        var r := EffectOf(s.world.tables, PcOf(s, t), c).move.r;
        var holder := s.cellLocks[r];
        assert HoldsCell(PcOf(s, holder)) == Some(r);
        var c' := SomeChoiceFits(s.world.tables, PcOf(s, holder));
        LocksAreOrdered(s.world.tables, PcOf(s, holder), c');
        assert CanStep(s, holder, c');
      }
    }
  }
}
