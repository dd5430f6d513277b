/**
Admission under a host fence. The look for a reservation and the decision are two steps, and
only the clients lock is held from one to the other, while a fence comes up under the
reservations lock: an admission past its look goes on.
*/
module TableAdmission {
  import opened Prelude
  import opened TableOperations
  import opened TableSteps
  import opened TableInvariants
  import opened TableTheorems
  import opened TableAlone

  // The step answers an admission to `dir` with a client.
  predicate Admits(tb: Tables, pc: Pc, c: Choice, dir: Dir) {
    var next := EffectOf(tb, pc, c).pc;
    (pc.AdmitDecide? || pc.AdmitCreate?) && pc.dir == dir
    && next.Replied? && next.reply.AdmissionReply? && next.reply.admission.Admitted?
  }

  // Past the look, and not in front of a client that is retiring.
  predicate MayAdmit(tb: Tables, pc: Pc, dir: Dir) {
    pc == AdmitCreate(dir) || (pc == AdmitDecide(dir, false) && (dir in tb.clients ==> tb.clients[dir] !in tb.retiring))
  }

  // The fence of `r` stays up over the run, and then the step admits a client.
  ghost predicate AdmittedUnderFence(s: State, run: seq<Move>, r: ResId, t: Tid, c: Choice) {
    && r in s.world.home && IsRun(s, run) && Unconfirmed(s, run, r)
    && var s' := After(s, run);
       Fenced(s'.world.tables, r) && CanStep(s', t, c) && Admits(s'.world.tables, PcOf(s', t), c, s.world.home[r])
  }

  lemma PlainKeepsClients(tb: Tables, pc: Pc, c: Choice)
    requires GroupOf(pc) == PlainGroup && !HoldsClients(pc)
    ensures var change := PlainEffect(tb, pc, c).change; !change.ClientsSet? && !change.Retired?
  {
  }

  lemma FinishKeepsClients(tb: Tables, pc: Pc, c: Choice)
    requires GroupOf(pc) == FinishGroup && !HoldsClients(pc)
    ensures var change := FinishEffect(tb, pc, c).change; !change.ClientsSet? && !change.Retired?
  {
  }

  lemma AttachKeepsClients(tb: Tables, pc: Pc, c: Choice)
    requires GroupOf(pc) == AttachGroup
    ensures var change := AttachEffect(tb, pc, c).change; !change.ClientsSet? && !change.Retired?
  {
  }

  lemma RestKeepsClients(tb: Tables, pc: Pc, c: Choice)
    requires GroupOf(pc) == AdmitGroup || GroupOf(pc) == HostGroup || GroupOf(pc) == RetryGroup
    requires !HoldsClients(pc)
    ensures var change := EffectOf(tb, pc, c).change; !change.ClientsSet? && !change.Retired?
  {
  }

  lemma OnlyTheseChangeClients(tb: Tables, change: Change)
    requires !change.ClientsSet? && !change.Retired?
    ensures Changed(tb, change).clients == tb.clients && Changed(tb, change).retiring == tb.retiring
  {
  }

  // Only the holder of the clients lock changes what is behind it.
  lemma OthersKeepClients(tb: Tables, pc: Pc, c: Choice)
    requires !HoldsClients(pc)
    ensures var tb' := Changed(tb, EffectOf(tb, pc, c).change); tb'.clients == tb.clients && tb'.retiring == tb.retiring
  {
    match GroupOf(pc) {
      case PlainGroup => PlainKeepsClients(tb, pc, c);
      case FinishGroup => FinishKeepsClients(tb, pc, c);
      case AttachGroup => AttachKeepsClients(tb, pc, c);
      case _ => RestKeepsClients(tb, pc, c);
    }
    OnlyTheseChangeClients(tb, EffectOf(tb, pc, c).change);
  }

  lemma MayAdmitOnlyIfItMight(s: State, m: Move, t: Tid, dir: Dir)
    requires Inv(s) && CanStep(s, m.t, m.c) && dir in s.world.tables.reservations
    requires MayAdmit(Step(s, m.t, m.c).world.tables, PcOf(Step(s, m.t, m.c), t), dir)
    ensures MayAdmit(s.world.tables, PcOf(s, t), dir)
  {
    LookIsNotPassed(s, m, t, dir);
    if m.t != t {
      assert s.clientsLock == Some(t) by { assert HoldsClients(PcOf(s, t)); }
      OthersKeepClients(s.world.tables, PcOf(s, m.t), m.c);
    }
  }

  lemma {:induction false} AdmittedOnlyIfItMight(s: State, run: seq<Move>, r: ResId, t: Tid, c: Choice)
    requires Inv(s) && Fenced(s.world.tables, r) && AdmittedUnderFence(s, run, r, t, c)
    ensures MayAdmit(s.world.tables, PcOf(s, t), s.world.home[r])
    decreases |run|
  {
    var dir := s.world.home[r];
    if run == [] {
      AdmittingStepMight(s.world.tables, PcOf(s, t), c, dir);
    } else {
      var m := run[0];
      FenceHoldsForAStep(s, m, r);
      LaterAdmission(s, run, r, t, c);
      AdmittedOnlyIfItMight(Step(s, m.t, m.c), run[1..], r, t, c);
      MayAdmitOnlyIfItMight(s, m, t, dir);
    }
  }

  lemma LaterAdmission(s: State, run: seq<Move>, r: ResId, t: Tid, c: Choice)
    requires Inv(s) && Fenced(s.world.tables, r) && run != [] && AdmittedUnderFence(s, run, r, t, c)
    ensures AdmittedUnderFence(Step(s, run[0].t, run[0].c), run[1..], r, t, c)
    ensures s.world.home[r] in s.world.tables.reservations
  {
    FenceHoldsForAStep(s, run[0], r);
    assert RecordsMatch(s.world) && Stored(s.world, r);
  }

  lemma AdmittingStepMight(tb: Tables, pc: Pc, c: Choice, dir: Dir)
    requires Admits(tb, pc, c, dir)
    ensures MayAdmit(tb, pc, dir)
  {
  }

  lemma CreationAdmits(s: State, t: Tid, dir: Dir)
    requires PcOf(s, t) == AdmitCreate(dir)
    ensures CanStep(s, t, Created(Some(0))) && Admits(s.world.tables, PcOf(s, t), Created(Some(0)), dir)
  {
  }

  lemma DecisionAdmits(s: State, t: Tid, dir: Dir)
    requires PcOf(s, t) == AdmitDecide(dir, false) && MayAdmit(s.world.tables, PcOf(s, t), dir)
    ensures CanStep(s, t, Go)
    ensures if dir in s.world.tables.clients then Admits(s.world.tables, PcOf(s, t), Go, dir)
            else PcOf(Step(s, t, Go), t) == AdmitCreate(dir)
  {
  }

  lemma FenceSurvivesDecision(s: State, r: ResId, t: Tid)
    requires Inv(s) && Fenced(s.world.tables, r) && PcOf(s, t).AdmitDecide? && CanStep(s, t, Go)
    ensures IsRun(s, [Move(t, Go)]) && Unconfirmed(s, [Move(t, Go)], r)
    ensures After(s, [Move(t, Go)]) == Step(s, t, Go)
    ensures Fenced(Step(s, t, Go).world.tables, r)
  {
    FenceHoldsForAStep(s, Move(t, Go), r);
  }

  lemma MightIsAdmitted(s: State, r: ResId, t: Tid) returns (run: seq<Move>, c: Choice)
    requires Inv(s) && Fenced(s.world.tables, r) && r in s.world.home
    requires MayAdmit(s.world.tables, PcOf(s, t), s.world.home[r])
    ensures AdmittedUnderFence(s, run, r, t, c)
  {
    var dir := s.world.home[r];
    run, c := [], Created(Some(0));
    if PcOf(s, t).AdmitCreate? {
      CreationAdmits(s, t, dir);
    } else {
      DecisionAdmits(s, t, dir);
      if dir in s.world.tables.clients {
        c := Go;
      } else {
        run := [Move(t, Go)];
        FenceSurvivesDecision(s, r, t);
        CreationAdmits(Step(s, t, Go), t, dir);
      }
    }
  }

  /**
  While a fence is up, an admission to its directory succeeds exactly when it was past its
  look as the fence came up, and not in front of a client that is retiring.
  */
  lemma AdmittedUnderFenceExactly(s: State, r: ResId, t: Tid)
    requires Inv(s) && Fenced(s.world.tables, r)
    ensures r in s.world.home
    ensures (exists run, c :: AdmittedUnderFence(s, run, r, t, c))
      <==> MayAdmit(s.world.tables, PcOf(s, t), s.world.home[r])
  {
    if run, c :| AdmittedUnderFence(s, run, r, t, c) {
      AdmittedOnlyIfItMight(s, run, r, t, c);
    }
    if MayAdmit(s.world.tables, PcOf(s, t), s.world.home[r]) {
      var run, c := MightIsAdmitted(s, r, t);
    }
  }

  // ----- it happens -----

  lemma AdmissionUpToDecision(dir: Dir) returns (cs: seq<Choice>)
    ensures Leads(EMPTY_TABLES, Idle, cs, (EMPTY_TABLES, AdmitDecide(dir, false)))
  {
    var end := (EMPTY_TABLES, AdmitDecide(dir, false));
    First(EMPTY_TABLES, AdmitLook(dir), Go, [], end);
    cs := [Go] + [];
    First(EMPTY_TABLES, AdmitWantReservations(dir), Go, cs, end);
    cs := [Go] + cs;
    First(EMPTY_TABLES, AdmitRemoved(dir), Answer(false), cs, end);
    cs := [Answer(false)] + cs;
    First(EMPTY_TABLES, AdmitWant(dir), Go, cs, end);
    cs := [Go] + cs;
    First(EMPTY_TABLES, Idle, Begin(AdmitWant(dir)), cs, end);
    cs := [Begin(AdmitWant(dir))] + cs;
  }

  // Another thread fences a directory that has no reservation yet.
  lemma NewFenceArrives(s: State, u: Tid, dir: Dir, r: ResId) returns (run: seq<Move>)
    requires PcOf(s, u).Idle? && s.reservationsLock.None?
    requires dir !in s.world.tables.reservations && r !in s.world.tables.cells
    ensures IsRun(s, run)
    ensures var s' := After(s, run);
            && (forall v: Tid :: v != u ==> PcOf(s', v) == PcOf(s, v))
            && Fenced(s'.world.tables, r) && Current(s'.world.tables, dir, r)
            && s'.world.tables.clients == s.world.tables.clients && s'.world.home == s.world.home[r := dir]
  {
    var begin, obtain := Move(u, Begin(ReservationsWant(RaiseFence(dir)))), Move(u, Allocate(r));
    var s1 := Step(s, u, begin.c);
    var s2 := Step(s1, u, Go);
    RunCons(s2, obtain, []);
    RunCons(s1, Move(u, Go), [obtain] + []);
    RunCons(s, begin, [Move(u, Go)] + ([obtain] + []));
    run := [begin] + ([Move(u, Go)] + ([obtain] + []));
  }

  lemma CreatedThere(s: State, t: Tid, dir: Dir, client: ClientId) returns (run: seq<Move>)
    requires PcOf(s, t) == AdmitDecide(dir, false) && dir !in s.world.tables.clients
    ensures IsRun(s, run)
    ensures var s' := After(s, run);
            && PcOf(s', t) == Replied(AdmissionReply(Admitted(client))) && Owns(s'.world.tables, dir, client)
            && s'.world.tables.reservations == s.world.tables.reservations
            && s'.world.tables.cells == s.world.tables.cells && s'.world.home == s.world.home
  {
    var decide, create := Move(t, Go), Move(t, Created(Some(client)));
    RunCons(Step(s, t, Go), create, []);
    RunCons(s, decide, [create] + []);
    run := [decide] + ([create] + []);
  }

  /** A run in which a client is admitted to a directory whose cleanup the host has fenced. */
  lemma AdmittedUnderAFence(dir: Dir, client: ClientId, r: ResId) returns (run: seq<Move>)
    ensures IsRun(START, run)
    ensures var s := After(START, run);
            && PcOf(s, 0) == Replied(AdmissionReply(Admitted(client))) && Owns(s.world.tables, dir, client)
            && Fenced(s.world.tables, r) && StoredAt(s.world, dir, r)
  {
    StartHasInv();
    var cs := AdmissionUpToDecision(dir);
    AloneIsARun(START, 0, cs);
    LoneRunTouchesNoOne(START, 0, cs, 1);
    var looked := MovesOf(0, cs);
    RunKeepsInv(START, looked);
    NoOneHoldsReservations(After(START, looked), 0);
    var fence := NewFenceArrives(After(START, looked), 1, dir, r);
    RunsCompose(START, looked, fence);
    run := looked + fence;
    var create := CreatedThere(After(START, run), 0, dir, client);
    RunsCompose(START, run, create);
    run := run + create;
  }
}
