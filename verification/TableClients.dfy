/** What becomes of a cached client, over every interleaving of the table's calls. */
module TableClients {
  import opened Prelude
  import opened TableOperations
  import opened TableSteps
  import opened TableInvariants
  import opened TableTheorems
  import opened TableAdmission

  // A cleanup about to evict names its client, and an admission about to create one has found none.
  predicate KnowsItsClient(tb: Tables, pc: Pc) {
    match pc
    case AdmitCreate(dir) => dir !in tb.clients
    case FinishWantEvict(call, _) => call.client.Some?
    case FinishEvict(call, _) => call.client.Some?
    case _ => true
  }

  ghost predicate AllKnow(s: State) {
    forall t: Tid :: KnowsItsClient(s.world.tables, PcOf(s, t))
  }

  lemma FinishKnows(tb: Tables, pc: Pc, c: Choice)
    requires GroupOf(pc) == FinishGroup && KnowsItsClient(tb, pc)
    ensures KnowsItsClient(Changed(tb, EffectOf(tb, pc, c).change), EffectOf(tb, pc, c).pc)
  {
  }

  lemma AdmitKnows(tb: Tables, pc: Pc, c: Choice)
    requires GroupOf(pc) == AdmitGroup && ChoiceFits(tb, pc, c) && KnowsItsClient(tb, pc)
    ensures KnowsItsClient(Changed(tb, EffectOf(tb, pc, c).change), EffectOf(tb, pc, c).pc)
  {
  }

  lemma OthersKnow(tb: Tables, pc: Pc, c: Choice)
    requires GroupOf(pc) != FinishGroup && GroupOf(pc) != AdmitGroup && ChoiceFits(tb, pc, c)
    ensures var next := EffectOf(tb, pc, c).pc; !next.AdmitCreate? && !next.FinishWantEvict? && !next.FinishEvict?
  {
  }

  lemma StepKnows(s: State, m: Move)
    requires Inv(s) && AllKnow(s) && CanStep(s, m.t, m.c)
    ensures AllKnow(Step(s, m.t, m.c))
  {
    var tb, s' := s.world.tables, Step(s, m.t, m.c);
    forall t: Tid ensures KnowsItsClient(s'.world.tables, PcOf(s', t)) {
      assert KnowsItsClient(tb, PcOf(s, t));
      if t != m.t {
        if PcOf(s, t).AdmitCreate? {
          assert s.clientsLock == Some(t) by { assert HoldsClients(PcOf(s, t)); }
          OthersKeepClients(tb, PcOf(s, m.t), m.c);
        }
      } else if GroupOf(PcOf(s, t)) == FinishGroup {
        FinishKnows(tb, PcOf(s, t), m.c);
      } else if GroupOf(PcOf(s, t)) == AdmitGroup {
        AdmitKnows(tb, PcOf(s, t), m.c);
      } else {
        OthersKnow(tb, PcOf(s, t), m.c);
      }
    }
  }

  // The step takes `client` out of `dir`: an eviction that names it, or an insertion in its place.
  predicate Displaces(pc: Pc, dir: Dir, client: ClientId) {
    || (pc.ClientsHeld? && pc.clientsWork == Evict(dir, client))
    || (pc.ClientsHeld? && pc.clientsWork.Insert? && pc.clientsWork.dir == dir)
    || (pc.FinishEvict? && pc.call.dir == dir && pc.call.client == Some(client))
  }

  ghost predicate Undisplaced(s: State, run: seq<Move>, dir: Dir, client: ClientId)
    decreases |run|
  {
    run == [] ||
    (!Displaces(PcOf(s, run[0].t), dir, client) && Undisplaced(Step(s, run[0].t, run[0].c), run[1..], dir, client))
  }

  lemma AdmitKeepsClient(tb: Tables, pc: Pc, c: Choice, dir: Dir, client: ClientId)
    requires GroupOf(pc) == AdmitGroup && KnowsItsClient(tb, pc) && Owns(tb, dir, client)
    ensures Owns(Changed(tb, EffectOf(tb, pc, c).change), dir, client)
  {
  }

  lemma FinishKeepsClient(tb: Tables, pc: Pc, c: Choice, dir: Dir, client: ClientId)
    requires GroupOf(pc) == FinishGroup && HoldsClients(pc) && KnowsItsClient(tb, pc) && Owns(tb, dir, client)
    requires !Displaces(pc, dir, client)
    ensures Owns(Changed(tb, EffectOf(tb, pc, c).change), dir, client)
  {
  }

  lemma HolderKeepsClient(tb: Tables, pc: Pc, c: Choice, dir: Dir, client: ClientId)
    requires HoldsClients(pc) && KnowsItsClient(tb, pc) && Owns(tb, dir, client) && !Displaces(pc, dir, client)
    ensures Owns(Changed(tb, EffectOf(tb, pc, c).change), dir, client)
  {
    if GroupOf(pc) == AdmitGroup {
      AdmitKeepsClient(tb, pc, c, dir, client);
    } else if GroupOf(pc) == FinishGroup {
      FinishKeepsClient(tb, pc, c, dir, client);
    }
  }

  lemma {:induction false} StaysCached(s: State, run: seq<Move>, dir: Dir, client: ClientId)
    requires Inv(s) && AllKnow(s) && IsRun(s, run) && Owns(s.world.tables, dir, client)
    requires Undisplaced(s, run, dir, client)
    ensures Owns(After(s, run).world.tables, dir, client)
    decreases |run|
  {
    if run != [] {
      var m := run[0];
      if HoldsClients(PcOf(s, m.t)) {
        HolderKeepsClient(s.world.tables, PcOf(s, m.t), m.c, dir, client);
      } else {
        OthersKeepClients(s.world.tables, PcOf(s, m.t), m.c);
      }
      StepKeepsInv(s, m.t, m.c);
      StepKnows(s, m);
      StaysCached(Step(s, m.t, m.c), run[1..], dir, client);
    }
  }

  lemma {:induction false} RunKnows(s: State, run: seq<Move>)
    requires Inv(s) && AllKnow(s) && IsRun(s, run)
    ensures Inv(After(s, run)) && AllKnow(After(s, run))
    decreases |run|
  {
    if run != [] {
      StepKeepsInv(s, run[0].t, run[0].c);
      StepKnows(s, run[0]);
      RunKnows(Step(s, run[0].t, run[0].c), run[1..]);
    }
  }

  /** A cached client stays the cached one, whatever calls run, until one that names it evicts it, or
      another is inserted in its place: no stale cleanup takes out its successor. */
  lemma CachedUntilNamed(before: seq<Move>, run: seq<Move>, dir: Dir, client: ClientId)
    requires IsRun(START, before) && IsRun(After(START, before), run)
    requires Owns(After(START, before).world.tables, dir, client)
    requires Undisplaced(After(START, before), run, dir, client)
    ensures Owns(After(After(START, before), run).world.tables, dir, client)
  {
    StartHasInv();
    RunKnows(START, before);
    StaysCached(After(START, before), run, dir, client);
  }

  // ----- retired clients -----

  lemma ClientRetires(tb: Tables, change: Change)
    ensures tb.retiring <= Changed(tb, change).retiring
  {
  }

  lemma {:induction false} RetiringStays(s: State, run: seq<Move>)
    requires IsRun(s, run)
    ensures s.world.tables.retiring <= After(s, run).world.tables.retiring
    decreases |run|
  {
    if run != [] {
      ClientRetires(s.world.tables, EffectOf(s.world.tables, PcOf(s, run[0].t), run[0].c).change);
      RetiringStays(Step(s, run[0].t, run[0].c), run[1..]);
    }
  }

  /** From the moment a client is retired, no admission hands it out, however many calls run, unless
      the caller's constructor comes up with that very client again. */
  lemma RetiredIsNotHandedOut(s: State, run: seq<Move>, t: Tid, c: Choice, client: ClientId)
    requires IsRun(s, run) && client in s.world.tables.retiring
    requires var s' := After(s, run);
      CanStep(s', t, c) && PcOf(Step(s', t, c), t) == Replied(AdmissionReply(Admitted(client)))
    ensures c == Created(Some(client))
  {
    RetiringStays(s, run);
    AdmissionComesFromThere(After(s, run).world.tables, PcOf(After(s, run), t), c);
  }
}
