/**
The cleanup that answers no: what it has done by then, in any interleaving. It has changed
nothing, except in one case that no undisturbed cleanup meets.
*/
module TableRefusal {
  import opened Prelude
  import opened TableOperations
  import opened TableSteps
  import opened TableInvariants
  import opened TableTheorems
  import opened TableAlone

  // --- when ---

  // In the course of the call, its answer not yet known.
  predicate InCall(pc: Pc, call: FinishCall) {
    GroupOf(pc) == FinishGroup && !pc.FinishRelease? && pc.call == call
  }

  ghost predicate StaysInCall(s: State, run: seq<Move>, t: Tid, call: FinishCall)
    decreases |run|
  {
    InCall(PcOf(s, t), call)
    && (run == [] || StaysInCall(Step(s, run[0].t, run[0].c), run[1..], t, call))
  }

  // The step takes the call's own client out of the table.
  predicate EvictsNow(tb: Tables, pc: Pc, c: Choice, call: FinishCall) {
    call.client.Some? && Owns(tb, call.dir, call.client.value)
    && EffectOf(tb, pc, c).change == ClientsSet(tb.clients - {call.dir})
  }

  // Some step of the thread does.
  ghost predicate Evicts(s: State, run: seq<Move>, t: Tid, call: FinishCall)
    decreases |run|
  {
    run != []
    && ((run[0].t == t && EvictsNow(s.world.tables, PcOf(s, t), run[0].c, call))
        || Evicts(Step(s, run[0].t, run[0].c), run[1..], t, call))
  }

  // No step of the thread changes the table.
  ghost predicate LeavesAll(s: State, run: seq<Move>, t: Tid)
    decreases |run|
  {
    run == []
    || ((run[0].t == t ==> EffectOf(s.world.tables, PcOf(s, t), run[0].c).change.Unchanged?)
        && LeavesAll(Step(s, run[0].t, run[0].c), run[1..], t))
  }

  predicate PastEviction(pc: Pc) {
    pc.FinishWantDrop? || pc.FinishDrop?
  }

  lemma StepInCall(tb: Tables, pc: Pc, c: Choice, call: FinishCall)
    requires InCall(pc, call) && InCall(FinishEffect(tb, pc, c).pc, call) && call.client.Some?
    ensures var e := FinishEffect(tb, pc, c);
            && (PastEviction(e.pc) <==> PastEviction(pc) || EvictsNow(tb, pc, c, call))
            && (e.change.Unchanged? <==> !EvictsNow(tb, pc, c, call))
  {
  }

  // Past the eviction is where the client has been evicted, and before it nothing has changed.
  lemma {:induction false} EvictionIsPassed(s: State, run: seq<Move>, t: Tid, call: FinishCall)
    requires IsRun(s, run) && StaysInCall(s, run, t, call) && call.client.Some?
    ensures PastEviction(PcOf(After(s, run), t)) <==> PastEviction(PcOf(s, t)) || Evicts(s, run, t, call)
    ensures !Evicts(s, run, t, call) ==> LeavesAll(s, run, t)
    ensures InCall(PcOf(After(s, run), t), call)
    decreases |run|
  {
    if run != [] {
      var m := run[0];
      EvictionIsPassed(Step(s, m.t, m.c), run[1..], t, call);
      if m.t == t {
        StepInCall(s.world.tables, PcOf(s, t), m.c, call);
      }
    }
  }

  // The answer is known to be no before the last check, or the reservation is fenced there.
  lemma AnsweringStep(tb: Tables, pc: Pc, c: Choice, call: FinishCall, ok: bool)
    requires InCall(pc, call) && call.client.Some? && FinishEffect(tb, pc, c).pc == FinishRelease(call, ok)
    requires pc.FinishDrop? ==> Current(tb, call.dir, call.r)
    ensures PastEviction(pc) <==> pc.FinishDrop?
    ensures pc.FinishDrop? ==> ok == !Fenced(tb, call.r)
    ensures !pc.FinishDrop? ==> !ok
    ensures !ok ==> FinishEffect(tb, pc, c).change.Unchanged?
  {
  }

  /** At the last check of `finish_cleanup` its reservation cannot have been replaced meanwhile,
      so the check fails exactly when a fence has come up since the first. */
  lemma LastCheckFailsOnlyToAFence(s: State, t: Tid, c: Choice)
    requires Inv(s) && CanStep(s, t, c) && PcOf(s, t).FinishDrop?
    ensures PcOf(Step(s, t, c), t)
            == FinishRelease(PcOf(s, t).call, !Fenced(s.world.tables, PcOf(s, t).call.r))
    ensures Current(s.world.tables, PcOf(s, t).call.dir, PcOf(s, t).call.r)
  {
    assert ThreadKnows(s.world, PcOf(s, t));
    DropStoredReservation(s.world.tables, PcOf(s, t), c);
  }

  lemma DropStoredReservation(tb: Tables, pc: Pc, c: Choice)
    requires pc.FinishDrop? && Current(tb, pc.call.dir, pc.call.r)
    ensures EffectOf(tb, pc, c).pc == FinishRelease(pc.call, !Fenced(tb, pc.call.r))
  {
  }

  // How the answer of the call is settled in one state.
  lemma AnswerIsSettled(s: State, t: Tid, c: Choice, call: FinishCall, ok: bool)
    requires Inv(s) && CanStep(s, t, c) && InCall(PcOf(s, t), call) && call.client.Some?
    requires PcOf(Step(s, t, c), t) == FinishRelease(call, ok)
    ensures var (tb, pc) := (s.world.tables, PcOf(s, t));
            && (PastEviction(pc) <==> pc.FinishDrop?)
            && (ok <==> pc.FinishDrop? && !Fenced(tb, call.r))
            && (!ok ==> EffectOf(tb, pc, c).change.Unchanged?)
  {
    if PcOf(s, t).FinishDrop? {
      LastCheckFailsOnlyToAFence(s, t, c);
    }
    AnsweringStep(s.world.tables, PcOf(s, t), c, call, ok);
  }

  /**
  A cleanup that names a client, in any interleaving, up to the step that settles its answer:
  the answer is no with the client evicted exactly when the cleanup gets as far as its last
  check and finds its reservation fenced there. Any other no has changed nothing, and getting
  to the last check without a fence is a yes.
  */
  lemma RefusalExactly(s: State, run: seq<Move>, t: Tid, c: Choice, call: FinishCall, ok: bool)
    requires Inv(s) && IsRun(s, run) && StaysInCall(s, run, t, call) && PcOf(s, t) == FinishWantCell(call)
    requires call.client.Some?
    requires CanStep(After(s, run), t, c) && PcOf(Step(After(s, run), t, c), t) == FinishRelease(call, ok)
    ensures var s' := After(s, run);
            && (!ok && Evicts(s, run, t, call) <==> PcOf(s', t).FinishDrop? && Fenced(s'.world.tables, call.r))
            && (!ok && !Evicts(s, run, t, call) ==> LeavesAll(s, run + [Move(t, c)], t))
            && (ok <==> PcOf(s', t).FinishDrop? && !Fenced(s'.world.tables, call.r))
  {
    RunKeepsInv(s, run);
    EvictionIsPassed(s, run, t, call);
    AnswerIsSettled(After(s, run), t, c, call, ok);
    if !ok && !Evicts(s, run, t, call) {
      LeavesAllToo(s, run, t, c);
    }
  }

  lemma {:induction false} LeavesAllToo(s: State, run: seq<Move>, t: Tid, c: Choice)
    requires IsRun(s, run) && LeavesAll(s, run, t)
    requires EffectOf(After(s, run).world.tables, PcOf(After(s, run), t), c).change.Unchanged?
    ensures LeavesAll(s, run + [Move(t, c)], t)
    decreases |run|
  {
    if run == [] {
      assert run + [Move(t, c)] == [Move(t, c)];
    } else {
      LeavesAllToo(Step(s, run[0].t, run[0].c), run[1..], t, c);
      assert (run + [Move(t, c)])[1..] == run[1..] + [Move(t, c)];
    }
  }

  // --- it happens ---

  // A cleanup of `client`, whose directory is reserved by `r`, up to its eviction.
  lemma CleanupUpToEviction(dir: Dir, client: ClientId, r: ResId) returns (cs: seq<Choice>)
    ensures var tb := Tables(map[dir := client], {}, map[dir := r], map[r := FRESH_CELL]);
            Leads(tb, Idle, cs, (tb, FinishEvict(FinishCall(dir, Some(client), r, None), None)))
  {
    var tb := Tables(map[dir := client], {}, map[dir := r], map[r := FRESH_CELL]);
    var call := FinishCall(dir, Some(client), r, None);
    var end := (tb, FinishEvict(call, None));
    FirstFinish(tb, FinishWantEvict(call, None), Go, [], end);
    cs := [Go] + [];
    FirstFinish(tb, FinishAction(call), Answer(true), cs, end);
    cs := [Answer(true)] + cs;
    cs := CheckedSteps(tb, call, cs, end);
  }

  lemma OwnedSteps(tb: Tables, call: FinishCall, rest: seq<Choice>, end: (Tables, Pc)) returns (cs: seq<Choice>)
    requires call.client.Some? && Owns(tb, call.dir, call.client.value)
    requires Leads(tb, FinishAction(call), rest, end)
    ensures Leads(tb, FinishWantOwner(call), cs, end)
  {
    cs := rest;
    FirstFinish(tb, FinishOwner(call), Go, cs, end);
    cs := [Go] + cs;
    FirstFinish(tb, FinishWantOwner(call), Go, cs, end);
    cs := [Go] + cs;
  }

  lemma CurrentSteps(tb: Tables, call: FinishCall, rest: seq<Choice>, end: (Tables, Pc)) returns (cs: seq<Choice>)
    requires call.client.Some?
    requires Current(tb, call.dir, call.r) && !Fenced(tb, call.r) && Owns(tb, call.dir, call.client.value)
    requires Leads(tb, FinishAction(call), rest, end)
    ensures Leads(tb, FinishCheck(call), cs, end)
  {
    cs := OwnedSteps(tb, call, rest, end);
    FirstFinish(tb, FinishFlag(call, true), Go, cs, end);
    cs := [Go] + cs;
    FirstFinish(tb, FinishCheck(call), Go, cs, end);
    cs := [Go] + cs;
  }

  lemma CheckedSteps(tb: Tables, call: FinishCall, rest: seq<Choice>, end: (Tables, Pc)) returns (cs: seq<Choice>)
    requires call.client.Some? && call.orphans.None? && call.r in tb.cells
    requires Current(tb, call.dir, call.r) && !Fenced(tb, call.r) && Owns(tb, call.dir, call.client.value)
    requires Leads(tb, FinishAction(call), rest, end)
    ensures Leads(tb, Idle, cs, end)
  {
    cs := CurrentSteps(tb, call, rest, end);
    FirstFinish(tb, FinishWantCheck(call), Go, cs, end);
    cs := [Go] + cs;
    FirstFinish(tb, FinishWantCell(call), Go, cs, end);
    cs := [Go] + cs;
    First(tb, Idle, Begin(FinishWantCell(call)), cs, end);
    cs := [Begin(FinishWantCell(call))] + cs;
  }

  // The steps that first put the client and the reservation there.
  lemma SetUp(dir: Dir, client: ClientId, r: ResId, rest: seq<Choice>, end: (Tables, Pc)) returns (cs: seq<Choice>)
    requires Leads(Tables(map[dir := client], {}, map[dir := r], map[r := FRESH_CELL]), Idle, rest, end)
    ensures Leads(EMPTY_TABLES, Idle, cs, end)
  {
    var mid := Tables(map[], {}, map[dir := r], map[r := FRESH_CELL]);
    var tb := mid.(clients := map[dir := client]);
    cs := rest;
    First(tb, Replied(NoReply), Go, cs, end);
    cs := [Go] + cs;
    First(mid, ClientsHeld(Insert(dir, client)), Go, cs, end);
    cs := [Go] + cs;
    First(mid, ClientsWant(Insert(dir, client)), Go, cs, end);
    cs := [Go] + cs;
    First(mid, Idle, Begin(ClientsWant(Insert(dir, client))), cs, end);
    cs := [Begin(ClientsWant(Insert(dir, client)))] + cs;
    First(mid, Replied(Token(r)), Go, cs, end);
    cs := [Go] + cs;
    First(EMPTY_TABLES, ReservationsHeld(ObtainFor(dir)), Allocate(r), cs, end);
    cs := [Allocate(r)] + cs;
    First(EMPTY_TABLES, ReservationsWant(ObtainFor(dir)), Go, cs, end);
    cs := [Go] + cs;
    First(EMPTY_TABLES, Idle, Begin(ReservationsWant(ObtainFor(dir))), cs, end);
    cs := [Begin(ReservationsWant(ObtainFor(dir)))] + cs;
  }

  // Another thread fences the directory while the cleanup holds the clients lock.
  lemma FenceArrives(s: State, u: Tid, dir: Dir, r: ResId) returns (run: seq<Move>)
    requires PcOf(s, u).Idle? && s.reservationsLock.None? && Current(s.world.tables, dir, r)
    ensures IsRun(s, run)
    ensures var s' := After(s, run);
            && (forall v: Tid :: v != u ==> PcOf(s', v) == PcOf(s, v)) && PcOf(s', u).Replied?
            && s'.world.tables == WithCell(s.world.tables, r, Cell(ActionOf(s.world.tables, r), true))
  {
    var begin := Move(u, Begin(ReservationsWant(RaiseFence(dir))));
    var s1 := Step(s, u, begin.c);
    var s2 := Step(s1, u, Go);
    var s3 := Step(s2, u, Go);
    RunCons(s2, Move(u, Go), []);
    RunCons(s1, Move(u, Go), [Move(u, Go)] + []);
    RunCons(s, begin, [Move(u, Go)] + ([Move(u, Go)] + []));
    run := [begin] + ([Move(u, Go)] + ([Move(u, Go)] + []));
  }

  lemma RefusedStep(tb: Tables, call: FinishCall) returns (cs: seq<Choice>)
    requires call.orphans.None?
    ensures Leads(tb, FinishRelease(call, false), cs, (tb, Replied(Flag(false))))
  {
    FirstFinish(tb, FinishRelease(call, false), Go, [], (tb, Replied(Flag(false))));
    cs := [Go] + [];
  }

  lemma MeetFence(tb: Tables, call: FinishCall) returns (cs: seq<Choice>)
    requires call.orphans.None? && Fenced(tb, call.r)
    ensures Leads(tb, FinishWantDrop(call, None), cs, (tb, Replied(Flag(false))))
  {
    var end := (tb, Replied(Flag(false)));
    cs := RefusedStep(tb, call);
    FirstFinish(tb, FinishDrop(call, None), Go, cs, end);
    cs := [Go] + cs;
    FirstFinish(tb, FinishWantDrop(call, None), Go, cs, end);
    cs := [Go] + cs;
  }

  // The cleanup goes on: it evicts the client, and only then meets the fence.
  lemma EvictThenMeetFence(tb: Tables, call: FinishCall) returns (cs: seq<Choice>)
    requires call.client.Some? && Owns(tb, call.dir, call.client.value) && call.orphans.None?
    requires Fenced(tb, call.r)
    ensures Leads(tb, FinishEvict(call, None), cs, (WithoutClient(tb, call.dir), Replied(Flag(false))))
  {
    var end := (WithoutClient(tb, call.dir), Replied(Flag(false)));
    cs := MeetFence(end.0, call);
    FirstFinish(tb, FinishEvict(call, None), Go, cs, end);
    cs := [Go] + cs;
  }

  // From the moment before the eviction: the host fences, the cleanup goes on.
  lemma LateFence(s: State, call: FinishCall) returns (run: seq<Move>)
    requires Inv(s) && OthersHoldNothing(s, 0) && PcOf(s, 1).Idle? && s.reservationsLock.None?
    requires PcOf(s, 0) == FinishEvict(call, None) && call.orphans.None? && call.client.Some?
    requires Owns(s.world.tables, call.dir, call.client.value) && Current(s.world.tables, call.dir, call.r)
    ensures IsRun(s, run)
    ensures var s' := After(s, run);
            && PcOf(s', 0) == Replied(Flag(false))
            && call.dir !in s'.world.tables.clients && Current(s'.world.tables, call.dir, call.r)
  {
    var fence := FenceArrives(s, 1, call.dir, call.r);
    OthersStillHoldNothing(s, After(s, fence), 0, 1);
    var fenced := After(s, fence).world.tables;
    var last := EvictThenMeetFence(fenced, call);
    run := ThenAlone(s, fence, 0, last, (WithoutClient(fenced, call.dir), Replied(Flag(false))));
  }

  lemma OthersStillHoldNothing(s: State, s': State, t: Tid, u: Tid)
    requires OthersHoldNothing(s, t) && PcOf(s', u).Replied?
    requires forall v: Tid :: v != u ==> PcOf(s', v) == PcOf(s, v)
    ensures OthersHoldNothing(s', t)
  {
  }

  lemma ThenAlone(s: State, prefix: seq<Move>, t: Tid, cs: seq<Choice>, end: (Tables, Pc)) returns (run: seq<Move>)
    requires Inv(s) && IsRun(s, prefix) && OthersHoldNothing(After(s, prefix), t)
    requires Leads(After(s, prefix).world.tables, PcOf(After(s, prefix), t), cs, end)
    ensures IsRun(s, run)
    ensures After(s, run).world.tables == end.0 && PcOf(After(s, run), t) == end.1
  {
    RunKeepsInv(s, prefix);
    AloneIsARun(After(s, prefix), t, cs);
    RunsCompose(s, prefix, MovesOf(t, cs));
    run := prefix + MovesOf(t, cs);
  }

  /** A cleanup that answers no may have evicted its client all the same: a run in which
      the host fences the directory between the eviction's check and the last one. No
      undisturbed cleanup does this, since `Finish` changes nothing when it answers no. */
  lemma RefusedCleanupMayEvict(dir: Dir, client: ClientId, r: ResId) returns (run: seq<Move>, i: nat)
    ensures IsRun(START, run)
    ensures i <= |run| && Owns(After(START, run[..i]).world.tables, dir, client)
            && PcOf(After(START, run[..i]), 0) == FinishEvict(FinishCall(dir, Some(client), r, None), None)
    ensures var s := After(START, run);
            && PcOf(s, 0) == Replied(Flag(false))
            && dir !in s.world.tables.clients && Current(s.world.tables, dir, r)
  {
    StartHasInv();
    var call := FinishCall(dir, Some(client), r, None);
    var cs := CleanupUpToEviction(dir, client, r);
    var tb := Tables(map[dir := client], {}, map[dir := r], map[r := FRESH_CELL]);
    cs := SetUp(dir, client, r, cs, (tb, FinishEvict(call, None)));
    AloneIsARun(START, 0, cs);
    var prefix := MovesOf(0, cs);
    LoneRunTouchesNoOne(START, 0, cs, 1);
    RunKeepsInv(START, prefix);
    NoOneHoldsReservations(After(START, prefix), 0);
    var rest := LateFence(After(START, prefix), call);
    RunsCompose(START, prefix, rest);
    run, i := prefix + rest, |prefix|;
    assert run[..i] == prefix;
  }
}
