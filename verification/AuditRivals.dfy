/**
An import while other openers finish the same one: exactly when it succeeds all the same. The
rivals only ever finish the import, so nothing is lost or repeated; but this opener can meet
their work at a call where it does not expect it.
*/
module AuditRivals {
  import opened Prelude
  import opened AuditNames
  import opened AuditImport
  import opened AuditStorage
  import opened AuditRerun
  import opened AuditProtocol
  import opened AuditDriven
  import L = AuditLone

  // Every call works, but a rival may finish the import of `source` before any of them.
  predicate OnlyRivals(script: seq<Fault>, source: Name) {
    forall k :: 0 <= k < |script| ==> script[k].Works? || script[k] == RivalFinishes(source)
  }

  // A rival that comes before this call finds the source there, and a checkpoint to begin from.
  predicate Strikes(w: World, f: Fault) {
    f.RivalFinishes? && f.source in w.streams && f.source in w.progress
  }

  // The calls before which a rival must not finish: the check of the target's end; those of a
  // batch that is not the last, once it is read; and the deletion, on a storage that reports a
  // missing stream there.
  predicate IsFatal(drv: Driver, pc: Pc) {
    match pc
    case Compare(_, len, p, batch) => p.sourceOffset + |batch| < len
    case CheckEnd(_, _, _, _) => true
    case Append(_, len, p, batch) => p.sourceOffset + |batch| < len
    case Recheck(_, len, p, batch) => p.sourceOffset + |batch| < len
    case Save(_, len, p) => p.sourceOffset < len
    case Delete(_, _, now) => drv.delete && now != 0
    case _ => false
  }

  // The first rival to find anything to do, if there is one, does not come before a fatal call.
  predicate IsSpared(drv: Driver, w: World, pc: Pc, script: seq<Fault>)
    requires Proper(pc)
    decreases Part(pc), Remains(pc), StepsTo(pc)
  {
    if !AtWork(pc) then true
    else if LoopIsOver(pc) then IsSpared(drv, w, AfterLoop(pc), script)
    else if Strikes(w, Next(script)) then !IsFatal(drv, pc)
    else
      StepComesCloser(drv, w, pc, Next(script));
      var (found, e) := (Found(w, Next(script)), Met(drv, w, pc, Next(script)));
      IsSpared(drv, Changed(found, e.change), e.pc, Rest(script))
  }

  // ----- after a rival has finished -----

  ghost predicate IsFinished(w: World, c: Copy) {
    Copied(w, c) && c.source !in w.streams
  }

  // Whether the opener still succeeds, once the source is gone.
  predicate Survives(drv: Driver, w: World, pc: Pc) {
    match pc
    case ReadCheckpoint(job, len) => job.source in w.progress && w.progress[job.source].sourceOffset >= len
    case Loop(job, len, p) =>
      p.sourceOffset >= len || (job.source in w.progress && w.progress[job.source].sourceOffset >= len)
    case Compare(_, len, p, batch) => p.sourceOffset + |batch| >= len
    case CheckEnd(_, _, _, _) => false
    case Append(_, len, p, batch) => p.sourceOffset + |batch| >= len
    case Recheck(_, len, p, batch) => p.sourceOffset + |batch| >= len
    case Save(_, len, p) => p.sourceOffset >= len
    case EmptyMeasure(job, len, _, _) => job.source in w.progress && w.progress[job.source].sourceOffset >= len
    case EmptyCheckpoint(job, len, _, _, now) =>
      now == 0 && job.source in w.progress && w.progress[job.source].sourceOffset >= len
    case Delete(_, _, now) => !(drv.delete && now != 0)
    case Down => false
    case _ => true
  }

  // At work on a source that is gone, with a checkpoint of it.
  ghost predicate IsLate(w: World, pc: Pc, c: Copy) {
    && Proper(pc) && OnJobOf(w, pc, c) && IsFinished(w, c) && c.source in w.progress
    && !pc.MeasureTarget? && !pc.SaveFirst?
  }

  lemma NoMoreRivals(w: World, f: Fault, c: Copy)
    requires c.source !in w.streams && (f.Works? || f == RivalFinishes(c.source))
    ensures Found(w, f) == w && !Strikes(w, f)
  {
  }

  // The target is complete: a batch that belongs to it is seen there, and it ends past it.
  lemma BatchIsSeen(w: World, p: Progress, batch: seq<Entry>, c: Copy)
    requires IsFinished(w, c) && IsBatch(batch, p, c)
    ensures c.target in w.streams && Window(Contents(w, c.target), p.targetOffset, |batch|) == batch
    ensures |Contents(w, c.target)| > p.targetOffset
  {
    assert c.full[..|c.full|] == c.full;
    var there := Contents(w, c.target);
    assert there == c.base + c.full;
    assert there[p.targetOffset..p.targetOffset + |batch|] == c.full[p.sourceOffset..p.sourceOffset + |batch|];
  }

  ghost predicate LateStep(drv: Driver, w: World, pc: Pc, f: Fault, c: Copy) {
    var e := Met(drv, w, pc, f);
    var w' := Changed(w, e.change);
    && Proper(e.pc)
    && (Survives(drv, w, pc) <==> Survives(drv, w', e.pc))
    && (AtWork(e.pc) ==> !e.pc.MeasureTarget? && !e.pc.SaveFirst? && c.source in w'.progress)
  }

  lemma LateLook(drv: Driver, w: World, pc: Pc, f: Fault, c: Copy)
    requires IsLate(w, pc, c) && (f.Works? || f == RivalFinishes(c.source)) && pc.Compare?
    ensures LateStep(drv, w, pc, f, c)
  {
    NoMoreRivals(w, f, c);
    BatchIsSeen(w, pc.p, pc.batch, c);
  }

  lemma LateLookAgain(drv: Driver, w: World, pc: Pc, f: Fault, c: Copy)
    requires IsLate(w, pc, c) && (f.Works? || f == RivalFinishes(c.source)) && pc.Recheck?
    ensures LateStep(drv, w, pc, f, c)
  {
    NoMoreRivals(w, f, c);
    BatchIsSeen(w, pc.p, pc.batch, c);
  }

  lemma LateAppend(drv: Driver, w: World, pc: Pc, f: Fault, c: Copy)
    requires IsLate(w, pc, c) && (f.Works? || f == RivalFinishes(c.source)) && (pc.CheckEnd? || pc.Append?)
    ensures LateStep(drv, w, pc, f, c)
  {
    NoMoreRivals(w, f, c);
    BatchIsSeen(w, pc.p, pc.batch, c);
  }

  lemma LateRead(drv: Driver, w: World, pc: Pc, f: Fault, c: Copy)
    requires IsLate(w, pc, c) && (f.Works? || f == RivalFinishes(c.source)) && pc.Loop? && !LoopIsOver(pc)
    ensures LateStep(drv, w, pc, f, c)
  {
    NoMoreRivals(w, f, c);
    assert Met(drv, w, pc, f) == Effect(EmptyMeasure(pc.job, pc.len, pc.p, true), Unchanged) by {
      assert Window(Contents(w, c.source), pc.p.sourceOffset, Min(WholePage(pc), BATCH)) == [];
    }
  }

  lemma LateMeasure(drv: Driver, w: World, pc: Pc, f: Fault, c: Copy)
    requires IsLate(w, pc, c) && (f.Works? || f == RivalFinishes(c.source))
    requires pc.EmptyMeasure? || pc.EmptyCheckpoint? || pc.MeasureSource? || pc.ReadCheckpoint?
    ensures LateStep(drv, w, pc, f, c)
  {
    NoMoreRivals(w, f, c);
  }

  lemma LateSave(drv: Driver, w: World, pc: Pc, f: Fault, c: Copy)
    requires IsLate(w, pc, c) && (f.Works? || f == RivalFinishes(c.source)) && pc.Save?
    ensures LateStep(drv, w, pc, f, c)
  {
    NoMoreRivals(w, f, c);
  }

  lemma LateEnd(drv: Driver, w: World, pc: Pc, f: Fault, c: Copy)
    requires IsLate(w, pc, c) && (f.Works? || f == RivalFinishes(c.source)) && (pc.DeleteMeasure? || pc.Delete?)
    ensures LateStep(drv, w, pc, f, c)
  {
    NoMoreRivals(w, f, c);
  }

  lemma AnyLateStep(drv: Driver, w: World, pc: Pc, f: Fault, c: Copy)
    requires IsLate(w, pc, c) && (f.Works? || f == RivalFinishes(c.source)) && !LoopIsOver(pc)
    ensures LateStep(drv, w, pc, f, c)
  {
    if pc.Compare? {
      LateLook(drv, w, pc, f, c);
    } else if pc.Recheck? {
      LateLookAgain(drv, w, pc, f, c);
    } else if pc.CheckEnd? || pc.Append? {
      LateAppend(drv, w, pc, f, c);
    } else if pc.Save? {
      LateSave(drv, w, pc, f, c);
    } else if pc.DeleteMeasure? || pc.Delete? {
      LateEnd(drv, w, pc, f, c);
    } else if pc.Loop? {
      LateRead(drv, w, pc, f, c);
    } else {
      LateMeasure(drv, w, pc, f, c);
    }
  }

  lemma NextIsRival(script: seq<Fault>, source: Name)
    requires OnlyRivals(script, source)
    ensures Next(script).Works? || Next(script) == RivalFinishes(source)
    ensures OnlyRivals(Rest(script), source)
  {
  }

  // A late opener succeeds or not, by the call it is at.
  lemma {:induction false} LateEnds(drv: Driver, w: World, pc: Pc, script: seq<Fault>, c: Copy)
    requires IsLate(w, pc, c) && OnlyRivals(script, c.source)
    ensures Ran(drv, w, pc, script).1.Ok? <==> Survives(drv, w, pc)
    decreases Part(pc), Remains(pc), StepsTo(pc)
  {
    if LoopIsOver(pc) {
      StepKeepsJob(w, pc, Go, c);
      if AtWork(AfterLoop(pc)) {
        LateEnds(drv, w, AfterLoop(pc), script, c);
      }
    } else {
      var f := Next(script);
      NextIsRival(script, c.source);
      NoMoreRivals(w, f, c);
      AnyLateStep(drv, w, pc, f, c);
      StepComesCloser(drv, w, pc, f);
      ChosenFits(drv, w, pc, f);
      StepKeepsJob(w, pc, Chosen(drv, w, pc, f), c);
      RanOn(drv, w, pc, script);
      var e := Met(drv, w, pc, f);
      if AtWork(e.pc) {
        LateEnds(drv, Changed(w, e.change), e.pc, Rest(script), c);
      }
    }
  }

  // ----- up to the first rival -----

  // The import goes on undisturbed, towards its end.
  ghost predicate IsOnItsWay(drv: Driver, w: World, pc: Pc, c: Copy) {
    && Proper(pc) && OnJobOf(w, pc, c) && NoneYet(w, pc)
    && L.Undisturbed(drv.read, w, pc) && L.Expected(drv.read, w, pc).1.NextSource?
  }

  lemma StrikeFinishes(w: World, f: Fault, c: Copy)
    requires Copied(w, c) && f == RivalFinishes(c.source) && Strikes(w, f)
    ensures var found := Found(w, f);
      && IsFinished(found, c) && c.source in found.progress && found.progress[c.source].sourceOffset == |c.full|
  {
    FaultKeepsCopy(w, f, c);
    TargetsAreApart(c.source, c.source);
  }

  // A rival that strikes decides.
  lemma StrikeDecides(drv: Driver, w: World, pc: Pc, script: seq<Fault>, c: Copy)
    requires IsOnItsWay(drv, w, pc, c) && AtWork(pc) && !LoopIsOver(pc)
    requires OnlyRivals(script, c.source) && Strikes(w, Next(script))
    ensures Ran(drv, w, pc, script).1.Ok? <==> !IsFatal(drv, pc)
    ensures IsFinished(Ran(drv, w, pc, script).0, c)
  {
    var f := Next(script);
    var found := Found(w, f);
    NextIsRival(script, c.source);
    StrikeFinishes(w, f, c);
    FaultKeepsJob(w, pc, f, c);
    NoMoreRivals(found, f, c);
    RanOn(drv, w, pc, script);
    RanOn(drv, found, pc, script);
    LateEnds(drv, found, pc, script, c);
    RanKeepsCopy(drv, found, pc, script, c);
    VerdictOfStrike(drv, w, found, pc, c);
  }

  lemma VerdictOfStrike(drv: Driver, w: World, found: World, pc: Pc, c: Copy)
    requires IsOnItsWay(drv, w, pc, c) && AtWork(pc) && !LoopIsOver(pc)
    requires c.source in found.progress && found.progress[c.source].sourceOffset == |c.full|
    ensures Survives(drv, found, pc) <==> !IsFatal(drv, pc)
  {
  }

  lemma CalmStep(drv: Driver, w: World, pc: Pc, f: Fault, c: Copy)
    requires IsOnItsWay(drv, w, pc, c) && AtWork(pc) && !LoopIsOver(pc)
    requires (f.Works? || f == RivalFinishes(c.source)) && !Strikes(w, f)
    ensures Found(w, f) == w
    ensures var e := Met(drv, w, pc, f);
      var w' := Changed(w, e.change);
      && (AtWork(e.pc) ==> IsOnItsWay(drv, w', e.pc, c))
      && (!AtWork(e.pc) ==> e.pc.NextSource? && Copied(w', c) && c.source !in w'.streams)
  {
    var choice := Chosen(drv, w, pc, f);
    CalmChoiceIsPlain(drv, w, pc, f);
    L.StepGoesOn(drv.read, w, false, pc, choice);
    ChosenFits(drv, w, pc, f);
    StepKeepsJob(w, pc, choice, c);
    StepComesCloser(drv, w, pc, f);
  }

  lemma CalmChoiceIsPlain(drv: Driver, w: World, pc: Pc, f: Fault)
    requires Proper(pc) && AtWork(pc) && !LoopIsOver(pc) && L.Undisturbed(drv.read, w, pc)
    requires Found(w, f) == w && (f.Works? || f.RivalFinishes?)
    ensures L.Plain(drv.read, w, pc, Chosen(drv, w, pc, f))
  {
  }

  // A call that no rival comes before decides nothing.
  lemma CalmCall(drv: Driver, w: World, pc: Pc, script: seq<Fault>, c: Copy) returns (w': World, pc': Pc)
    requires IsOnItsWay(drv, w, pc, c) && AtWork(pc) && !LoopIsOver(pc)
    requires OnlyRivals(script, c.source) && !Strikes(w, Next(script))
    ensures Proper(pc') && Closer(pc, pc') && OnlyRivals(Rest(script), c.source)
    ensures IsSpared(drv, w, pc, script) == IsSpared(drv, w', pc', Rest(script))
    ensures Ran(drv, w, pc, script) == Ran(drv, w', pc', Rest(script))
    ensures if AtWork(pc') then IsOnItsWay(drv, w', pc', c) else pc'.NextSource? && IsFinished(w', c)
  {
    var f := Next(script);
    NextIsRival(script, c.source);
    CalmStep(drv, w, pc, f, c);
    StepComesCloser(drv, w, pc, f);
    RanOn(drv, w, pc, script);
    var e := Met(drv, w, pc, f);
    w', pc' := Changed(w, e.change), e.pc;
  }

  /**
  From any point of an import that would complete undisturbed, whatever rivals finish before
  whichever calls: it succeeds exactly when the first of them does not come before a fatal call;
  and whether it does or not, the whole source is in the target, once, and gone.
  */
  lemma {:induction false} RivalsExactly(drv: Driver, w: World, pc: Pc, script: seq<Fault>, c: Copy)
    requires IsOnItsWay(drv, w, pc, c) && AtWork(pc) && OnlyRivals(script, c.source)
    ensures Ran(drv, w, pc, script).1.Ok? <==> IsSpared(drv, w, pc, script)
    ensures IsFinished(Ran(drv, w, pc, script).0, c)
    decreases Part(pc), Remains(pc), StepsTo(pc)
  {
    if LoopIsOver(pc) {
      LoopGoesOn(drv, w, pc, c);
      if AtWork(AfterLoop(pc)) {
        RivalsExactly(drv, w, AfterLoop(pc), script, c);
      }
    } else if Strikes(w, Next(script)) {
      StrikeDecides(drv, w, pc, script, c);
    } else {
      var w', pc' := CalmCall(drv, w, pc, script, c);
      if AtWork(pc') {
        RivalsExactly(drv, w', pc', Rest(script), c);
      }
    }
  }

  lemma LoopGoesOn(drv: Driver, w: World, pc: Pc, c: Copy)
    requires IsOnItsWay(drv, w, pc, c) && LoopIsOver(pc)
    ensures AtWork(AfterLoop(pc)) ==> IsOnItsWay(drv, w, AfterLoop(pc), c)
    ensures !AtWork(AfterLoop(pc)) ==> IsFinished(w, c)
  {
    L.StepGoesOn(drv.read, w, false, pc, Go);
    StepKeepsJob(w, pc, Go, c);
  }

  lemma RerunIsOnItsWay(drv: Driver, w: World, job: Job, c: Copy)
    requires Copied(w, c) && job.source == c.source && job.target == c.target && c.source in w.streams
    requires OnBatchBoundary(w, c) && TargetReadable(w, drv.read, c)
    ensures IsOnItsWay(drv, w, MeasureSource(job), c)
  {
    TargetsAreApart(c.source, c.source);
    RerunCompletesOnABatchBoundary(w, drv.read, c);
  }

  /**
  A rerun that would complete undisturbed, while rivals finish the same import before whichever
  of its calls: it succeeds exactly when the first of them does not come before a fatal call. In
  either case the target ends with the whole source, once, and the source is gone.
  */
  lemma RerunUnderRivals(drv: Driver, w: World, job: Job, script: seq<Fault>, c: Copy)
    requires Copied(w, c) && job.source == c.source && job.target == c.target && c.source in w.streams
    requires OnBatchBoundary(w, c) && TargetReadable(w, drv.read, c) && OnlyRivals(script, c.source)
    ensures var (w', end, _) := Ran(drv, w, MeasureSource(job), script);
      && (end.Ok? <==> IsSpared(drv, w, MeasureSource(job), script))
      && c.source !in w'.streams && Contents(w', c.target) == c.base + c.full
  {
    RerunIsOnItsWay(drv, w, job, c);
    RivalsExactly(drv, w, MeasureSource(job), script, c);
    assert c.full[..|c.full|] == c.full;
  }

  // ----- one entry, two openers -----

  // `n` calls that work, and then a rival.
  function RivalAfter(n: nat): (script: seq<Fault>)
    ensures OnlyRivals(script, LEGACY)
  {
    seq(n, _ => Works) + [RivalFinishes(LEGACY)]
  }

  function OneEntry(a: Entry): World {
    World(map[LEGACY := [a]], map[])
  }

  lemma SparedOn(drv: Driver, w: World, pc: Pc, n: nat)
    requires Proper(pc) && AtWork(pc) && !LoopIsOver(pc) && n > 0
    ensures var e := Met(drv, w, pc, Works);
      && Proper(e.pc)
      && IsSpared(drv, w, pc, RivalAfter(n)) == IsSpared(drv, Changed(w, e.change), e.pc, RivalAfter(n - 1))
  {
    StepComesCloser(drv, w, pc, Works);
    assert RivalAfter(n)[1..] == RivalAfter(n - 1);
  }

  // The first two calls find no checkpoint, and two more make one.
  lemma NoCheckpointIsFound(drv: Driver, a: Entry, n: nat)
    ensures var job := Job(LEGACY, CURRENT, {});
      IsSpared(drv, OneEntry(a), MeasureSource(job), RivalAfter(n + 2))
        == IsSpared(drv, OneEntry(a), MeasureTarget(job, 1), RivalAfter(n))
  {
    var (w, job) := (OneEntry(a), Job(LEGACY, CURRENT, {}));
    SparedOn(drv, w, MeasureSource(job), n + 2);
    SparedOn(drv, w, ReadCheckpoint(job, 1), n + 1);
  }

  lemma FirstIsMade(drv: Driver, a: Entry, n: nat)
    ensures var (job, p) := (Job(LEGACY, CURRENT, {}), Progress(CURRENT, 0, 0));
      IsSpared(drv, OneEntry(a), MeasureTarget(job, 1), RivalAfter(n + 2))
        == IsSpared(drv, WithProgress(OneEntry(a), LEGACY, p), Loop(job, 1, p), RivalAfter(n))
  {
    var (w, job) := (OneEntry(a), Job(LEGACY, CURRENT, {}));
    assert CURRENT !in w.streams by { assert LEGACY[3] != CURRENT[3]; }
    SparedOn(drv, w, MeasureTarget(job, 1), n + 2);
    SparedOn(drv, w, SaveFirst(job, 1, 0), n + 1);
  }

  // The next two read the entry, and do not find it in the target.
  lemma EntryIsRead(drv: Driver, a: Entry, n: nat)
    requires !drv.read
    ensures var (job, p) := (Job(LEGACY, CURRENT, {}), Progress(CURRENT, 0, 0));
      var w := WithProgress(OneEntry(a), LEGACY, p);
      IsSpared(drv, w, Loop(job, 1, p), RivalAfter(n + 2)) == IsSpared(drv, w, CheckEnd(job, 1, p, [a]), RivalAfter(n))
  {
    var (job, p) := (Job(LEGACY, CURRENT, {}), Progress(CURRENT, 0, 0));
    var w := WithProgress(OneEntry(a), LEGACY, p);
    assert LEGACY[3] != CURRENT[3];
    assert Window([a], 0, BATCH) == [a] && [a][..1] == [a];
    SparedOn(drv, w, Loop(job, 1, p), n + 2);
    SparedOn(drv, w, Compare(job, 1, p, [a]), n + 1);
  }

  // At the check of the target's end a rival is fatal; one call later it is not.
  lemma RivalThereDecides(drv: Driver, w: World, job: Job, p: Progress, a: Entry, n: nat)
    requires job.source == LEGACY && LEGACY in w.streams && LEGACY in w.progress && n <= 1
    requires p.sourceOffset == 0 && |Contents(w, p.target)| == p.targetOffset
    ensures IsSpared(drv, w, CheckEnd(job, 1, p, [a]), RivalAfter(n)) <==> n == 1
  {
    if n == 1 {
      SparedOn(drv, w, CheckEnd(job, 1, p, [a]), 1);
    }
  }

  lemma OneEntryIsSpared(drv: Driver, a: Entry, n: nat)
    requires !drv.read && 6 <= n <= 7
    ensures IsSpared(drv, OneEntry(a), MeasureSource(Job(LEGACY, CURRENT, {})), RivalAfter(n)) <==> n == 7
  {
    var (job, p) := (Job(LEGACY, CURRENT, {}), Progress(CURRENT, 0, 0));
    assert CURRENT !in OneEntry(a).streams by { assert LEGACY[3] != CURRENT[3]; }
    NoCheckpointIsFound(drv, a, n - 2);
    FirstIsMade(drv, a, n - 4);
    EntryIsRead(drv, a, n - 6);
    RivalThereDecides(drv, WithProgress(OneEntry(a), LEGACY, p), job, p, a, n - 6);
  }

  /**
  One entry to import, and a rival that finishes before one of the calls. Before the append, the
  eighth call, it is taken for what it is; one call earlier, before the check of the target's
  end, it is taken for a change of the target, and the import fails with everything done.
  */
  lemma RivalAtTheAppendOrTheCheck(drv: Driver, a: Entry, n: nat)
    requires !drv.read && 6 <= n <= 7
    ensures var (w, end, _) := Ran(drv, OneEntry(a), MeasureSource(Job(LEGACY, CURRENT, {})), RivalAfter(n));
      && (end.Ok? <==> n == 7)
      && LEGACY !in w.streams && Contents(w, CURRENT) == [a]
  {
    var c := Copy(LEGACY, CURRENT, [], [a]);
    assert LEGACY[3] != CURRENT[3];
    assert Contents(OneEntry(a), CURRENT) == [] == [] + [a][..0];
    RerunUnderRivals(drv, OneEntry(a), Job(LEGACY, CURRENT, {}), RivalAfter(n), c);
    OneEntryIsSpared(drv, a, n);
  }
}
