/** What a crash can leave behind, and what the next import makes of it. */
module AuditRecovery {
  import opened Prelude
  import opened AuditNames
  import opened AuditImport
  import opened AuditStorage
  import opened AuditRerun
  import opened AuditProtocol

  // --- when every page of a source comes back full ---

  // A whole number of batches into the source, or its end.
  predicate OnBoundary(offset: int, c: Copy) {
    offset % BATCH == 0 || offset == |c.full|
  }

  predicate FullPage(pc: Pc, choice: Choice) {
    pc.Loop? && choice.Read? ==> choice.limit >= BATCH
  }

  ghost predicate IsFullRun(streams: map<Name, seq<Entry>>, s: State, run: seq<Move>)
    decreases |run|
  {
    run == [] ||
    (ChoiceFits(PcOf(s, run[0].t), run[0].c) && Orderly(streams, s, run[0].t) && FullPage(PcOf(s, run[0].t), run[0].c)
     && IsFullRun(streams, Step(s, run[0].t, run[0].c), run[1..]))
  }

  ghost predicate WorldOnBoundary(w: World, c: Copy) {
    OnBoundary(CopiedCount(w, c), c)
    && (c.source in w.progress ==> OnBoundary(w.progress[c.source].sourceOffset, c))
  }

  ghost predicate FactsOnBoundary(f: Facts, c: Copy) {
    (f.p.Some? ==> OnBoundary(f.p.value.sourceOffset, c))
    && (f.p.Some? && f.batch.Some? ==> OnBoundary(f.p.value.sourceOffset + |f.batch.value|, c))
  }

  ghost predicate AllOnBoundary(streams: map<Name, seq<Entry>>, s: State) {
    && (forall n :: n in Family(streams) ==> WorldOnBoundary(s.w, CopyFor(streams, n)))
    && (forall t: Tid :: JobOnBoundary(streams, PcOf(s, t)))
  }

  ghost predicate JobOnBoundary(streams: map<Name, seq<Entry>>, pc: Pc) {
    var f := FactsOf(pc);
    f.job.Some? && f.job.value.source in Family(streams) ==>
      FactsOnBoundary(f, CopyFor(streams, f.job.value.source))
  }

  ghost predicate BoundaryKept(w: World, e: Effect, c: Copy) {
    FactsOnBoundary(FactsOf(e.pc), c) && WorldOnBoundary(Changed(w, e.change), c)
  }

  lemma ReadingKeepsBoundary(w: World, pc: Pc, limit: nat, c: Copy)
    requires OnJobOf(w, pc, c) && pc.Loop? && limit >= BATCH && FactsOnBoundary(FactsOf(pc), c)
    ensures FactsOnBoundary(FactsOf(LoopEffect(w, pc, limit).pc), c)
  {
  }

  lemma ComparingKeepsBoundary(w: World, pc: Pc, limit: nat, c: Copy)
    requires OnJobOf(w, pc, c) && (pc.Compare? || pc.Recheck?) && FactsOnBoundary(FactsOf(pc), c)
    ensures FactsOnBoundary(FactsOf(CompareEffect(w, pc, limit).pc), c)
  {
  }

  lemma AppendingKeepsBoundary(w: World, pc: Pc, choice: Choice, c: Copy)
    requires OnJobOf(w, pc, c) && pc.Append? && FactsOnBoundary(FactsOf(pc), c) && WorldOnBoundary(w, c)
    ensures var e := AppendEffect(w, pc, choice);
            FactsOnBoundary(FactsOf(e.pc), c) && WorldOnBoundary(Changed(w, e.change), c)
  {
    if AppendEffect(w, pc, choice).change.Appended? {
      AppendKeepsCopy(w, pc.p, pc.batch, c);
    }
  }

  lemma MeasuringKeepsBoundary(w: World, done: bool, pc: Pc, choice: Choice, c: Copy)
    requires OnJobOf(w, pc, c) && FactsOnBoundary(FactsOf(pc), c) && WorldOnBoundary(w, c)
    requires pc.MeasureSource? || pc.ReadCheckpoint? || pc.MeasureTarget? || pc.CheckEnd?
    ensures BoundaryKept(w, EffectOf(w, done, pc, choice), c)
  {
  }

  lemma SavingKeepsBoundary(w: World, done: bool, pc: Pc, choice: Choice, c: Copy)
    requires OnJobOf(w, pc, c) && FactsOnBoundary(FactsOf(pc), c) && WorldOnBoundary(w, c)
    requires pc.SaveFirst? || pc.Save?
    ensures BoundaryKept(w, EffectOf(w, done, pc, choice), c)
  {
    TargetsAreApart(c.source, c.source);
  }

  lemma EndingKeepsBoundary(w: World, done: bool, pc: Pc, choice: Choice, c: Copy)
    requires OnJobOf(w, pc, c) && WorldOnBoundary(w, c)
    requires pc.EmptyMeasure? || pc.EmptyCheckpoint? || pc.DeleteMeasure? || pc.Delete?
    ensures BoundaryKept(w, EffectOf(w, done, pc, choice), c)
  {
    TargetsAreApart(c.source, c.source);
  }

  lemma JobKeepsBoundary(w: World, done: bool, pc: Pc, choice: Choice, c: Copy)
    requires OnJobOf(w, pc, c) && ChoiceFits(pc, choice) && FullPage(pc, choice)
    requires FactsOnBoundary(FactsOf(pc), c) && WorldOnBoundary(w, c)
    ensures BoundaryKept(w, EffectOf(w, done, pc, choice), c)
  {
    if !choice.Stop? {
      if pc.Loop? || pc.Compare? || pc.Recheck? || pc.Append? {
        CopyingKeepsBoundary(w, done, pc, choice, c);
      } else if pc.SaveFirst? || pc.Save? {
        SavingKeepsBoundary(w, done, pc, choice, c);
      } else if pc.EmptyMeasure? || pc.EmptyCheckpoint? || pc.DeleteMeasure? || pc.Delete? {
        EndingKeepsBoundary(w, done, pc, choice, c);
      } else {
        MeasuringKeepsBoundary(w, done, pc, choice, c);
      }
    }
  }

  lemma CopyingKeepsBoundary(w: World, done: bool, pc: Pc, choice: Choice, c: Copy)
    requires OnJobOf(w, pc, c) && ChoiceFits(pc, choice) && FullPage(pc, choice) && !choice.Stop?
    requires FactsOnBoundary(FactsOf(pc), c) && WorldOnBoundary(w, c)
    requires pc.Loop? || pc.Compare? || pc.Recheck? || pc.Append?
    ensures BoundaryKept(w, EffectOf(w, done, pc, choice), c)
  {
    if pc.Loop? {
      if choice.Read? { ReadingKeepsBoundary(w, pc, choice.limit, c); }
    } else if pc.Append? {
      AppendingKeepsBoundary(w, pc, choice, c);
    } else {
      ComparingKeepsBoundary(w, pc, Limit(choice), c);
    }
  }

  lemma OtherCopiesKeepBoundary(w: World, change: Change, c: Copy, other: Copy)
    requires Copied(w, c) && Copied(w, other) && Sound(w, change, c) && other.source != c.source
    requires WorldOnBoundary(w, other)
    ensures WorldOnBoundary(Changed(w, change), other)
  {
    TargetsAreApart(c.source, other.source);
    TargetsAreApart(other.source, c.source);
  }

  lemma JobStepKeepsBoundary(streams: map<Name, seq<Entry>>, s: State, t: Tid, choice: Choice)
    requires Inv(streams, s) && AllOnBoundary(streams, s) && FactsOf(PcOf(s, t)).job.Some?
    requires ChoiceFits(PcOf(s, t), choice) && Orderly(streams, s, t) && FullPage(PcOf(s, t), choice)
    ensures JobOnBoundary(streams, PcOf(Step(s, t, choice), t))
    ensures forall n :: n in Family(streams) ==> WorldOnBoundary(Step(s, t, choice).w, CopyFor(streams, n))
  {
    var pc := PcOf(s, t);
    var e := EffectOf(s.w, s.done, pc, choice);
    assert Knows(streams, s.w, pc) && JobOnBoundary(streams, pc);
    var c := CopyFor(streams, FactsOf(pc).job.value.source);
    StepOnJob(s.w, s.done, pc, choice, c);
    JobKeepsBoundary(s.w, s.done, pc, choice, c);
    forall n | n in Family(streams) ensures WorldOnBoundary(Step(s, t, choice).w, CopyFor(streams, n)) {
      if n != c.source {
        OtherCopiesKeepBoundary(s.w, e.change, c, CopyFor(streams, n));
      }
    }
  }

  lemma StepKeepsBoundary(streams: map<Name, seq<Entry>>, s: State, t: Tid, choice: Choice)
    requires Inv(streams, s) && AllOnBoundary(streams, s)
    requires ChoiceFits(PcOf(s, t), choice) && Orderly(streams, s, t) && FullPage(PcOf(s, t), choice)
    ensures AllOnBoundary(streams, Step(s, t, choice))
  {
    var s' := Step(s, t, choice);
    if FactsOf(PcOf(s, t)).job.Some? {
      JobStepKeepsBoundary(streams, s, t, choice);
    } else {
      assert s'.w == s.w;
    }
    forall u: Tid ensures JobOnBoundary(streams, PcOf(s', u)) {
      if u != t {
        assert JobOnBoundary(streams, PcOf(s, u));
      }
    }
  }

  lemma {:induction false} FullRunKeepsBoundary(streams: map<Name, seq<Entry>>, s: State, run: seq<Move>)
    requires Inv(streams, s) && AllOnBoundary(streams, s) && IsFullRun(streams, s, run)
    ensures Inv(streams, After(s, run)) && AllOnBoundary(streams, After(s, run))
    decreases |run|
  {
    if run != [] {
      StepKeepsInv(streams, s, run[0].t, run[0].c);
      StepKeepsBoundary(streams, s, run[0].t, run[0].c);
      FullRunKeepsBoundary(streams, Step(s, run[0].t, run[0].c), run[1..]);
    }
  }

  lemma FullRunEndsOnBoundary(streams: map<Name, seq<Entry>>, run: seq<Move>, source: Name)
    requires IsFullRun(streams, Start(streams), run) && source in Family(streams)
    ensures var (w, c) := (After(Start(streams), run).w, CopyFor(streams, source));
            Copied(w, c) && OnBatchBoundary(w, c)
  {
    StartHasInv(streams);
    FullRunKeepsBoundary(streams, Start(streams), run);
    var (w, c) := (After(Start(streams), run).w, CopyFor(streams, source));
    assert Copied(w, c) && WorldOnBoundary(w, c);
  }

  /** Whatever openers running, failing and crashing have left behind, short pages included:
      one undisturbed import of a source still there completes its copy and removes it exactly
      when what was copied past the checkpoint ends on a batch boundary and the target can be
      read; if not, it changes neither stream. */
  lemma RerunRecoversExactly(streams: map<Name, seq<Entry>>, run: seq<Move>, source: Name, strict: bool)
    requires IsOrderlyRun(streams, Start(streams), run) && source in Family(streams)
    requires source in After(Start(streams), run).w.streams
    ensures var (w, c) := (After(Start(streams), run).w, CopyFor(streams, source));
            var (w', r) := Import(w, strict, source, c.target);
            && (r.Ok? <==> OnBatchBoundary(w, c) && TargetReadable(w, strict, c))
            && (r.Ok? ==> Contents(w', c.target) == c.base + c.full && source !in w'.streams
                          && SameElsewhere(w, w', source, c.target)
                          && Import(w', strict, source, c.target) == (w', Ok(())))
            && (r.Err? ==> w'.streams == w.streams)
  {
    StartHasInv(streams);
    RunKeepsInv(streams, Start(streams), run);
    var (w, c) := (After(Start(streams), run).w, CopyFor(streams, source));
    assert Copied(w, c);
    RerunCompletesOnABatchBoundary(w, strict, c);
    if OnBatchBoundary(w, c) && TargetReadable(w, strict, c) {
      SecondRerunChangesNothing(w, strict, c);
    }
  }

  /** In particular, when every page of a source came back full: one undisturbed import of a
      source still there completes its copy and removes it exactly when the target can be
      read, and one more changes nothing. */
  lemma OneRerunRecovers(streams: map<Name, seq<Entry>>, run: seq<Move>, source: Name, strict: bool)
    requires IsFullRun(streams, Start(streams), run) && source in Family(streams)
    requires source in After(Start(streams), run).w.streams
    ensures var (w, c) := (After(Start(streams), run).w, CopyFor(streams, source));
            var (w', r) := Import(w, strict, source, c.target);
            && (r.Ok? <==> TargetReadable(w, strict, c))
            && (r.Ok? ==> Contents(w', c.target) == c.base + c.full && source !in w'.streams
                          && SameElsewhere(w, w', source, c.target)
                          && Import(w', strict, source, c.target) == (w', Ok(())))
            && (r.Err? ==> w'.streams == w.streams)
  {
    FullRunEndsOnBoundary(streams, run, source);
    FullRunIsOrderly(streams, Start(streams), run);
    RerunRecoversExactly(streams, run, source, strict);
  }

  lemma {:induction false} FullRunIsOrderly(streams: map<Name, seq<Entry>>, s: State, run: seq<Move>)
    requires IsFullRun(streams, s, run)
    ensures IsOrderlyRun(streams, s, run)
    decreases |run|
  {
    if run != [] {
      FullRunIsOrderly(streams, Step(s, run[0].t, run[0].c), run[1..]);
    }
  }

  // --- what the two conditions are for ---

  lemma {:induction false} RunAppend(streams: map<Name, seq<Entry>>, s: State, run: seq<Move>, m: Move)
    requires IsRun(s, run) && ChoiceFits(PcOf(After(s, run), m.t), m.c)
    ensures IsRun(s, run + [m]) && After(s, run + [m]) == Step(After(s, run), m.t, m.c)
    ensures IsOrderlyRun(streams, s, run) && Orderly(streams, After(s, run), m.t)
      ==> IsOrderlyRun(streams, s, run + [m])
    decreases |run|
  {
    if run == [] {
      assert [] + [m] == [m] && [m][1..] == [];
    } else {
      RunAppend(streams, Step(s, run[0].t, run[0].c), run[1..], m);
      assert (run + [m])[1..] == run[1..] + [m];
    }
  }

  lemma Then(streams: map<Name, seq<Entry>>, s: State, run: seq<Move>, t: Tid, c: Choice) returns (longer: seq<Move>)
    requires IsRun(s, run) && ChoiceFits(PcOf(After(s, run), t), c)
    ensures IsRun(s, longer) && After(s, longer) == Step(After(s, run), t, c)
    ensures IsOrderlyRun(streams, s, run) && Orderly(streams, After(s, run), t) ==> IsOrderlyRun(streams, s, longer)
  {
    RunAppend(streams, s, run, Move(t, c));
    longer := run + [Move(t, c)];
  }

  function OnlyJob(): Job {
    Job(LEGACY, CURRENT, {})
  }

  // Thread `t` begins and picks the one source.
  lemma Begin(streams: map<Name, seq<Entry>>, s: State, run: seq<Move>, t: Tid) returns (longer: seq<Move>)
    requires IsRun(s, run) && PcOf(After(s, run), t).Down? && !After(s, run).done
    requires Sources(After(s, run).w) == {LEGACY}
    ensures IsRun(s, longer) && (IsOrderlyRun(streams, s, run) ==> IsOrderlyRun(streams, s, longer))
    ensures var was := After(s, run);
            After(s, longer) == State(was.w, false, was.pcs[t := NextSource({LEGACY})])
  {
    var was := After(s, run);
    longer := Wake(streams, s, run, t);
    longer := Then(streams, s, longer, t, Go);
    assert After(s, longer).pcs == was.pcs[t := NextSource({LEGACY})];
  }

  lemma Wake(streams: map<Name, seq<Entry>>, s: State, run: seq<Move>, t: Tid) returns (longer: seq<Move>)
    requires IsRun(s, run) && PcOf(After(s, run), t).Down? && !After(s, run).done
    ensures IsRun(s, longer) && (IsOrderlyRun(streams, s, run) ==> IsOrderlyRun(streams, s, longer))
    ensures var was := After(s, run);
            After(s, longer) == State(was.w, false, was.pcs[t := ListStreams])
  {
    var was := After(s, run);
    longer := Then(streams, s, run, t, Go);
    longer := Then(streams, s, longer, t, Go);
    assert After(s, longer).pcs == was.pcs[t := ListStreams];
  }

  lemma PickOnly(streams: map<Name, seq<Entry>>, s: State, run: seq<Move>, t: Tid) returns (longer: seq<Move>)
    requires IsRun(s, run) && PcOf(After(s, run), t) == NextSource({LEGACY})
    ensures IsRun(s, longer) && (IsOrderlyRun(streams, s, run) ==> IsOrderlyRun(streams, s, longer))
    ensures var was := After(s, run);
            After(s, longer) == State(was.w, was.done, was.pcs[t := MeasureSource(OnlyJob())])
  {
    assert TargetOf(LEGACY) == Some(CURRENT) && {LEGACY} - {LEGACY} == {};
    longer := Then(streams, s, run, t, Pick(LEGACY));
  }

  // And finds no checkpoint for it.
  lemma Climb(streams: map<Name, seq<Entry>>, s: State, run: seq<Move>, t: Tid) returns (longer: seq<Move>)
    requires IsRun(s, run) && PcOf(After(s, run), t).Down? && !After(s, run).done
    requires Sources(After(s, run).w) == {LEGACY} && LEGACY in After(s, run).w.streams
    requires LEGACY !in After(s, run).w.progress
    ensures IsRun(s, longer) && (IsOrderlyRun(streams, s, run) ==> IsOrderlyRun(streams, s, longer))
    ensures var was := After(s, run);
            After(s, longer) == State(was.w, false, was.pcs[t := MeasureTarget(OnlyJob(), |was.w.streams[LEGACY]|)])
  {
    var was := After(s, run);
    longer := Begin(streams, s, run, t);
    longer := PickOnly(streams, s, longer, t);
    longer := FindNoCheckpoint(streams, s, longer, t);
    assert After(s, longer).pcs == was.pcs[t := MeasureTarget(OnlyJob(), |was.w.streams[LEGACY]|)];
  }

  lemma FindNoCheckpoint(streams: map<Name, seq<Entry>>, s: State, run: seq<Move>, t: Tid) returns (longer: seq<Move>)
    requires IsRun(s, run) && PcOf(After(s, run), t) == MeasureSource(OnlyJob())
    requires LEGACY in After(s, run).w.streams && LEGACY !in After(s, run).w.progress
    ensures IsRun(s, longer) && (IsOrderlyRun(streams, s, run) ==> IsOrderlyRun(streams, s, longer))
    ensures var was := After(s, run);
            After(s, longer) == State(was.w, was.done, was.pcs[t := MeasureTarget(OnlyJob(), |was.w.streams[LEGACY]|)])
  {
    var was := After(s, run);
    longer := Then(streams, s, run, t, Go);
    longer := Then(streams, s, longer, t, Go);
    assert After(s, longer).pcs == was.pcs[t := MeasureTarget(OnlyJob(), |was.w.streams[LEGACY]|)];
  }

  // From there it makes the first checkpoint, reads a page of `limit`, does not find it in
  // the target, and is about to append it.
  lemma Approach(streams: map<Name, seq<Entry>>, s: State, run: seq<Move>, t: Tid, all: seq<Entry>, limit: nat)
    returns (longer: seq<Move>)
    requires IsRun(s, run) && PcOf(After(s, run), t) == MeasureTarget(OnlyJob(), |all|)
    requires var w := After(s, run).w; LEGACY in w.streams && w.streams[LEGACY] == all
    requires 0 < limit <= |all| <= BATCH
    ensures IsRun(s, longer)
    ensures IsOrderlyRun(streams, s, run) && CopiedCount(After(s, run).w, CopyFor(streams, LEGACY)) == 0
      ==> IsOrderlyRun(streams, s, longer)
    ensures var was := After(s, run);
            var p := Progress(CURRENT, 0, |Contents(was.w, CURRENT)|);
            After(s, longer) == State(WithProgress(was.w, LEGACY, p), was.done,
                                      was.pcs[t := Append(OnlyJob(), |all|, p, all[..limit])])
  {
    var was := After(s, run);
    var p := Progress(CURRENT, 0, |Contents(was.w, CURRENT)|);
    longer := MakeCheckpoint(streams, s, run, t, |all|);
    assert LEGACY != CURRENT;
    longer := ReadAndCompare(streams, s, longer, t, all, limit, p);
    assert After(s, longer).pcs == was.pcs[t := Append(OnlyJob(), |all|, p, all[..limit])];
  }

  lemma MakeCheckpoint(streams: map<Name, seq<Entry>>, s: State, run: seq<Move>, t: Tid, len: nat)
    returns (longer: seq<Move>)
    requires IsRun(s, run) && PcOf(After(s, run), t) == MeasureTarget(OnlyJob(), len)
    ensures IsRun(s, longer)
    ensures IsOrderlyRun(streams, s, run) && CopiedCount(After(s, run).w, CopyFor(streams, LEGACY)) == 0
      ==> IsOrderlyRun(streams, s, longer)
    ensures var was := After(s, run);
            var p := Progress(CURRENT, 0, |Contents(was.w, CURRENT)|);
            After(s, longer) == State(WithProgress(was.w, LEGACY, p), was.done,
                                      was.pcs[t := Loop(OnlyJob(), len, p)])
  {
    var was := After(s, run);
    var p := Progress(CURRENT, 0, |Contents(was.w, CURRENT)|);
    longer := Then(streams, s, run, t, Go);
    longer := Then(streams, s, longer, t, Go);
    assert After(s, longer).pcs == was.pcs[t := Loop(OnlyJob(), len, p)];
  }

  lemma ReadAndCompare(streams: map<Name, seq<Entry>>, s: State, run: seq<Move>, t: Tid, all: seq<Entry>, limit: nat,
                       p: Progress)
    returns (longer: seq<Move>)
    requires IsRun(s, run) && PcOf(After(s, run), t) == Loop(OnlyJob(), |all|, p)
    requires var w := After(s, run).w; LEGACY in w.streams && w.streams[LEGACY] == all
    requires p == Progress(CURRENT, 0, |Contents(After(s, run).w, CURRENT)|) && 0 < limit <= |all| <= BATCH
    ensures IsRun(s, longer) && (IsOrderlyRun(streams, s, run) ==> IsOrderlyRun(streams, s, longer))
    ensures var was := After(s, run);
            After(s, longer) == State(was.w, was.done, was.pcs[t := Append(OnlyJob(), |all|, p, all[..limit])])
  {
    var was := After(s, run);
    longer := ReadPage(streams, s, run, t, all, limit, p);
    longer := Compared(streams, s, longer, t, |all|, p, all[..limit]);
    assert After(s, longer).pcs == was.pcs[t := Append(OnlyJob(), |all|, p, all[..limit])];
  }

  lemma ReadPage(streams: map<Name, seq<Entry>>, s: State, run: seq<Move>, t: Tid, all: seq<Entry>, limit: nat,
                 p: Progress)
    returns (longer: seq<Move>)
    requires IsRun(s, run) && PcOf(After(s, run), t) == Loop(OnlyJob(), |all|, p) && p.sourceOffset == 0
    requires var w := After(s, run).w; LEGACY in w.streams && w.streams[LEGACY] == all
    requires 0 < limit <= |all| <= BATCH
    ensures IsRun(s, longer) && (IsOrderlyRun(streams, s, run) ==> IsOrderlyRun(streams, s, longer))
    ensures var was := After(s, run);
            After(s, longer) == State(was.w, was.done, was.pcs[t := Compare(OnlyJob(), |all|, p, all[..limit])])
  {
    ReadsFirst(After(s, run).w, Loop(OnlyJob(), |all|, p), all, limit);
    longer := Then(streams, s, run, t, Read(limit));
  }

  lemma ReadsFirst(w: World, pc: Pc, all: seq<Entry>, limit: nat)
    requires pc.Loop? && pc.job == OnlyJob() && pc.len == |all| && pc.p.sourceOffset == 0
    requires LEGACY in w.streams && w.streams[LEGACY] == all && 0 < limit <= |all| <= BATCH
    ensures EffectOf(w, false, pc, Read(limit)) == EffectOf(w, true, pc, Read(limit))
            == Effect(Compare(OnlyJob(), |all|, pc.p, all[..limit]), Unchanged)
  {
    assert Window(all, 0, limit) == all[..limit];
    assert all[..limit][..limit] == all[..limit];
  }

  lemma NotThereYet(w: World, done: bool, pc: Pc)
    requires pc.Compare? && pc.batch != [] && |Contents(w, pc.p.target)| == pc.p.targetOffset
    ensures var next := CheckEnd(pc.job, pc.len, pc.p, pc.batch);
            && EffectOf(w, done, pc, Read(BATCH)) == Effect(next, Unchanged)
            && EffectOf(w, done, next, Go) == Effect(Append(pc.job, pc.len, pc.p, pc.batch), Unchanged)
  {
  }

  // The target ends where the batch would go, so the batch is not there.
  lemma Compared(streams: map<Name, seq<Entry>>, s: State, run: seq<Move>, t: Tid, len: nat, p: Progress,
                 batch: seq<Entry>)
    returns (longer: seq<Move>)
    requires IsRun(s, run) && PcOf(After(s, run), t) == Compare(OnlyJob(), len, p, batch) && batch != []
    requires |Contents(After(s, run).w, p.target)| == p.targetOffset
    ensures IsRun(s, longer) && (IsOrderlyRun(streams, s, run) ==> IsOrderlyRun(streams, s, longer))
    ensures var was := After(s, run);
            After(s, longer) == State(was.w, was.done, was.pcs[t := Append(OnlyJob(), len, p, batch)])
  {
    var was := After(s, run);
    var pc := Compare(OnlyJob(), len, p, batch);
    NotThereYet(was.w, was.done, pc);
    longer := Then(streams, s, run, t, Read(BATCH));
    longer := Then(streams, s, longer, t, Go);
    assert After(s, longer).pcs == was.pcs[t := Append(OnlyJob(), len, p, batch)];
  }

  /** Short pages and a crash can strand an import for good: one entry of two is appended,
      the opener goes down before saving, and no undisturbed import can go on from there. */
  lemma ShortPageCanStrand(a: Entry, b: Entry, strict: bool) returns (run: seq<Move>)
    ensures var streams := map[LEGACY := [a, b]];
            && IsOrderlyRun(streams, Start(streams), run)
            && After(Start(streams), run).w
               == World(map[LEGACY := [a, b], CURRENT := [a]], map[LEGACY := Progress(CURRENT, 0, 0)])
            && Import(After(Start(streams), run).w, strict, LEGACY, CURRENT)
               == (After(Start(streams), run).w, Err(Conflict))
  {
    var streams := map[LEGACY := [a, b]];
    var s := Start(streams);
    NamesOf(streams);
    run := Climb(streams, s, [], 0);
    run := Approach(streams, s, run, 0, [a, b], 1);
    assert [a, b][..1] == [a];
    run := Then(streams, s, run, 0, Lose);
    var w := After(s, run).w;
    assert w.streams[CURRENT] == [] + [a] == [a];
    assert w.streams == map[LEGACY := [a, b], CURRENT := [a]] by {
      assert w.streams == streams[CURRENT := [a]];
    }
    assert w.progress == map[LEGACY := Progress(CURRENT, 0, 0)];
    Stranded(w, a, b, strict);
  }

  lemma Stranded(w: World, a: Entry, b: Entry, strict: bool)
    requires w == World(map[LEGACY := [a, b], CURRENT := [a]], map[LEGACY := Progress(CURRENT, 0, 0)])
    ensures Import(w, strict, LEGACY, CURRENT) == (w, Err(Conflict))
  {
    var p := Progress(CURRENT, 0, 0);
    assert w.progress[LEGACY := p] == w.progress;
    assert Batch(p, [a, b]) == [a, b];
    assert Window([a], 0, 2) == [a];
  }

  lemma NamesOf(streams: map<Name, seq<Entry>>)
    requires streams.Keys == {LEGACY}
    ensures Sources(World(streams, map[])) == {LEGACY} && CURRENT !in streams
  {
    assert LEGACY[3] != CURRENT[3];
  }

  // Both openers find no checkpoint; the second makes one and copies the source.
  lemma SecondOpenerCopies(a: Entry) returns (run: seq<Move>)
    ensures var (streams, s) := (map[LEGACY := [a]], After(Start(map[LEGACY := [a]]), run));
            && IsRun(Start(streams), run)
            && s.w.streams == map[LEGACY := [a], CURRENT := [a]]
            && PcOf(s, 0) == MeasureTarget(OnlyJob(), 1)
  {
    var streams := map[LEGACY := [a]];
    var s := Start(streams);
    NamesOf(streams);
    run := Climb(streams, s, [], 0);
    run := Climb(streams, s, run, 1);
    run := Approach(streams, s, run, 1, [a], 1);
    assert [a][..1] == [a];
    run := Then(streams, s, run, 1, Go);
    assert After(s, run).w.streams[CURRENT] == [] + [a] == [a];
    assert After(s, run).w.streams == streams[CURRENT := [a]];
  }

  /** If another opener saves a checkpoint, and copies, between the reading that found none
      and the measuring of the target, the entries it copied are copied again. */
  lemma RacingFirstCheckpointsRepeat(a: Entry) returns (run: seq<Move>)
    ensures var streams := map[LEGACY := [a]];
            && IsRun(Start(streams), run)
            && Contents(After(Start(streams), run).w, CURRENT) == [a, a]
            && LEGACY in After(Start(streams), run).w.streams
  {
    var streams := map[LEGACY := [a]];
    var s := Start(streams);
    run := SecondOpenerCopies(a);
    run := Approach(streams, s, run, 0, [a], 1);
    assert [a][..1] == [a];
    run := Then(streams, s, run, 0, Go);
    assert [a] + [a] == [a, a];
  }
}
