/**
One opener of the transition system with the streams to itself: whatever it does, call
after call, comes to what the import in one piece comes to.
*/
module AuditLone {
  import opened Prelude
  import opened AuditNames
  import opened AuditImport
  import opened AuditStorage
  import opened AuditRerun
  import opened AuditProtocol
  import opened AuditRecovery

  predicate Readable(strict: bool, w: World, p: Progress) {
    strict ==> p.target in w.streams
  }

  // A `strict` storage refuses to read a target that is not there. (A source that is not
  // there has length zero, and is not read.)
  predicate Refuses(strict: bool, w: World, pc: Pc) {
    pc.Compare? && !Readable(strict, w, pc.p)
  }

  // A call that works, and answers a full page if it reads one; an append that works may still
  // be reported as a conflict.
  predicate Plain(strict: bool, w: World, pc: Pc, c: Choice) {
    if Refuses(strict, w, pc) then c.Stop?
    else ChoiceFits(pc, c) && (c.Go? || c.Repeat? || (c.Read? && c.limit >= BATCH))
  }

  predicate Finished(pc: Pc) {
    pc.Down? || pc.NextSource?
  }

  // The calls `cs` take the opener from `pc` to the end of its job, or to giving up.
  ghost predicate Ends(strict: bool, w: World, done: bool, pc: Pc, cs: seq<Choice>, end: (World, Pc))
    decreases |cs|
  {
    if Finished(pc) then cs == [] && end == (w, pc)
    else
      && cs != [] && Plain(strict, w, pc, cs[0])
      && var e := EffectOf(w, done, pc, cs[0]);
         Ends(strict, Changed(w, e.change), done, e.pc, cs[1..], end)
  }

  function Concluded(job: Job, outcome: (World, Result<(), ErrorKind>)): (World, Pc) {
    (outcome.0, if outcome.1.Ok? then NextSource(job.todo) else Down)
  }

  function Imported(strict: bool, w: World, job: Job): (World, Pc) {
    Concluded(job, Import(w, strict, job.source, job.target))
  }

  function Resumed(strict: bool, w: World, job: Job, p: Progress): (World, Pc) {
    var all := Contents(w, job.source);
    if p.sourceOffset > |all| then (w, NextSource(job.todo))
    else Concluded(job, ImportFrom(w, strict, job.source, p, all))
  }

  // What is true of an opener that nothing has disturbed.
  predicate Fits(w: World, job: Job, len: nat) {
    job.source != job.target && len == |Contents(w, job.source)|
  }

  predicate Resuming(w: World, job: Job, len: nat, p: Progress) {
    Fits(w, job, len) && p.target == job.target && job.source in w.progress && w.progress[job.source] == p
  }

  predicate Copying(w: World, job: Job, len: nat, p: Progress, batch: seq<Entry>) {
    Resuming(w, job, len, p) && p.sourceOffset < len && batch == Batch(p, Contents(w, job.source))
  }

  predicate Undisturbed(strict: bool, w: World, pc: Pc) {
    match pc
    case Down => true
    case NextSource(_) => true
    case MeasureSource(job) => job.source != job.target
    case ReadCheckpoint(job, len) => Fits(w, job, len)
    case MeasureTarget(job, len) => Fits(w, job, len) && job.source !in w.progress
    case SaveFirst(job, len, end) =>
      Fits(w, job, len) && job.source !in w.progress && end == |Contents(w, job.target)|
    case Loop(job, len, p) => Resuming(w, job, len, p)
    case Compare(job, len, p, batch) => Copying(w, job, len, p, batch)
    case CheckEnd(job, len, p, batch) =>
      Copying(w, job, len, p, batch) && Readable(strict, w, p) && !BatchSeen(w, p, batch, BATCH)
    case Append(job, len, p, batch) =>
      Copying(w, job, len, p, batch) && Readable(strict, w, p) && !BatchSeen(w, p, batch, BATCH)
      && |Contents(w, p.target)| == p.targetOffset
    case Recheck(job, len, p, batch) =>
      Copying(w, job, len, p, batch) && Readable(strict, w, p) && BatchSeen(w, p, batch, BATCH)
    case Save(job, len, p) => Fits(w, job, len) && p.target == job.target && p.sourceOffset <= len
    case DeleteMeasure(job, len) => Fits(w, job, len)
    case Delete(job, len, now) => Fits(w, job, len) && now == len
    case _ => false
  }

  // Where an undisturbed opener gets to from there.
  function Expected(strict: bool, w: World, pc: Pc): (World, Pc) {
    match pc
    case MeasureSource(job) => Imported(strict, w, job)
    case ReadCheckpoint(job, _) => Imported(strict, w, job)
    case MeasureTarget(job, _) => Imported(strict, w, job)
    case SaveFirst(job, _, _) => Imported(strict, w, job)
    case Loop(job, _, p) => Resumed(strict, w, job, p)
    case Compare(job, _, p, _) => Resumed(strict, w, job, p)
    case CheckEnd(job, _, p, _) => Resumed(strict, w, job, p)
    case Append(job, _, p, _) => Resumed(strict, w, job, p)
    case Recheck(job, _, p, _) => Resumed(strict, w, job, p)
    case Save(job, _, p) => Resumed(strict, WithProgress(w, job.source, p), job, p)
    case DeleteMeasure(job, _) => (WithoutStream(w, job.source), NextSource(job.todo))
    case Delete(job, _, _) => (WithoutStream(w, job.source), NextSource(job.todo))
    case _ => (w, pc)
  }

  // One step of an undisturbed opener: it stays undisturbed, and gets to the same place.
  ghost predicate Onward(strict: bool, w: World, pc: Pc, e: Effect) {
    Undisturbed(strict, Changed(w, e.change), e.pc)
    && Expected(strict, Changed(w, e.change), e.pc) == Expected(strict, w, pc)
  }

  lemma MeasuringGoesOn(strict: bool, w: World, pc: Pc)
    requires Undisturbed(strict, w, pc) && (pc.MeasureSource? || pc.ReadCheckpoint? || pc.MeasureTarget?)
    ensures Onward(strict, w, pc, MeasureEffect(w, pc))
  {
    if pc.ReadCheckpoint? && pc.job.source in w.progress {
      var p := w.progress[pc.job.source];
      assert w.progress[pc.job.source := p] == w.progress;
      assert WithProgress(w, pc.job.source, p) == w;
    }
  }

  lemma CheckingGoesOn(strict: bool, w: World, pc: Pc)
    requires Undisturbed(strict, w, pc) && pc.CheckEnd?
    ensures Onward(strict, w, pc, MeasureEffect(w, pc))
  {
  }

  lemma SavingGoesOn(strict: bool, w: World, pc: Pc)
    requires Undisturbed(strict, w, pc) && (pc.SaveFirst? || pc.Save?)
    ensures Onward(strict, w, pc, SaveEffect(pc, false))
  {
  }

  lemma ReadingGoesOn(strict: bool, w: World, pc: Pc, limit: nat)
    requires Undisturbed(strict, w, pc) && pc.Loop? && (limit >= BATCH || pc.len <= pc.p.sourceOffset)
    ensures Onward(strict, w, pc, LoopEffect(w, pc, limit))
  {
    var all := Contents(w, pc.job.source);
    if pc.p.sourceOffset < pc.len {
      var page := Window(all, pc.p.sourceOffset, BATCH);
      assert page[..|page|] == page;
    }
  }

  // A batch that is there is passed.
  lemma SeenBatchIsPassed(strict: bool, w: World, job: Job, len: nat, p: Progress, batch: seq<Entry>)
    requires Copying(w, job, len, p, batch) && Readable(strict, w, p) && BatchSeen(w, p, batch, BATCH)
    ensures Onward(strict, w, Compare(job, len, p, batch), Effect(Save(job, len, Past(p, batch)), Unchanged))
  {
    assert |batch| <= BATCH;
  }

  lemma ComparingGoesOn(strict: bool, w: World, pc: Pc, limit: nat)
    requires Undisturbed(strict, w, pc) && pc.Compare? && limit >= BATCH && Readable(strict, w, pc.p)
    ensures Onward(strict, w, pc, CompareEffect(w, pc, limit))
  {
    assert |pc.batch| <= BATCH;
    if BatchSeen(w, pc.p, pc.batch, BATCH) {
      SeenBatchIsPassed(strict, w, pc.job, pc.len, pc.p, pc.batch);
    }
  }

  lemma LookingAgainGoesOn(strict: bool, w: World, pc: Pc, limit: nat)
    requires Undisturbed(strict, w, pc) && pc.Recheck? && limit >= BATCH
    ensures Onward(strict, w, pc, CompareEffect(w, pc, limit))
  {
    assert |pc.batch| <= BATCH;
    SeenBatchIsPassed(strict, w, pc.job, pc.len, pc.p, pc.batch);
    assert Expected(strict, w, pc) == Expected(strict, w, Compare(pc.job, pc.len, pc.p, pc.batch));
  }

  lemma RefusedGoesOn(strict: bool, w: World, done: bool, pc: Pc)
    requires Undisturbed(strict, w, pc) && Refuses(strict, w, pc)
    ensures Onward(strict, w, pc, EffectOf(w, done, pc, Stop))
  {
  }

  lemma AppendingGoesOn(strict: bool, w: World, pc: Pc)
    requires Undisturbed(strict, w, pc) && pc.Append?
    ensures Onward(strict, w, pc, AppendEffect(w, pc, Go))
  {
  }

  // The batch is appended, and the opener is told that it is not.
  lemma RepeatingGoesOn(strict: bool, w: World, pc: Pc)
    requires Undisturbed(strict, w, pc) && pc.Append?
    ensures Onward(strict, w, pc, AppendEffect(w, pc, Repeat))
  {
    var there := Contents(w, pc.p.target);
    assert (there + pc.batch)[|there|..] == pc.batch;
  }

  lemma EndingGoesOn(strict: bool, w: World, pc: Pc)
    requires Undisturbed(strict, w, pc) && (pc.DeleteMeasure? || pc.Delete?)
    ensures Onward(strict, w, pc, EndEffect(w, pc, false))
  {
  }

  lemma StepGoesOn(strict: bool, w: World, done: bool, pc: Pc, c: Choice)
    requires Undisturbed(strict, w, pc) && !Finished(pc) && Plain(strict, w, pc, c)
    ensures Onward(strict, w, pc, EffectOf(w, done, pc, c))
  {
    if pc.SaveFirst? || pc.Save? {
      SavingGoesOn(strict, w, pc);
    } else if pc.Loop? {
      ReadingGoesOn(strict, w, pc, Limit(c));
    } else if pc.Recheck? {
      LookingAgainGoesOn(strict, w, pc, Limit(c));
    } else if pc.Compare? {
      if c.Stop? {
        RefusedGoesOn(strict, w, done, pc);
      } else {
        ComparingGoesOn(strict, w, pc, Limit(c));
      }
    } else if pc.Append? {
      if c.Repeat? {
        RepeatingGoesOn(strict, w, pc);
      } else {
        AppendingGoesOn(strict, w, pc);
      }
    } else {
      PassingGoesOn(strict, w, done, pc, c);
    }
  }

  lemma PassingGoesOn(strict: bool, w: World, done: bool, pc: Pc, c: Choice)
    requires Undisturbed(strict, w, pc) && !Finished(pc) && Plain(strict, w, pc, c)
    requires !pc.SaveFirst? && !pc.Save? && !pc.Loop? && !pc.Compare? && !pc.Recheck? && !pc.Append?
    ensures Onward(strict, w, pc, EffectOf(w, done, pc, c))
  {
    if pc.CheckEnd? {
      CheckingGoesOn(strict, w, pc);
    } else if pc.DeleteMeasure? || pc.Delete? {
      EndingGoesOn(strict, w, pc);
    } else {
      MeasuringGoesOn(strict, w, pc);
    }
  }

  /** Wherever an undisturbed opener ends, it is where the import in one piece does. */
  lemma {:induction false} LoneOpenerImports(strict: bool, w: World, done: bool, pc: Pc, cs: seq<Choice>,
                                             end: (World, Pc))
    requires Undisturbed(strict, w, pc) && Ends(strict, w, done, pc, cs, end)
    ensures end == Expected(strict, w, pc)
    decreases |cs|
  {
    if !Finished(pc) {
      var e := EffectOf(w, done, pc, cs[0]);
      StepGoesOn(strict, w, done, pc, cs[0]);
      LoneOpenerImports(strict, Changed(w, e.change), done, e.pc, cs[1..], end);
    }
  }

  // ----- and it does end -----

  function PlainChoice(strict: bool, w: World, pc: Pc): Choice {
    if Refuses(strict, w, pc) then Stop
    else if pc.Compare? || pc.Recheck? || (pc.Loop? && pc.p.sourceOffset < pc.len) then Read(BATCH) else Go
  }

  // What is left of the source when the opener is next at the head of its loop.
  function Left(pc: Pc): nat {
    match pc
    case Loop(_, len, p) => if p.sourceOffset < len then len - p.sourceOffset else 0
    case Compare(_, len, p, _) => if p.sourceOffset < len then len - p.sourceOffset else 0
    case CheckEnd(_, len, p, _) => if p.sourceOffset < len then len - p.sourceOffset else 0
    case Append(_, len, p, _) => if p.sourceOffset < len then len - p.sourceOffset else 0
    case Recheck(_, len, p, _) => if p.sourceOffset < len then len - p.sourceOffset else 0
    case Save(_, len, p) => if p.sourceOffset < len then len - p.sourceOffset else 0
    case _ => 0
  }

  // Before the loop, in it, after it; and the calls left of one turn.
  function Stage(pc: Pc): nat {
    if pc.MeasureSource? || pc.ReadCheckpoint? || pc.MeasureTarget? || pc.SaveFirst? then 2
    else if pc.DeleteMeasure? || pc.Delete? || Finished(pc) then 0
    else 1
  }

  function Calls(pc: Pc): nat {
    match pc
    case MeasureSource(_) => 4
    case ReadCheckpoint(_, _) => 3
    case MeasureTarget(_, _) => 2
    case SaveFirst(_, _, _) => 1
    case Loop(_, _, _) => 6
    case Compare(_, _, _, _) => 5
    case CheckEnd(_, _, _, _) => 4
    case Append(_, _, _, _) => 3
    case Recheck(_, _, _, _) => 2
    case Save(_, _, _) => 7
    case DeleteMeasure(_, _) => 2
    case Delete(_, _, _) => 1
    case _ => 0
  }

  lemma StepComesCloser(strict: bool, w: World, done: bool, pc: Pc)
    requires Undisturbed(strict, w, pc) && !Finished(pc)
    ensures Plain(strict, w, pc, PlainChoice(strict, w, pc))
      && Closer(pc, EffectOf(w, done, pc, PlainChoice(strict, w, pc)).pc)
  {
    if Stage(pc) == 1 {
      TurnComesCloser(strict, w, done, pc);
    }
  }

  predicate Closer(pc: Pc, next: Pc) {
    || Stage(next) < Stage(pc)
    || (Stage(next) == Stage(pc) && (Left(next) < Left(pc) || (Left(next) == Left(pc) && Calls(next) < Calls(pc))))
  }

  lemma TurnComesCloser(strict: bool, w: World, done: bool, pc: Pc)
    requires Undisturbed(strict, w, pc) && Stage(pc) == 1
    ensures Plain(strict, w, pc, PlainChoice(strict, w, pc))
      && Closer(pc, EffectOf(w, done, pc, PlainChoice(strict, w, pc)).pc)
  {
  }

  lemma {:induction false} LoneOpenerEnds(strict: bool, w: World, done: bool, pc: Pc) returns (cs: seq<Choice>)
    requires Undisturbed(strict, w, pc)
    ensures Ends(strict, w, done, pc, cs, Expected(strict, w, pc))
    decreases Stage(pc), Left(pc), Calls(pc)
  {
    if Finished(pc) {
      cs := [];
    } else {
      var c := PlainChoice(strict, w, pc);
      var e := EffectOf(w, done, pc, c);
      StepComesCloser(strict, w, done, pc);
      StepGoesOn(strict, w, done, pc, c);
      var rest := LoneOpenerEnds(strict, Changed(w, e.change), done, e.pc);
      cs := [c] + rest;
      assert cs[1..] == rest;
    }
  }

  // ----- in a run of many -----

  function MovesOf(t: Tid, cs: seq<Choice>): seq<Move> {
    seq(|cs|, i requires 0 <= i < |cs| => Move(t, cs[i]))
  }

  predicate OnSomeJob(pc: Pc) {
    FactsOf(pc).job.Some?
  }

  ghost predicate MarksNothing(e: Effect) {
    !e.change.MarkedDone? && (OnSomeJob(e.pc) || Finished(e.pc))
  }

  lemma CopyingMarksNothing(w: World, done: bool, pc: Pc, c: Choice)
    requires pc.Loop? || pc.Compare? || pc.Recheck? || pc.Append?
    ensures MarksNothing(EffectOf(w, done, pc, c))
  {
  }

  lemma EndingMarksNothing(w: World, done: bool, pc: Pc, c: Choice)
    requires pc.EmptyMeasure? || pc.EmptyCheckpoint? || pc.DeleteMeasure? || pc.Delete?
    ensures MarksNothing(EffectOf(w, done, pc, c))
  {
  }

  lemma JobMarksNothing(w: World, done: bool, pc: Pc, c: Choice)
    requires OnSomeJob(pc)
    ensures MarksNothing(EffectOf(w, done, pc, c))
  {
    if pc.Loop? || pc.Compare? || pc.Recheck? || pc.Append? {
      CopyingMarksNothing(w, done, pc, c);
    } else if pc.EmptyMeasure? || pc.EmptyCheckpoint? || pc.DeleteMeasure? || pc.Delete? {
      EndingMarksNothing(w, done, pc, c);
    }
  }

  /** The calls of one opener, with the others standing still, are a run of the whole system. */
  lemma {:induction false} LoneCallsAreARun(strict: bool, s: State, t: Tid, cs: seq<Choice>, end: (World, Pc))
    requires OnSomeJob(PcOf(s, t)) || Finished(PcOf(s, t))
    requires Ends(strict, s.w, s.done, PcOf(s, t), cs, end)
    ensures IsRun(s, MovesOf(t, cs))
    ensures var s' := After(s, MovesOf(t, cs)); (s'.w, PcOf(s', t)) == end && s'.done == s.done
    decreases |cs|
  {
    if !Finished(PcOf(s, t)) {
      RefusalFits(strict, s.w, PcOf(s, t), cs[0]);
      JobMarksNothing(s.w, s.done, PcOf(s, t), cs[0]);
      LoneCallsAreARun(strict, Step(s, t, cs[0]), t, cs[1..], end);
      assert MovesOf(t, cs)[1..] == MovesOf(t, cs[1..]);
    }
  }

  lemma RefusalFits(strict: bool, w: World, pc: Pc, c: Choice)
    requires Plain(strict, w, pc, c)
    ensures ChoiceFits(pc, c)
  {
  }

  /**
  After any run of openers that fail and crash: an opener that begins with a source still
  there, and then has the streams to itself, ends with the whole source in the target, once,
  and the source gone, whatever its calls are, exactly when what was copied past the
  checkpoint ends on a batch boundary and the target can be read; if not, it gives up and
  leaves every stream as it was.
  */
  lemma LoneOpenerRecovers(strict: bool, streams: map<Name, seq<Entry>>, run: seq<Move>, t: Tid, job: Job,
                           cs: seq<Choice>, end: (World, Pc))
    requires IsOrderlyRun(streams, Start(streams), run)
    requires var s := After(Start(streams), run);
      PcOf(s, t) == MeasureSource(job) && job.source in s.w.streams && Ends(strict, s.w, s.done, PcOf(s, t), cs, end)
    ensures job.source in Family(streams)
    ensures var (s, c) := (After(Start(streams), run), CopyFor(streams, job.source));
      var s' := After(s, MovesOf(t, cs));
      && IsRun(s, MovesOf(t, cs))
      && (if OnBatchBoundary(s.w, c) && TargetReadable(s.w, strict, c) then
            && PcOf(s', t) == NextSource(job.todo)
            && Contents(s'.w, c.target) == c.base + c.full && job.source !in s'.w.streams
            && SameElsewhere(s.w, s'.w, job.source, c.target)
          else PcOf(s', t) == Down && s'.w.streams == s.w.streams)
  {
    StartHasInv(streams);
    RunKeepsInv(streams, Start(streams), run);
    var s := After(Start(streams), run);
    assert Knows(streams, s.w, PcOf(s, t));
    TargetsAreApart(job.source, job.source);
    RerunRecoversExactly(streams, run, job.source, strict);
    LoneOpenerImports(strict, s.w, s.done, PcOf(s, t), cs, end);
    LoneCallsAreARun(strict, s, t, cs, end);
  }

  // ----- when another opener has finished -----

  // Where an opener gets to that waits at an empty page of a source that is gone.
  function AfterEmptyPage(w: World, job: Job, len: nat): (World, Pc) {
    (w, if job.source in w.progress && w.progress[job.source].sourceOffset >= len then NextSource(job.todo) else Down)
  }

  lemma DeletingNothing(strict: bool, w: World, done: bool, job: Job, len: nat, cs: seq<Choice>, end: (World, Pc))
    requires job.source !in w.streams && Ends(strict, w, done, Delete(job, len, 0), cs, end)
    ensures end == (w, NextSource(job.todo))
  {
    assert WithoutStream(w, job.source) == w by { assert w.streams - {job.source} == w.streams; }
    assert Ends(strict, w, done, NextSource(job.todo), cs[1..], end);
  }

  lemma MeasuringNothing(strict: bool, w: World, done: bool, job: Job, len: nat, cs: seq<Choice>, end: (World, Pc))
    requires job.source !in w.streams && len > 0 && Ends(strict, w, done, DeleteMeasure(job, len), cs, end)
    ensures end == (w, NextSource(job.todo))
  {
    assert Ends(strict, w, done, Delete(job, len, 0), cs[1..], end);
    DeletingNothing(strict, w, done, job, len, cs[1..], end);
  }

  lemma EmptyPageEnds(strict: bool, w: World, done: bool, job: Job, len: nat, p: Progress, cs: seq<Choice>,
                      end: (World, Pc))
    requires job.source !in w.streams && len > 0 && Ends(strict, w, done, EmptyMeasure(job, len, p, true), cs, end)
    ensures end == AfterEmptyPage(w, job, len)
  {
    assert Ends(strict, w, done, EmptyCheckpoint(job, len, p, true, 0), cs[1..], end);
    var e := EffectOf(w, done, EmptyCheckpoint(job, len, p, true, 0), cs[1]);
    assert Ends(strict, w, done, e.pc, cs[1..][1..], end);
    if e.pc.DeleteMeasure? {
      MeasuringNothing(strict, w, done, job, len, cs[1..][1..], end);
    }
  }

  /**
  An opener about to read, and its source gone: whatever its calls are, they change nothing, and
  it takes the source for imported exactly when the saved checkpoint reaches the length it
  measured; if not, it gives up.
  */
  lemma GoneSourceExactly(strict: bool, s: State, t: Tid, cs: seq<Choice>, end: (World, Pc))
    requires var pc := PcOf(s, t);
      pc.Loop? && pc.p.sourceOffset < pc.len && pc.job.source !in s.w.streams
      && Ends(strict, s.w, s.done, pc, cs, end)
    ensures IsRun(s, MovesOf(t, cs))
    ensures var (s', pc) := (After(s, MovesOf(t, cs)), PcOf(s, t));
      && (PcOf(s', t) == NextSource(pc.job.todo)
          <==> pc.job.source in s.w.progress && s.w.progress[pc.job.source].sourceOffset >= pc.len)
      && (PcOf(s', t) == NextSource(pc.job.todo) || PcOf(s', t) == Down)
      && s'.w == s.w && s'.done == s.done
  {
    var pc := PcOf(s, t);
    LoneCallsAreARun(strict, s, t, cs, end);
    assert Ends(strict, s.w, s.done, EmptyMeasure(pc.job, pc.len, pc.p, true), cs[1..], end);
    EmptyPageEnds(strict, s.w, s.done, pc.job, pc.len, pc.p, cs[1..], end);
  }

  // ----- why a first checkpoint must be measured before anything is copied, or when all is -----

  ghost predicate StillPrefix(streams: map<Name, seq<Entry>>, w: World, source: Name)
    requires source in Family(streams)
  {
    exists k: nat :: HoldsPrefix(w, CopyFor(streams, source), k)
  }

  // Nothing that orderly steps may lead to leaves more than a prefix in the target.
  ghost predicate StaysPrefix(streams: map<Name, seq<Entry>>, s: State, source: Name)
    requires source in Family(streams)
  {
    forall rest :: IsOrderlyRun(streams, s, rest) ==> StillPrefix(streams, After(s, rest).w, source)
  }

  lemma NoWayBack(strict: bool, w: World, done: bool, pc: Pc, c: Choice)
    requires Undisturbed(strict, w, pc) && !Finished(pc) && Plain(strict, w, pc, c) && Stage(pc) <= 1
    ensures Stage(EffectOf(w, done, pc, c).pc) <= 1
  {
    StepGoesOn(strict, w, done, pc, c);
  }

  lemma {:induction false} LoneCallsAreOrderly(strict: bool, streams: map<Name, seq<Entry>>, s: State, t: Tid,
                                               cs: seq<Choice>, end: (World, Pc))
    requires Undisturbed(strict, s.w, PcOf(s, t)) && Stage(PcOf(s, t)) <= 1
      && Ends(strict, s.w, s.done, PcOf(s, t), cs, end)
    ensures IsOrderlyRun(streams, s, MovesOf(t, cs))
    decreases |cs|
  {
    if !Finished(PcOf(s, t)) {
      StepGoesOn(strict, s.w, s.done, PcOf(s, t), cs[0]);
      JobMarksNothing(s.w, s.done, PcOf(s, t), cs[0]);
      NoWayBack(strict, s.w, s.done, PcOf(s, t), cs[0]);
      LoneCallsAreOrderly(strict, streams, Step(s, t, cs[0]), t, cs[1..], end);
      assert MovesOf(t, cs)[1..] == MovesOf(t, cs[1..]);
    }
  }

  // From a checkpoint at the source's start that lies past `k` copied entries.
  lemma MismeasuredRunRepeats(streams: map<Name, seq<Entry>>, s: State, t: Tid, job: Job, k: nat)
    returns (rest: seq<Move>)
    requires job.source in Family(streams) && job.target == TargetOf(job.source).value
    requires var c := CopyFor(streams, job.source);
      var p := Progress(c.target, 0, |c.base| + k);
      && 0 < k <= |c.full| && PcOf(s, t) == Loop(job, |c.full|, p)
      && job.source in s.w.progress && s.w.progress[job.source] == p
      && job.source in s.w.streams && s.w.streams[job.source] == c.full
      && Contents(s.w, c.target) == c.base + c.full[..k]
    ensures IsOrderlyRun(streams, s, rest) && !StillPrefix(streams, After(s, rest).w, job.source)
  {
    var c := CopyFor(streams, job.source);
    TargetsAreApart(job.source, job.source);
    var pc := PcOf(s, t);
    var cs := LoneOpenerEnds(false, s.w, s.done, pc);
    LoneCallsAreOrderly(false, streams, s, t, cs, Expected(false, s.w, pc));
    LoneCallsAreARun(false, s, t, cs, Expected(false, s.w, pc));
    MismeasuredStartRepeats(s.w, false, c, k);
    assert s.w.progress[job.source := pc.p] == s.w.progress;
    assert WithProgress(s.w, job.source, pc.p) == s.w;
    rest := MovesOf(t, cs);
    assert Contents(After(s, rest).w, c.target) == c.base + c.full[..k] + c.full;
  }

  lemma DisorderBreaks(streams: map<Name, seq<Entry>>, s: State, t: Tid)
    requires Inv(streams, s) && PcOf(s, t).MeasureTarget?
    requires PcOf(s, t).job.source in Family(streams) && !Orderly(streams, s, t)
    ensures !StaysPrefix(streams, Step(s, t, Go), PcOf(s, t).job.source)
  {
    var job, len := PcOf(s, t).job, PcOf(s, t).len;
    var c := CopyFor(streams, job.source);
    assert Knows(streams, s.w, PcOf(s, t)) && Copied(s.w, c);
    var measured := Step(s, t, Go);
    var saved := Step(measured, t, Go);
    var rest := MismeasuredRunRepeats(streams, saved, t, job, CopiedCount(s.w, c));
    var longer := [Move(t, Go)] + rest;
    assert longer[1..] == rest;
    assert IsOrderlyRun(streams, measured, longer) && After(measured, longer) == After(saved, rest);
  }

  /** Measuring a first checkpoint is orderly exactly when nothing that may follow it repeats an entry. */
  lemma OrderlyExactly(streams: map<Name, seq<Entry>>, run: seq<Move>, t: Tid)
    requires IsOrderlyRun(streams, Start(streams), run)
    requires PcOf(After(Start(streams), run), t).MeasureTarget?
    ensures var s := After(Start(streams), run);
      PcOf(s, t).job.source in Family(streams)
      && (Orderly(streams, s, t) <==> StaysPrefix(streams, Step(s, t, Go), PcOf(s, t).job.source))
  {
    StartHasInv(streams);
    RunKeepsInv(streams, Start(streams), run);
    var s := After(Start(streams), run);
    var source := PcOf(s, t).job.source;
    assert Knows(streams, s.w, PcOf(s, t));
    if Orderly(streams, s, t) {
      StepKeepsInv(streams, s, t, Go);
      forall rest | IsOrderlyRun(streams, Step(s, t, Go), rest)
        ensures StillPrefix(streams, After(Step(s, t, Go), rest).w, source)
      {
        RunKeepsInv(streams, Step(s, t, Go), rest);
        var w, c := After(Step(s, t, Go), rest).w, CopyFor(streams, source);
        assert Copied(w, c);
        assert HoldsPrefix(w, c, CopiedCount(w, c));
      }
    } else {
      DisorderBreaks(streams, s, t);
    }
  }
}
