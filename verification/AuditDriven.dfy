/**
One opener of the transition system against the scripted storage: each storage call meets the
next fault of the script, which decides what the opener's next step is.
*/
module AuditDriven {
  import opened Prelude
  import opened AuditNames
  import opened AuditImport
  import opened AuditStorage
  import opened AuditProtocol

  // The step of a call that is answered, a page of at most `limit` entries if it reads one.
  function Answered(drv: Driver, w: World, pc: Pc, limit: nat): Choice {
    match pc
    case Loop(_, _, _) => Read(limit)
    case Compare(_, _, p, _) => if drv.read && p.target !in w.streams then Stop else Read(limit)
    case Recheck(_, _, p, _) => if drv.read && p.target !in w.streams then Stop else Read(limit)
    // A source that is found missing only now is an error; one that was measured empty is not.
    case Delete(job, _, now) => if drv.delete && job.source !in w.streams && now != 0 then Lose else Go
    case _ => Go
  }

  // A page that is not cut short: a batch, or all of one that is looked for.
  function WholePage(pc: Pc): nat {
    if (pc.Compare? || pc.Recheck?) && |pc.batch| > BATCH then |pc.batch| else BATCH
  }

  // `w` is the storage as the call finds it.
  function Chosen(drv: Driver, w: World, pc: Pc, f: Fault): Choice {
    match f
    case Fails(kind) => if pc.Append? && kind.Conflict? then Deny else Stop
    case Loses(kind) =>
      if pc.Append? then (if kind.Conflict? then Repeat else Lose)
      else if pc.SaveFirst? || pc.Save? || pc.Delete? then Lose
      else Stop
    case Short(limit) => Answered(drv, w, pc, limit)
    case _ => Answered(drv, w, pc, WholePage(pc))
  }

  // At a point of a job, and not through with it.
  predicate AtWork(pc: Pc) {
    FactsOf(pc).job.Some?
  }

  // A batch is some part of what is left of the source.
  predicate Proper(pc: Pc) {
    match pc
    case Compare(_, len, p, batch) => batch != [] && p.sourceOffset + |batch| <= len
    case CheckEnd(_, len, p, batch) => batch != [] && p.sourceOffset + |batch| <= len
    case Append(_, len, p, batch) => batch != [] && p.sourceOffset + |batch| <= len
    case Recheck(_, len, p, batch) => batch != [] && p.sourceOffset + |batch| <= len
    case _ => true
  }

  // At the end of the loop, where no storage is called.
  predicate LoopIsOver(pc: Pc) {
    pc.Loop? && pc.len <= pc.p.sourceOffset
  }

  // Before the loop, in it, after it.
  function Part(pc: Pc): nat {
    if pc.MeasureSource? || pc.ReadCheckpoint? || pc.MeasureTarget? || pc.SaveFirst? then 2
    else if pc.DeleteMeasure? || pc.Delete? || !AtWork(pc) then 0
    else 1
  }

  function ToCopy(len: nat, p: Progress): nat {
    if p.sourceOffset < len then len - p.sourceOffset else 0
  }

  function Remains(pc: Pc): nat {
    match pc
    case Loop(_, len, p) => ToCopy(len, p)
    case Compare(_, len, p, _) => ToCopy(len, p)
    case CheckEnd(_, len, p, _) => ToCopy(len, p)
    case Append(_, len, p, _) => ToCopy(len, p)
    case Recheck(_, len, p, _) => ToCopy(len, p)
    case Save(_, len, p) => ToCopy(len, p)
    case EmptyMeasure(_, len, p, _) => ToCopy(len, p)
    case EmptyCheckpoint(_, len, p, _, _) => ToCopy(len, p)
    case _ => 0
  }

  function StepsTo(pc: Pc): nat {
    match pc
    case MeasureSource(_) => 4
    case ReadCheckpoint(_, _) => 3
    case MeasureTarget(_, _) => 2
    case SaveFirst(_, _, _) => 1
    case Save(_, _, _) => 8
    case Loop(_, _, _) => 7
    case Compare(_, _, _, _) => 6
    case CheckEnd(_, _, _, _) => 5
    case Append(_, _, _, _) => 4
    case Recheck(_, _, _, _) => 3
    case EmptyMeasure(_, _, _, _) => 2
    case EmptyCheckpoint(_, _, _, _, _) => 1
    case DeleteMeasure(_, _) => 2
    case Delete(_, _, _) => 1
    case _ => 0
  }

  predicate Closer(pc: Pc, next: Pc) {
    || Part(next) < Part(pc)
    || (Part(next) == Part(pc)
        && (Remains(next) < Remains(pc) || (Remains(next) == Remains(pc) && StepsTo(next) < StepsTo(pc))))
  }

  // The step that meets the fault `f`.
  function Met(drv: Driver, w: World, pc: Pc, f: Fault): Effect {
    EffectOf(Found(w, f), false, pc, Chosen(drv, Found(w, f), pc, f))
  }

  // The error it gives up with, if it does: that of the call, or what it makes of the answer.
  function Complaint(drv: Driver, w: World, pc: Pc, f: Fault): ErrorKind {
    var found := Found(w, f);
    if FailureOf(f).Some? then FailureOf(f).value
    else if pc.Delete? || ((pc.Compare? || pc.Recheck?) && drv.read && pc.p.target !in found.streams) then NotFound
    else if pc.EmptyCheckpoint? && drv.read && pc.gone then NotFound
    else Conflict
  }

  // Where the step gets to.
  function Reached(drv: Driver, w: World, pc: Pc, f: Fault): Result<Pc, ErrorKind> {
    var e := Met(drv, w, pc, f);
    if e.pc.Down? then Err(Complaint(drv, w, pc, f)) else Ok(e.pc)
  }

  function AfterLoop(pc: Pc): Pc
    requires LoopIsOver(pc)
  {
    if pc.p.sourceOffset == pc.len then DeleteMeasure(pc.job, pc.len) else NextSource(pc.job.todo)
  }

  lemma LookingComesCloser(drv: Driver, w: World, pc: Pc, f: Fault)
    requires Proper(pc) && (pc.Compare? || pc.Recheck?)
    ensures Proper(Met(drv, w, pc, f).pc) && Closer(pc, Met(drv, w, pc, f).pc)
  {
  }

  lemma AppendingComesCloser(drv: Driver, w: World, pc: Pc, f: Fault)
    requires Proper(pc) && (pc.CheckEnd? || pc.Append?)
    ensures Proper(Met(drv, w, pc, f).pc) && Closer(pc, Met(drv, w, pc, f).pc)
  {
  }

  lemma LoopComesCloser(drv: Driver, w: World, pc: Pc, f: Fault)
    requires pc.Loop? && !LoopIsOver(pc)
    ensures Proper(Met(drv, w, pc, f).pc) && Closer(pc, Met(drv, w, pc, f).pc)
  {
  }

  lemma StepComesCloser(drv: Driver, w: World, pc: Pc, f: Fault)
    requires Proper(pc) && AtWork(pc) && !LoopIsOver(pc)
    ensures Proper(Met(drv, w, pc, f).pc) && Closer(pc, Met(drv, w, pc, f).pc)
  {
    if pc.Compare? || pc.Recheck? {
      LookingComesCloser(drv, w, pc, f);
    } else if pc.CheckEnd? || pc.Append? {
      AppendingComesCloser(drv, w, pc, f);
    } else if pc.Loop? {
      LoopComesCloser(drv, w, pc, f);
    }
  }

  // The storage the opener leaves behind, whether it is through or gives up, and what is left of
  // the script.
  type Outcome = (World, Result<Pc, ErrorKind>, seq<Fault>)

  function Ran(drv: Driver, w: World, pc: Pc, script: seq<Fault>): Outcome
    requires Proper(pc)
    decreases Part(pc), Remains(pc), StepsTo(pc)
  {
    if !AtWork(pc) then (w, Ok(pc), script)
    else if LoopIsOver(pc) then Ran(drv, w, AfterLoop(pc), script)
    else
      StepComesCloser(drv, w, pc, Next(script));
      var (found, e) := (Found(w, Next(script)), Met(drv, w, pc, Next(script)));
      if e.pc.Down? then (Changed(found, e.change), Err(Complaint(drv, w, pc, Next(script))), Rest(script))
      else Ran(drv, Changed(found, e.change), e.pc, Rest(script))
  }

  lemma RanOn(drv: Driver, w: World, pc: Pc, script: seq<Fault>)
    requires Proper(pc) && AtWork(pc) && !LoopIsOver(pc)
    ensures var (found, e) := (Found(w, Next(script)), Met(drv, w, pc, Next(script)));
      && Proper(e.pc)
      && Ran(drv, w, pc, script)
         == if e.pc.Down? then (Changed(found, e.change), Err(Complaint(drv, w, pc, Next(script))), Rest(script))
            else Ran(drv, Changed(found, e.change), e.pc, Rest(script))
  {
    StepComesCloser(drv, w, pc, Next(script));
  }

  // ----- call by call -----

  // Any reading of where the opener is, or of what it gave up with, that no step changes.
  type Run = (World, Result<Pc, ErrorKind>, seq<Fault>) -> Outcome

  // Where a reading is looked at.
  predicate Here(w: World, pc: Pc, script: seq<Fault>) {
    true
  }

  ghost predicate Follows(run: Run, drv: Driver) {
    forall w: World, pc: Pc, script: seq<Fault> {:trigger Here(w, pc, script)} ::
      Here(w, pc, script) && Proper(pc) && AtWork(pc) ==>
        if LoopIsOver(pc) then run(w, Ok(pc), script) == run(w, Ok(AfterLoop(pc)), script)
        else
          var (found, f) := (Found(w, Next(script)), Next(script));
          run(w, Ok(pc), script) == run(Changed(found, Met(drv, w, pc, f).change), Reached(drv, w, pc, f), Rest(script))
  }

  // Where the opener ends is such a reading.
  function End(drv: Driver): Run {
    (w: World, at: Result<Pc, ErrorKind>, script: seq<Fault>) =>
      if at.Ok? && Proper(at.value) then Ran(drv, w, at.value, script) else (w, at, script)
  }

  lemma EndFollows(drv: Driver)
    ensures Follows(End(drv), drv)
  {
    forall w: World, pc: Pc, script: seq<Fault> | Proper(pc) && AtWork(pc) && !LoopIsOver(pc)
      ensures var (found, f) := (Found(w, Next(script)), Next(script));
        End(drv)(w, Ok(pc), script)
          == End(drv)(Changed(found, Met(drv, w, pc, f).change), Reached(drv, w, pc, f), Rest(script))
    {
      RanOn(drv, w, pc, script);
    }
  }

  lemma OneCall(run: Run, drv: Driver, w: World, pc: Pc, script: seq<Fault>)
    requires Follows(run, drv) && Proper(pc) && AtWork(pc) && !LoopIsOver(pc)
    ensures var (found, f) := (Found(w, Next(script)), Next(script));
      run(w, Ok(pc), script) == run(Changed(found, Met(drv, w, pc, f).change), Reached(drv, w, pc, f), Rest(script))
  {
    assert Here(w, pc, script);
  }

  // A call that only reads: it fails, or the opener goes on at `next`, or gives up.
  ghost predicate GoesOn(run: Run, w: World, pc: Pc, script: seq<Fault>, next: Result<Pc, ErrorKind>) {
    var (found, failure) := (Found(w, Next(script)), FailureOf(Next(script)));
    run(w, Ok(pc), script) == run(found, if failure.Some? then Err(failure.value) else next, Rest(script))
  }

  lemma SourceIsMeasured(run: Run, drv: Driver, w: World, job: Job, script: seq<Fault>)
    requires Follows(run, drv)
    ensures var found := Found(w, Next(script));
      GoesOn(run, w, MeasureSource(job), script, Ok(ReadCheckpoint(job, |Contents(found, job.source)|)))
  {
    OneCall(run, drv, w, MeasureSource(job), script);
  }

  lemma CheckpointIsRead(run: Run, drv: Driver, w: World, job: Job, len: nat, script: seq<Fault>)
    requires Follows(run, drv)
    ensures var found := Found(w, Next(script));
      GoesOn(run, w, ReadCheckpoint(job, len), script,
             if job.source !in found.progress then Ok(MeasureTarget(job, len))
             else if found.progress[job.source].target != job.target then Err(Conflict)
             else Ok(Loop(job, len, found.progress[job.source])))
  {
    OneCall(run, drv, w, ReadCheckpoint(job, len), script);
  }

  lemma TargetIsMeasured(run: Run, drv: Driver, w: World, job: Job, len: nat, script: seq<Fault>)
    requires Follows(run, drv)
    ensures var found := Found(w, Next(script));
      GoesOn(run, w, MeasureTarget(job, len), script, Ok(SaveFirst(job, len, |Contents(found, job.target)|)))
  {
    OneCall(run, drv, w, MeasureTarget(job, len), script);
  }

  // A checkpoint is saved, unless the call fails before its work.
  ghost predicate Saves(run: Run, w: World, pc: Pc, script: seq<Fault>, job: Job, len: nat, p: Progress) {
    var (f, found) := (Next(script), Found(w, Next(script)));
    var saved := if f.Fails? then found else WithProgress(found, job.source, p);
    run(w, Ok(pc), script)
      == run(saved, if FailureOf(f).Some? then Err(FailureOf(f).value) else Ok(Loop(job, len, p)), Rest(script))
  }

  lemma FirstIsSaved(run: Run, drv: Driver, w: World, job: Job, len: nat, end: nat, script: seq<Fault>)
    requires Follows(run, drv)
    ensures Saves(run, w, SaveFirst(job, len, end), script, job, len, Progress(job.target, 0, end))
  {
    OneCall(run, drv, w, SaveFirst(job, len, end), script);
  }

  lemma NextIsSaved(run: Run, drv: Driver, w: World, job: Job, len: nat, p: Progress, script: seq<Fault>)
    requires Follows(run, drv)
    ensures Saves(run, w, Save(job, len, p), script, job, len, p)
  {
    OneCall(run, drv, w, Save(job, len, p), script);
  }

  lemma PageIsRead(run: Run, drv: Driver, w: World, job: Job, len: nat, p: Progress, script: seq<Fault>)
    requires Follows(run, drv)
    requires p.sourceOffset < len
    ensures var (f, found) := (Next(script), Found(w, Next(script)));
      var page := Window(Contents(found, job.source), p.sourceOffset, if f.Short? then Min(BATCH, f.limit) else BATCH);
      GoesOn(run, w, Loop(job, len, p), script,
             if page == [] then Ok(EmptyMeasure(job, len, p, job.source !in found.streams))
             else Ok(Compare(job, len, p, page[..Min(|page|, len - p.sourceOffset)])))
  {
    OneCall(run, drv, w, Loop(job, len, p), script);
  }

  // Whether a read of the target shows the batch at its place; `None` if it is refused.
  function Shown(drv: Driver, w: World, p: Progress, batch: seq<Entry>, f: Fault): Option<bool> {
    if drv.read && p.target !in w.streams then None
    else
      var limit := if f.Short? then Min(|batch|, f.limit) else |batch|;
      Some(Window(Contents(w, p.target), p.targetOffset, limit) == batch)
  }

  lemma BatchIsLookedFor(run: Run, drv: Driver, w: World, job: Job, len: nat, p: Progress, batch: seq<Entry>,
                         script: seq<Fault>)
    requires Follows(run, drv)
    requires Proper(Compare(job, len, p, batch))
    ensures GoesOn(run, w, Compare(job, len, p, batch), script,
                   match Shown(drv, Found(w, Next(script)), p, batch, Next(script))
                   case None => Err(NotFound)
                   case Some(there) =>
                     Ok(if there then Save(job, len, Past(p, batch)) else CheckEnd(job, len, p, batch)))
  {
    OneCall(run, drv, w, Compare(job, len, p, batch), script);
  }

  lemma BatchIsLookedForAgain(run: Run, drv: Driver, w: World, job: Job, len: nat, p: Progress, batch: seq<Entry>,
                              script: seq<Fault>)
    requires Follows(run, drv)
    requires Proper(Recheck(job, len, p, batch))
    ensures GoesOn(run, w, Recheck(job, len, p, batch), script,
                   match Shown(drv, Found(w, Next(script)), p, batch, Next(script))
                   case None => Err(NotFound)
                   case Some(there) => if there then Ok(Save(job, len, Past(p, batch))) else Err(Conflict))
  {
    OneCall(run, drv, w, Recheck(job, len, p, batch), script);
  }

  lemma EndIsChecked(run: Run, drv: Driver, w: World, job: Job, len: nat, p: Progress, batch: seq<Entry>,
                     script: seq<Fault>)
    requires Follows(run, drv)
    requires Proper(CheckEnd(job, len, p, batch))
    ensures GoesOn(run, w, CheckEnd(job, len, p, batch), script,
                   if |Contents(Found(w, Next(script)), p.target)| != p.targetOffset then Err(Conflict)
                   else Ok(Append(job, len, p, batch)))
  {
    OneCall(run, drv, w, CheckEnd(job, len, p, batch), script);
  }

  lemma BatchIsAppended(run: Run, drv: Driver, w: World, job: Job, len: nat, p: Progress, batch: seq<Entry>,
                        script: seq<Fault>)
    requires Follows(run, drv)
    requires Proper(Append(job, len, p, batch))
    ensures var (f, found) := (Next(script), Found(w, Next(script)));
      var room := |Contents(found, p.target)| == p.targetOffset;
      var w' := if room && !f.Fails? then WithStream(found, p.target, Contents(found, p.target) + batch) else found;
      var conflict := FailureOf(f) == Some(Conflict) || (FailureOf(f).None? && !room);
      run(w, Ok(Append(job, len, p, batch)), script)
        == run(w', if conflict then Ok(Recheck(job, len, p, batch))
                   else if FailureOf(f).Some? then Err(FailureOf(f).value)
                   else Ok(Save(job, len, Past(p, batch))),
               Rest(script))
  {
    OneCall(run, drv, w, Append(job, len, p, batch), script);
  }

  lemma EmptySourceIsMeasured(run: Run, drv: Driver, w: World, job: Job, len: nat, p: Progress, gone: bool,
                              script: seq<Fault>)
    requires Follows(run, drv)
    ensures var now := |Contents(Found(w, Next(script)), job.source)|;
      GoesOn(run, w, EmptyMeasure(job, len, p, gone), script, Ok(EmptyCheckpoint(job, len, p, gone, now)))
  {
    OneCall(run, drv, w, EmptyMeasure(job, len, p, gone), script);
  }

  lemma EmptySourceIsChecked(run: Run, drv: Driver, w: World, job: Job, len: nat, p: Progress, gone: bool, now: nat,
                             script: seq<Fault>)
    requires Follows(run, drv)
    ensures var found := Found(w, Next(script));
      GoesOn(run, w, EmptyCheckpoint(job, len, p, gone, now), script,
             if now == 0 && job.source in found.progress && found.progress[job.source].sourceOffset >= len
             then Ok(DeleteMeasure(job, len)) else Err(if drv.read && gone then NotFound else Conflict))
  {
    OneCall(run, drv, w, EmptyCheckpoint(job, len, p, gone, now), script);
  }

  lemma DeletionIsMeasured(run: Run, drv: Driver, w: World, job: Job, len: nat, script: seq<Fault>)
    requires Follows(run, drv)
    ensures var now := |Contents(Found(w, Next(script)), job.source)|;
      GoesOn(run, w, DeleteMeasure(job, len), script,
             if now != len && !(now == 0 && len > 0) then Err(Conflict) else Ok(Delete(job, len, now)))
  {
    OneCall(run, drv, w, DeleteMeasure(job, len), script);
  }

  lemma SourceIsDeleted(run: Run, drv: Driver, w: World, job: Job, len: nat, now: nat, script: seq<Fault>)
    requires Follows(run, drv)
    ensures var (f, found) := (Next(script), Found(w, Next(script)));
      var w' := if f.Fails? then found else WithoutStream(found, job.source);
      run(w, Ok(Delete(job, len, now)), script)
        == run(w', if FailureOf(f).Some? then Err(FailureOf(f).value)
                   else if drv.delete && job.source !in found.streams && now != 0 then Err(NotFound)
                   else Ok(NextSource(job.todo)),
               Rest(script))
  {
    OneCall(run, drv, w, Delete(job, len, now), script);
  }

  lemma LoopEnds(run: Run, drv: Driver, w: World, job: Job, len: nat, p: Progress, script: seq<Fault>)
    requires Follows(run, drv)
    requires len <= p.sourceOffset
    ensures run(w, Ok(Loop(job, len, p)), script)
      == run(w, Ok(if p.sourceOffset == len then DeleteMeasure(job, len) else NextSource(job.todo)), script)
  {
    assert Here(w, Loop(job, len, p), script);
  }

  // ----- what survives every script -----

  // Between finding no checkpoint and saving one, there is none: a rival needs one to begin.
  predicate NoneYet(w: World, pc: Pc) {
    (pc.MeasureTarget? || pc.SaveFirst?) ==> pc.job.source !in w.progress
  }

  lemma ChosenFits(drv: Driver, w: World, pc: Pc, f: Fault)
    requires AtWork(pc) && !LoopIsOver(pc)
    ensures ChoiceFits(pc, Chosen(drv, w, pc, f))
  {
  }

  lemma FaultKeepsJob(w: World, pc: Pc, f: Fault, c: Copy)
    requires OnJobOf(w, pc, c) && NoneYet(w, pc)
    ensures Later(w, Found(w, f), c) && OnJobOf(Found(w, f), pc, c) && NoneYet(Found(w, f), pc)
  {
    FaultKeepsCopy(w, f, c);
  }

  lemma StepKeepsJob(w: World, pc: Pc, choice: Choice, c: Copy)
    requires OnJobOf(w, pc, c) && NoneYet(w, pc) && ChoiceFits(pc, choice)
    ensures var e := EffectOf(w, false, pc, choice);
      var w' := Changed(w, e.change);
      && Later(w, w', c)
      && (AtWork(e.pc) ==> OnJobOf(w', e.pc, c) && NoneYet(w', e.pc))
      && (!AtWork(e.pc) ==> e.pc.Down? || (e.pc.NextSource? && c.source !in w'.streams))
  {
    var e := EffectOf(w, false, pc, choice);
    StepOnJob(w, false, pc, choice, c);
    SoundChangeKeepsItsCopy(w, e.change, c);
    StepFindsNone(w, pc, choice);
  }

  lemma StepFindsNone(w: World, pc: Pc, choice: Choice)
    requires AtWork(pc) && NoneYet(w, pc)
    ensures var e := EffectOf(w, false, pc, choice); NoneYet(Changed(w, e.change), e.pc)
  {
  }

  // A copy that is sound stays so, whatever the script, and success means it is complete.
  lemma {:induction false} RanKeepsCopy(drv: Driver, w: World, pc: Pc, script: seq<Fault>, c: Copy)
    requires Proper(pc) && OnJobOf(w, pc, c) && NoneYet(w, pc)
    ensures var (w', end, _) := Ran(drv, w, pc, script);
      Later(w, w', c) && (end.Ok? ==> c.source !in w'.streams)
    decreases Part(pc), Remains(pc), StepsTo(pc)
  {
    if LoopIsOver(pc) {
      StepKeepsJob(w, pc, Go, c);
      if AtWork(AfterLoop(pc)) {
        RanKeepsCopy(drv, w, AfterLoop(pc), script, c);
      }
    } else {
      var f := Next(script);
      var (found, e) := (Found(w, f), Met(drv, w, pc, f));
      FaultKeepsJob(w, pc, f, c);
      ChosenFits(drv, found, pc, f);
      StepKeepsJob(found, pc, Chosen(drv, found, pc, f), c);
      StepComesCloser(drv, w, pc, f);
      RanOn(drv, w, pc, script);
      if AtWork(e.pc) {
        RanKeepsCopy(drv, Changed(found, e.change), e.pc, Rest(script), c);
      }
    }
  }

  // ----- what it gives up with -----

  // Of the calls it made: none failed but with a conflict, if it is through; if not, it gives up
  // with the failure of the last, unless that answered and is complained of.
  ghost predicate IsAnswered(drv: Driver, script: seq<Fault>, end: Result<Pc, ErrorKind>, rest: seq<Fault>) {
    var made := |script| - |rest|;
    && 0 <= made
    && (end.Ok? ==> forall k :: 0 <= k < made ==> FailureOf(script[k]).None? || FailureOf(script[k]) == Some(Conflict))
    && (end.Err? ==>
          || end.error == Conflict
          || (end.error == NotFound && (drv.read || drv.delete))
          || (made > 0 && FailureOf(script[made - 1]) == Some(end.error)))
  }

  lemma FailureEndsIt(drv: Driver, w: World, pc: Pc, f: Fault)
    requires Proper(pc) && AtWork(pc) && !LoopIsOver(pc)
    ensures FailureOf(f).Some? ==> Reached(drv, w, pc, f) == Err(FailureOf(f).value) || FailureOf(f) == Some(Conflict)
    ensures FailureOf(f).None? && Reached(drv, w, pc, f).Err? ==>
              var kind := Reached(drv, w, pc, f).error;
              kind == Conflict || (kind == NotFound && (drv.read || drv.delete))
  {
  }

  /** An opener gives up with the error of its last call, if that call failed. */
  lemma {:induction false} ErrorsAreTheCalls(drv: Driver, w: World, pc: Pc, script: seq<Fault>)
    requires Proper(pc)
    ensures var (_, end, rest) := Ran(drv, w, pc, script); IsAnswered(drv, script, end, rest)
    decreases Part(pc), Remains(pc), StepsTo(pc)
  {
    if AtWork(pc) {
      if LoopIsOver(pc) {
        ErrorsAreTheCalls(drv, w, AfterLoop(pc), script);
      } else {
        var f := Next(script);
        var (found, e) := (Found(w, f), Met(drv, w, pc, f));
        StepComesCloser(drv, w, pc, f);
        RanOn(drv, w, pc, script);
        FailureEndsIt(drv, w, pc, f);
        if !e.pc.Down? {
          ErrorsAreTheCalls(drv, Changed(found, e.change), e.pc, Rest(script));
          AnswersAddUp(drv, script, Ran(drv, w, pc, script).1, Ran(drv, w, pc, script).2);
        }
      }
    }
  }

  lemma AnswersAddUp(drv: Driver, script: seq<Fault>, end: Result<Pc, ErrorKind>, rest: seq<Fault>)
    requires IsAnswered(drv, Rest(script), end, rest)
    requires FailureOf(Next(script)).None? || FailureOf(Next(script)) == Some(Conflict)
    ensures IsAnswered(drv, script, end, rest)
  {
    if script != [] {
      var (made, k) := (|script| - |rest|, |Rest(script)| - |rest|);
      assert made == k + 1;
      assert k > 0 ==> script[made - 1] == Rest(script)[k - 1];
      assert forall i :: 0 < i < made ==> script[i] == Rest(script)[i - 1];
    }
  }
}
