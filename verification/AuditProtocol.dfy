/**
Any number of openers importing the same family of streams at once, one storage call
at a time, each of which may fail or crash at every call and start over.
*/
module AuditProtocol {
  import opened Prelude
  import opened AuditNames
  import opened AuditImport
  import opened AuditStorage

  type Tid = nat

  // The source being imported, and the ones listed after it.
  datatype Job = Job(source: Name, target: Name, todo: set<Name>)

  // Where an opener is: the call named is the one it makes next.
  datatype Pc =
    | Down
    | ReadDone
    | ListStreams
    | NextSource(todo: set<Name>)
    | MeasureSource(job: Job)
    | ReadCheckpoint(job: Job, len: nat)
    | MeasureTarget(job: Job, len: nat)
    | SaveFirst(job: Job, len: nat, end: nat)
    | Loop(job: Job, len: nat, p: Progress)
    | Compare(job: Job, len: nat, p: Progress, batch: seq<Entry>)
    | CheckEnd(job: Job, len: nat, p: Progress, batch: seq<Entry>)
    | Append(job: Job, len: nat, p: Progress, batch: seq<Entry>)
    | Recheck(job: Job, len: nat, p: Progress, batch: seq<Entry>)
    | Save(job: Job, len: nat, p: Progress)
    | EmptyMeasure(job: Job, len: nat, p: Progress, gone: bool)
    | EmptyCheckpoint(job: Job, len: nat, p: Progress, gone: bool, now: nat)
    | DeleteMeasure(job: Job, len: nat)
    | Delete(job: Job, len: nat, now: nat)

  // `Stop`: the call fails, or the opener crashes before it. `Lose`: it does its work and
  // then fails. `Repeat`: an append does its work, and is then reported as a conflict.
  // `Deny`: it is reported as one and did nothing.
  datatype Choice = Go | Stop | Lose | Repeat | Deny | Read(limit: nat) | Pick(source: Name)

  datatype Change =
    | Unchanged
    | Saved(source: Name, p: Progress)
    | Appended(target: Name, values: seq<Entry>)
    | Deleted(source: Name)
    | MarkedDone

  datatype Effect = Effect(pc: Pc, change: Change)

  datatype State = State(w: World, done: bool, pcs: map<Tid, Pc>)

  function Start(streams: map<Name, seq<Entry>>): State {
    State(World(streams, map[]), false, map[])
  }

  function PcOf(s: State, t: Tid): Pc {
    if t in s.pcs then s.pcs[t] else Down
  }

  function Sources(w: World): set<Name> {
    set n | n in w.streams && TargetOf(n).Some?
  }

  predicate ChoiceFits(pc: Pc, c: Choice) {
    match c
    case Stop => true
    case Lose => pc.SaveFirst? || pc.Append? || pc.Save? || pc.Delete?
    case Repeat => pc.Append?
    case Deny => pc.Append?
    case Read(_) => pc.Loop? || pc.Compare? || pc.Recheck?
    case Pick(n) => pc.NextSource? && n in pc.todo
    case Go => !pc.Compare? && !pc.Recheck? && (pc.NextSource? ==> pc.todo == {})
               && (pc.Loop? ==> pc.len <= pc.p.sourceOffset)
  }

  // One past the batch.
  function Past(p: Progress, batch: seq<Entry>): Progress {
    Progress(p.target, p.sourceOffset + |batch|, p.targetOffset + |batch|)
  }

  function LoopEffect(w: World, pc: Pc, limit: nat): Effect
    requires pc.Loop?
  {
    if pc.p.sourceOffset < pc.len then
      var page := Window(Contents(w, pc.job.source), pc.p.sourceOffset, Min(limit, BATCH));
      if page == [] then Effect(EmptyMeasure(pc.job, pc.len, pc.p, pc.job.source !in w.streams), Unchanged)
      else Effect(Compare(pc.job, pc.len, pc.p, page[..Min(|page|, pc.len - pc.p.sourceOffset)]), Unchanged)
    else if pc.p.sourceOffset == pc.len then Effect(DeleteMeasure(pc.job, pc.len), Unchanged)
    else Effect(NextSource(pc.job.todo), Unchanged)
  }

  function AppendEffect(w: World, pc: Pc, c: Choice): Effect
    requires pc.Append?
  {
    if c.Deny? || |Contents(w, pc.p.target)| != pc.p.targetOffset then
      Effect(if c.Lose? then Down else Recheck(pc.job, pc.len, pc.p, pc.batch), Unchanged)
    else
      Effect(if c.Lose? then Down
             else if c.Repeat? then Recheck(pc.job, pc.len, pc.p, pc.batch)
             else Save(pc.job, pc.len, Past(pc.p, pc.batch)), Appended(pc.p.target, pc.batch))
  }

  // The window of the target that the batch would fill; a read may come back short.
  predicate BatchSeen(w: World, p: Progress, batch: seq<Entry>, limit: nat) {
    Window(Contents(w, p.target), p.targetOffset, Min(limit, |batch|)) == batch
  }

  function CompareEffect(w: World, pc: Pc, limit: nat): Effect
    requires pc.Compare? || pc.Recheck?
  {
    if BatchSeen(w, pc.p, pc.batch, limit) then Effect(Save(pc.job, pc.len, Past(pc.p, pc.batch)), Unchanged)
    else if pc.Compare? then Effect(CheckEnd(pc.job, pc.len, pc.p, pc.batch), Unchanged)
    else Effect(Down, Unchanged)
  }

  function MeasureEffect(w: World, pc: Pc): Effect {
    match pc
    case MeasureSource(job) => Effect(ReadCheckpoint(job, |Contents(w, job.source)|), Unchanged)
    case ReadCheckpoint(job, len) =>
      if job.source !in w.progress then Effect(MeasureTarget(job, len), Unchanged)
      else if w.progress[job.source].target != job.target then Effect(Down, Unchanged)
      else Effect(Loop(job, len, w.progress[job.source]), Unchanged)
    case MeasureTarget(job, len) => Effect(SaveFirst(job, len, |Contents(w, job.target)|), Unchanged)
    case CheckEnd(job, len, p, batch) =>
      Effect(if |Contents(w, p.target)| != p.targetOffset then Down else Append(job, len, p, batch), Unchanged)
    case _ => Effect(Down, Unchanged)
  }

  function SaveEffect(pc: Pc, lose: bool): Effect
    requires pc.SaveFirst? || pc.Save?
  {
    var p := if pc.SaveFirst? then Progress(pc.job.target, 0, pc.end) else pc.p;
    Effect(if lose then Down else Loop(pc.job, pc.len, p), Saved(pc.job.source, p))
  }

  function EndEffect(w: World, pc: Pc, lose: bool): Effect {
    match pc
    case EmptyMeasure(job, len, p, gone) =>
      Effect(EmptyCheckpoint(job, len, p, gone, |Contents(w, job.source)|), Unchanged)
    case EmptyCheckpoint(job, len, _, _, now) =>
      if now == 0 && job.source in w.progress && w.progress[job.source].sourceOffset >= len
      then Effect(DeleteMeasure(job, len), Unchanged)
      else Effect(Down, Unchanged)
    case DeleteMeasure(job, len) =>
      var now := |Contents(w, job.source)|;
      Effect(if now != len && !(now == 0 && len > 0) then Down else Delete(job, len, now), Unchanged)
    case Delete(job, _, _) => Effect(if lose then Down else NextSource(job.todo), Deleted(job.source))
    case _ => Effect(Down, Unchanged)
  }

  function BeginEffect(w: World, done: bool, pc: Pc, c: Choice): Effect {
    match pc
    case Down => Effect(ReadDone, Unchanged)
    case ReadDone => Effect(if done then Down else ListStreams, Unchanged)
    case ListStreams => Effect(NextSource(Sources(w)), Unchanged)
    case NextSource(todo) =>
      if c.Pick? && TargetOf(c.source).Some? then
        Effect(MeasureSource(Job(c.source, TargetOf(c.source).value, todo - {c.source})), Unchanged)
      else if todo == {} then Effect(Down, MarkedDone)
      else Effect(Down, Unchanged)
    case _ => Effect(Down, Unchanged)
  }

  function Limit(c: Choice): nat {
    if c.Read? then c.limit else 0
  }

  function EffectOf(w: World, done: bool, pc: Pc, c: Choice): Effect {
    if c.Stop? then Effect(Down, Unchanged)
    else match pc
         case MeasureSource(_) => MeasureEffect(w, pc)
         case ReadCheckpoint(_, _) => MeasureEffect(w, pc)
         case MeasureTarget(_, _) => MeasureEffect(w, pc)
         case SaveFirst(_, _, _) => SaveEffect(pc, c.Lose?)
         case Loop(_, _, _) => LoopEffect(w, pc, Limit(c))
         case Compare(_, _, _, _) => CompareEffect(w, pc, Limit(c))
         case CheckEnd(_, _, _, _) => MeasureEffect(w, pc)
         case Append(_, _, _, _) => AppendEffect(w, pc, c)
         case Recheck(_, _, _, _) => CompareEffect(w, pc, Limit(c))
         case Save(_, _, _) => SaveEffect(pc, c.Lose?)
         case EmptyMeasure(_, _, _, _) => EndEffect(w, pc, c.Lose?)
         case EmptyCheckpoint(_, _, _, _, _) => EndEffect(w, pc, c.Lose?)
         case DeleteMeasure(_, _) => EndEffect(w, pc, c.Lose?)
         case Delete(_, _, _) => EndEffect(w, pc, c.Lose?)
         case _ => BeginEffect(w, done, pc, c)
  }

  function Changed(w: World, change: Change): World {
    match change
    case Saved(source, p) => WithProgress(w, source, p)
    case Appended(target, values) => WithStream(w, target, Contents(w, target) + values)
    case Deleted(source) => WithoutStream(w, source)
    case _ => w
  }

  function Step(s: State, t: Tid, c: Choice): State {
    var e := EffectOf(s.w, s.done, PcOf(s, t), c);
    State(Changed(s.w, e.change), s.done || e.change.MarkedDone?, s.pcs[t := e.pc])
  }

  // --- what holds ---

  // The import of one source of the family that was there at the start.
  function CopyFor(streams: map<Name, seq<Entry>>, source: Name): Copy
    requires TargetOf(source).Some?
  {
    var target := TargetOf(source).value;
    Copy(source, target, Contents(World(streams, map[]), target), Contents(World(streams, map[]), source))
  }

  function Family(streams: map<Name, seq<Entry>>): set<Name> {
    set n | n in streams && TargetOf(n).Some?
  }

  // A first checkpoint is measured before anything of its source has been copied, or after
  // the source is gone.
  predicate MayMeasure(w: World, c: Copy) {
    CopiedCount(w, c) == 0 || c.source !in w.streams
  }

  predicate Orderly(streams: map<Name, seq<Entry>>, s: State, t: Tid) {
    PcOf(s, t).MeasureTarget? && PcOf(s, t).job.source in Family(streams) ==>
      MayMeasure(s.w, CopyFor(streams, PcOf(s, t).job.source))
  }

  ghost predicate AllCopied(streams: map<Name, seq<Entry>>, w: World) {
    && (forall n :: n in Family(streams) ==> Copied(w, CopyFor(streams, n)))
    && Sources(w) <= Family(streams)
  }

  // What an opener may rely on: the listed sources not yet gone, its job, the length it
  // measured, its checkpoint, its batch, the target's end it measured, and whether
  // everything is known to be copied.
  datatype Facts = Facts(
    todo: Option<set<Name>>,
    job: Option<Job>,
    len: Option<nat>,
    p: Option<Progress>,
    batch: Option<seq<Entry>>,
    end: Option<nat>,
    complete: bool)

  const NOTHING := Facts(None, None, None, None, None, None, false)

  function OnJob(job: Job): Facts {
    NOTHING.(todo := Some(job.todo + {job.source}), job := Some(job))
  }

  function FactsOf(pc: Pc): Facts {
    match pc
    case NextSource(todo) => NOTHING.(todo := Some(todo))
    case MeasureSource(job) => OnJob(job)
    case ReadCheckpoint(job, len) => OnJob(job).(len := Some(len))
    case MeasureTarget(job, len) => OnJob(job).(len := Some(len))
    case SaveFirst(job, len, end) => OnJob(job).(len := Some(len), end := Some(end))
    case Loop(job, len, p) => OnJob(job).(len := Some(len), p := Some(p))
    case Compare(job, len, p, batch) => OnJob(job).(len := Some(len), p := Some(p), batch := Some(batch))
    case CheckEnd(job, len, p, batch) => OnJob(job).(len := Some(len), p := Some(p), batch := Some(batch))
    case Append(job, len, p, batch) => OnJob(job).(len := Some(len), p := Some(p), batch := Some(batch))
    case Recheck(job, len, p, batch) => OnJob(job).(len := Some(len), p := Some(p), batch := Some(batch))
    case Save(job, len, p) => OnJob(job).(len := Some(len), p := Some(p))
    case EmptyMeasure(job, len, p, _) => OnJob(job).(len := Some(len))
    case EmptyCheckpoint(job, len, p, _, _) => OnJob(job).(len := Some(len))
    case DeleteMeasure(job, len) => OnJob(job).(complete := true)
    case Delete(job, _, _) => OnJob(job).(complete := true)
    case _ => NOTHING
  }

  ghost predicate FactsHold(streams: map<Name, seq<Entry>>, w: World, f: Facts) {
    && (f.todo.Some? ==> forall n :: n in Family(streams) ==> n in f.todo.value || n !in w.streams)
    && (f.job.Some? ==>
          && f.job.value.source in Family(streams) && TargetOf(f.job.value.source) == Some(f.job.value.target)
          && JobFactsHold(w, f, CopyFor(streams, f.job.value.source)))
    && (f.todo.Some? ==> f.todo.value <= Family(streams))
  }

  ghost predicate JobFactsHold(w: World, f: Facts, c: Copy) {
    && (f.len.Some? ==> f.len.value == |c.full| || (f.len.value == 0 && c.source !in w.streams))
    && (f.p.Some? ==> c.source in w.progress && Behind(f.p.value, w, c))
    && (f.batch.Some? && f.p.Some? ==> IsBatch(f.batch.value, f.p.value, c))
    && (f.end.Some? && c.source in w.streams ==> f.end.value == |c.base|)
    && (f.complete ==> CopiedCount(w, c) == |c.full|)
  }

  // Waiting at an empty page means the length measured was not zero.
  predicate WaitsShort(pc: Pc) {
    (pc.EmptyMeasure? || pc.EmptyCheckpoint?) ==> pc.len > 0
  }

  ghost predicate Knows(streams: map<Name, seq<Entry>>, w: World, pc: Pc) {
    FactsHold(streams, w, FactsOf(pc)) && WaitsShort(pc)
  }

  ghost predicate Inv(streams: map<Name, seq<Entry>>, s: State) {
    && AllCopied(streams, s.w)
    && (s.done ==> forall n :: n in Family(streams) ==> n !in s.w.streams)
    && forall t: Tid :: Knows(streams, s.w, PcOf(s, t))
  }

  lemma StartHasInv(streams: map<Name, seq<Entry>>)
    ensures Inv(streams, Start(streams))
  {
    forall n | n in Family(streams) ensures Copied(World(streams, map[]), CopyFor(streams, n)) {
      var c := CopyFor(streams, n);
      assert c.base + c.full[..0] == c.base;
    }
  }

  // A change an opener may make to the import `c` it is working on.
  ghost predicate Sound(w: World, change: Change, c: Copy) {
    match change
    case Saved(source, p) => source == c.source && Behind(p, w, c)
    case Appended(target, values) =>
      target == c.target && c.source in w.progress
      && exists p :: IsBatch(values, p, c) && |Contents(w, target)| == p.targetOffset
    case Deleted(source) => source == c.source && CopiedCount(w, c) == |c.full|
    case _ => true
  }

  lemma SoundChangeKeepsItsCopy(w: World, change: Change, c: Copy)
    requires Copied(w, c) && Sound(w, change, c)
    ensures Later(w, Changed(w, change), c)
  {
    match change {
      case Saved(_, p) => SavingKeepsCopy(w, p, c);
      case Appended(_, values) =>
        var p :| IsBatch(values, p, c) && |Contents(w, c.target)| == p.targetOffset;
        AppendKeepsCopy(w, p, values, c);
      case Deleted(_) => DeletionKeepsCopy(w, c);
      case _ => {}
    }
  }

  lemma SoundChangeKeepsOtherCopies(w: World, change: Change, c: Copy, other: Copy)
    requires Copied(w, c) && Copied(w, other) && Sound(w, change, c) && other.source != c.source
    ensures Later(w, Changed(w, change), other)
  {
    TargetsAreApart(c.source, other.source);
    TargetsAreApart(other.source, c.source);
  }

  lemma SoundChangeKeepsCopies(streams: map<Name, seq<Entry>>, w: World, change: Change, source: Name)
    requires AllCopied(streams, w) && source in Family(streams) && Sound(w, change, CopyFor(streams, source))
    ensures AllCopied(streams, Changed(w, change))
    ensures forall n :: n in Family(streams) ==> Later(w, Changed(w, change), CopyFor(streams, n))
  {
    var c := CopyFor(streams, source);
    TargetsAreApart(source, source);
    forall n | n in Family(streams) ensures Later(w, Changed(w, change), CopyFor(streams, n)) {
      if n == source {
        SoundChangeKeepsItsCopy(w, change, c);
      } else {
        SoundChangeKeepsOtherCopies(w, change, c, CopyFor(streams, n));
      }
    }
    forall n | n in Sources(Changed(w, change)) ensures n in Family(streams) {
      assert n in Sources(w);
    }
  }

  lemma LaterKeepsFacts(streams: map<Name, seq<Entry>>, w: World, w': World, f: Facts)
    requires AllCopied(streams, w) && FactsHold(streams, w, f)
    requires forall n :: n in Family(streams) ==> Later(w, w', CopyFor(streams, n))
    ensures FactsHold(streams, w', f)
  {
  }

  // --- one step ---

  predicate SameJob(pc: Pc, next: Pc) {
    FactsOf(next).job == FactsOf(pc).job && FactsOf(next).todo == FactsOf(pc).todo
  }

  // A step on the source of `c`: its change is sound, and the opener goes on with what it
  // must know, or gives up, or is through with a source that is gone.
  ghost predicate JobStep(w: World, pc: Pc, e: Effect, c: Copy)
    requires FactsOf(pc).job.Some?
  {
    && Sound(w, e.change, c) && !e.change.MarkedDone? && WaitsShort(e.pc)
    && (|| e.pc.Down?
        || (e.pc == NextSource(FactsOf(pc).job.value.todo) && c.source !in Changed(w, e.change).streams)
        || (SameJob(pc, e.pc) && JobFactsHold(Changed(w, e.change), FactsOf(e.pc), c)))
  }

  ghost predicate OnJobOf(w: World, pc: Pc, c: Copy) {
    && Copied(w, c) && FactsOf(pc).job.Some? && WaitsShort(pc)
    && FactsOf(pc).job.value.source == c.source && FactsOf(pc).job.value.target == c.target
    && JobFactsHold(w, FactsOf(pc), c)
  }

  lemma MeasuringStep(w: World, pc: Pc, c: Copy)
    requires OnJobOf(w, pc, c) && (pc.MeasureSource? || pc.ReadCheckpoint? || pc.MeasureTarget? || pc.CheckEnd?)
    requires pc.MeasureTarget? ==> MayMeasure(w, c)
    ensures JobStep(w, pc, MeasureEffect(w, pc), c)
  {
  }

  lemma ReadingStep(w: World, pc: Pc, limit: nat, c: Copy)
    requires OnJobOf(w, pc, c) && pc.Loop?
    ensures JobStep(w, pc, LoopEffect(w, pc, limit), c)
  {
    if pc.p.sourceOffset < pc.len {
      ReadPageIsBatch(w, pc.len, pc.p, Min(limit, BATCH), c);
      var page := Window(Contents(w, pc.job.source), pc.p.sourceOffset, Min(limit, BATCH));
      if page == [] {
        EmptyPageStep(w, pc, c);
      } else {
        PageStep(w, pc, page[..Min(|page|, pc.len - pc.p.sourceOffset)], c);
      }
    } else {
      LoopEndStep(w, pc, limit, c);
    }
  }

  lemma LoopEndStep(w: World, pc: Pc, limit: nat, c: Copy)
    requires OnJobOf(w, pc, c) && pc.Loop? && pc.len <= pc.p.sourceOffset
    ensures JobStep(w, pc, LoopEffect(w, pc, limit), c)
  {
  }

  lemma EmptyPageStep(w: World, pc: Pc, c: Copy)
    requires OnJobOf(w, pc, c) && pc.Loop? && pc.p.sourceOffset < pc.len
    ensures JobStep(w, pc, Effect(EmptyMeasure(pc.job, pc.len, pc.p, pc.job.source !in w.streams), Unchanged), c)
  {
  }

  lemma PageStep(w: World, pc: Pc, batch: seq<Entry>, c: Copy)
    requires OnJobOf(w, pc, c) && pc.Loop? && IsBatch(batch, pc.p, c)
    ensures JobStep(w, pc, Effect(Compare(pc.job, pc.len, pc.p, batch), Unchanged), c)
  {
  }

  // What is read of a source is a batch of it.
  lemma ReadPageIsBatch(w: World, len: nat, p: Progress, limit: nat, c: Copy)
    requires Copied(w, c) && Behind(p, w, c) && p.sourceOffset < len
    requires len == |c.full| || (len == 0 && c.source !in w.streams)
    ensures var page := Window(Contents(w, c.source), p.sourceOffset, limit);
      page != [] ==> IsBatch(page[..Min(|page|, len - p.sourceOffset)], p, c)
  {
    var page := Window(Contents(w, c.source), p.sourceOffset, limit);
    if c.source in w.streams {
      StartOfPage(c.full, p.sourceOffset, limit, Min(|page|, len - p.sourceOffset));
    }
  }

  lemma StartOfPage(all: seq<Entry>, from: nat, limit: nat, n: nat)
    requires from < |all| && n <= |Window(all, from, limit)|
    ensures from + n <= |all| && Window(all, from, limit)[..n] == all[from..from + n]
  {
  }

  // Finding the batch in the target: it was copied.
  lemma SeenStep(w: World, pc: Pc, limit: nat, c: Copy)
    requires OnJobOf(w, pc, c) && (pc.Compare? || pc.Recheck?) && BatchSeen(w, pc.p, pc.batch, limit)
    ensures JobStep(w, pc, Effect(Save(pc.job, pc.len, Past(pc.p, pc.batch)), Unchanged), c)
  {
    FoundBatchWasCopied(w, pc.p, pc.batch, c, Min(limit, |pc.batch|));
  }

  lemma UnseenStep(w: World, pc: Pc, c: Copy)
    requires OnJobOf(w, pc, c) && pc.Compare?
    ensures JobStep(w, pc, Effect(CheckEnd(pc.job, pc.len, pc.p, pc.batch), Unchanged), c)
  {
  }

  lemma ComparingStep(w: World, pc: Pc, limit: nat, c: Copy)
    requires OnJobOf(w, pc, c) && (pc.Compare? || pc.Recheck?)
    ensures JobStep(w, pc, CompareEffect(w, pc, limit), c)
  {
    if BatchSeen(w, pc.p, pc.batch, limit) {
      SeenStep(w, pc, limit, c);
    } else if pc.Compare? {
      UnseenStep(w, pc, c);
    }
  }

  lemma AppendingStep(w: World, pc: Pc, choice: Choice, c: Copy)
    requires OnJobOf(w, pc, c) && pc.Append?
    ensures JobStep(w, pc, AppendEffect(w, pc, choice), c)
  {
    if AppendEffect(w, pc, choice).change.Appended? {
      AppendKeepsCopy(w, pc.p, pc.batch, c);
    }
  }

  lemma SavingStep(w: World, pc: Pc, lose: bool, c: Copy)
    requires OnJobOf(w, pc, c) && (pc.SaveFirst? || pc.Save?)
    ensures JobStep(w, pc, SaveEffect(pc, lose), c)
  {
    SavingKeepsCopy(w, SaveEffect(pc, lose).change.p, c);
  }

  lemma EndingStep(w: World, pc: Pc, lose: bool, c: Copy)
    requires OnJobOf(w, pc, c)
    requires pc.EmptyMeasure? || pc.EmptyCheckpoint? || pc.DeleteMeasure? || pc.Delete?
    ensures JobStep(w, pc, EndEffect(w, pc, lose), c)
  {
    if pc.Delete? {
      DeletionKeepsCopy(w, c);
    }
  }

  lemma StepOnJob(w: World, done: bool, pc: Pc, choice: Choice, c: Copy)
    requires OnJobOf(w, pc, c) && ChoiceFits(pc, choice)
    requires pc.MeasureTarget? ==> MayMeasure(w, c)
    ensures JobStep(w, pc, EffectOf(w, done, pc, choice), c)
  {
    if !choice.Stop? {
      match pc {
        case SaveFirst(_, _, _) => SavingStep(w, pc, choice.Lose?, c);
        case Save(_, _, _) => SavingStep(w, pc, choice.Lose?, c);
        case Loop(_, _, _) => ReadingStep(w, pc, Limit(choice), c);
        case Compare(_, _, _, _) => ComparingStep(w, pc, Limit(choice), c);
        case Recheck(_, _, _, _) => ComparingStep(w, pc, Limit(choice), c);
        case Append(_, _, _, _) => AppendingStep(w, pc, choice, c);
        case MeasureSource(_) => MeasuringStep(w, pc, c);
        case ReadCheckpoint(_, _) => MeasuringStep(w, pc, c);
        case MeasureTarget(_, _) => MeasuringStep(w, pc, c);
        case CheckEnd(_, _, _, _) => MeasuringStep(w, pc, c);
        case _ => EndingStep(w, pc, choice.Lose?, c);
      }
    }
  }

  lemma JobIsStillToDo(pc: Pc)
    requires FactsOf(pc).job.Some?
    ensures FactsOf(pc).todo == Some(FactsOf(pc).job.value.todo + {FactsOf(pc).job.value.source})
  {
  }

  lemma FactsOnSameJob(streams: map<Name, seq<Entry>>, w: World, f: Facts, next: Facts)
    requires FactsHold(streams, w, f) && f.job.Some? && next.job == f.job && next.todo == f.todo
    requires JobFactsHold(w, next, CopyFor(streams, f.job.value.source))
    ensures FactsHold(streams, w, next)
  {
  }

  lemma FactsWithoutJob(streams: map<Name, seq<Entry>>, w: World, f: Facts, todo: set<Name>, source: Name)
    requires FactsHold(streams, w, f) && f.todo == Some(todo + {source}) && source !in w.streams
    ensures FactsHold(streams, w, NOTHING.(todo := Some(todo)))
  {
  }

  // After a step on a job, the opener knows what it must.
  lemma JobStepKnows(streams: map<Name, seq<Entry>>, w: World, pc: Pc, e: Effect)
    requires AllCopied(streams, w) && Knows(streams, w, pc) && FactsOf(pc).job.Some?
    requires JobStep(w, pc, e, CopyFor(streams, FactsOf(pc).job.value.source))
    requires forall n :: n in Family(streams) ==> Later(w, Changed(w, e.change), CopyFor(streams, n))
    ensures Knows(streams, Changed(w, e.change), e.pc)
  {
    var w', f := Changed(w, e.change), FactsOf(pc);
    LaterKeepsFacts(streams, w, w', f);
    if !e.pc.Down? {
      if e.pc.NextSource? {
        JobIsStillToDo(pc);
        FactsWithoutJob(streams, w', f, f.job.value.todo, f.job.value.source);
      } else {
        FactsOnSameJob(streams, w', f, FactsOf(e.pc));
      }
    }
  }

  // A step on a job keeps every copy.
  lemma JobStepIsGood(streams: map<Name, seq<Entry>>, w: World, done: bool, pc: Pc, choice: Choice)
    requires AllCopied(streams, w) && Knows(streams, w, pc) && ChoiceFits(pc, choice) && FactsOf(pc).job.Some?
    requires pc.MeasureTarget? ==> MayMeasure(w, CopyFor(streams, pc.job.source))
    ensures GoodStep(streams, w, EffectOf(w, done, pc, choice))
  {
    var source := FactsOf(pc).job.value.source;
    var c, e := CopyFor(streams, source), EffectOf(w, done, pc, choice);
    StepOnJob(w, done, pc, choice, c);
    SoundChangeKeepsCopies(streams, w, e.change, source);
    JobStepKnows(streams, w, pc, e);
  }

  ghost predicate GoodStep(streams: map<Name, seq<Entry>>, w: World, e: Effect) {
    && AllCopied(streams, Changed(w, e.change))
    && (forall n :: n in Family(streams) ==> Later(w, Changed(w, e.change), CopyFor(streams, n)))
    && Knows(streams, Changed(w, e.change), e.pc)
    && (e.change.MarkedDone? ==> forall n :: n in Family(streams) ==> n !in w.streams)
  }

  lemma BeginningIsGood(streams: map<Name, seq<Entry>>, w: World, done: bool, pc: Pc, c: Choice)
    requires AllCopied(streams, w) && Knows(streams, w, pc) && ChoiceFits(pc, c) && FactsOf(pc).job.None?
    ensures GoodStep(streams, w, BeginEffect(w, done, pc, c))
  {
    var e := BeginEffect(w, done, pc, c);
    assert Changed(w, e.change) == w;
    if pc.NextSource? && c.Pick? {
      assert pc.todo - {c.source} + {c.source} == pc.todo;
    }
  }

  lemma StepIsGood(streams: map<Name, seq<Entry>>, w: World, done: bool, pc: Pc, c: Choice)
    requires AllCopied(streams, w) && Knows(streams, w, pc) && ChoiceFits(pc, c)
    requires pc.MeasureTarget? ==> MayMeasure(w, CopyFor(streams, pc.job.source))
    ensures GoodStep(streams, w, EffectOf(w, done, pc, c))
  {
    if FactsOf(pc).job.Some? {
      JobStepIsGood(streams, w, done, pc, c);
    } else {
      BeginningIsGood(streams, w, done, pc, c);
    }
  }

  lemma StepKeepsInv(streams: map<Name, seq<Entry>>, s: State, t: Tid, c: Choice)
    requires Inv(streams, s) && ChoiceFits(PcOf(s, t), c) && Orderly(streams, s, t)
    ensures Inv(streams, Step(s, t, c))
  {
    var s' := Step(s, t, c);
    StepIsGood(streams, s.w, s.done, PcOf(s, t), c);
    forall u: Tid ensures Knows(streams, s'.w, PcOf(s', u)) {
      if u != t {
        LaterKeepsFacts(streams, s.w, s'.w, FactsOf(PcOf(s, u)));
      }
    }
  }

  // --- runs ---

  datatype Move = Move(t: Tid, c: Choice)

  ghost predicate IsRun(s: State, run: seq<Move>)
    decreases |run|
  {
    run == [] || (ChoiceFits(PcOf(s, run[0].t), run[0].c) && IsRun(Step(s, run[0].t, run[0].c), run[1..]))
  }

  ghost predicate IsOrderlyRun(streams: map<Name, seq<Entry>>, s: State, run: seq<Move>)
    decreases |run|
  {
    run == [] ||
    (ChoiceFits(PcOf(s, run[0].t), run[0].c) && Orderly(streams, s, run[0].t)
     && IsOrderlyRun(streams, Step(s, run[0].t, run[0].c), run[1..]))
  }

  ghost function After(s: State, run: seq<Move>): State
    decreases |run|
  {
    if run == [] then s else After(Step(s, run[0].t, run[0].c), run[1..])
  }

  lemma {:induction false} RunKeepsInv(streams: map<Name, seq<Entry>>, s: State, run: seq<Move>)
    requires Inv(streams, s) && IsOrderlyRun(streams, s, run)
    ensures Inv(streams, After(s, run))
    decreases |run|
  {
    if run != [] {
      StepKeepsInv(streams, s, run[0].t, run[0].c);
      RunKeepsInv(streams, Step(s, run[0].t, run[0].c), run[1..]);
    }
  }

  ghost predicate HoldsPrefix(w: World, c: Copy, k: nat) {
    k <= |c.full| && Contents(w, c.target) == c.base + c.full[..k]
  }

  /** However many openers run, fail and crash, and whichever of them saves an older
      checkpoint over a newer one: each source's target holds what it held at the start and
      then a prefix of the source, each entry once and in order; the source is intact, or
      gone with all of it in the target; and once the step is marked done, every source is. */
  lemma NoEntryIsLostOrRepeated(streams: map<Name, seq<Entry>>, run: seq<Move>, source: Name) returns (k: nat)
    requires IsOrderlyRun(streams, Start(streams), run) && source in Family(streams)
    ensures var (s, c) := (After(Start(streams), run), CopyFor(streams, source));
            && HoldsPrefix(s.w, c, k)
            && (if source in s.w.streams then s.w.streams[source] == c.full
                else Contents(s.w, c.target) == c.base + c.full)
            && (s.done ==> source !in s.w.streams)
  {
    StartHasInv(streams);
    RunKeepsInv(streams, Start(streams), run);
    var (s, c) := (After(Start(streams), run), CopyFor(streams, source));
    assert Copied(s.w, c);
    k := CopiedCount(s.w, c);
    assert c.full[..|c.full|] == c.full;
  }
}
