/**
The import itself, one storage call after another. Of every part it is said where the opener of
the transition system gets to meanwhile, whatever the storage does (`run` reads its point before
and after, and cannot tell them apart); and, when every call works, that the outcome is the one
`Import` names.
*/
module AuditRun {
  import opened Prelude
  import opened AuditNames
  import opened AuditImport
  import opened AuditStorage
  import opened AuditDriven
  import opened AuditRerun
  import P = AuditProtocol
  import R = AuditRivals

  method StreamLen(store: Storage, name: Name) returns (r: Result<nat, ErrorKind>)
    modifies store
    ensures store.script == Rest(old(store.script))
    ensures store.View() == Found(old(store.View()), Next(old(store.script)))
    ensures r == match FailureOf(Next(old(store.script)))
                 case Some(kind) => Err(kind)
                 case None => Ok(|Contents(store.View(), name)|)
  {
    r := store.Len(name);
    if r == Err(NotFound) {
      r := Ok(0);
    }
  }

  // How much of a page of `limit` entries a call may answer.
  function PageOf(f: Fault, limit: nat): nat {
    if f.Short? then Min(limit, f.limit) else limit
  }

  method ReadWindow(store: Storage, name: Name, from: nat, limit: nat)
    returns (r: Result<seq<Entry>, ErrorKind>)
    modifies store
    ensures store.script == Rest(old(store.script))
    ensures store.View() == Found(old(store.View()), Next(old(store.script)))
    ensures r == match FailureOf(Next(old(store.script)))
                 case Some(kind) => Err(kind)
                 case None =>
                   if name !in store.streams && store.readReportsMissing then Err(NotFound)
                   else Ok(Window(Contents(store.View(), name), from, PageOf(Next(old(store.script)), limit)))
  {
    r := store.ReadWindow(name, from, limit);
  }

  method ReadProgress(store: Storage, source: Name) returns (r: Result<Option<Progress>, ErrorKind>)
    modifies store
    ensures store.script == Rest(old(store.script))
    ensures store.View() == Found(old(store.View()), Next(old(store.script)))
    ensures r == match FailureOf(Next(old(store.script)))
                 case Some(kind) => Err(kind)
                 case None => Ok(if source in store.progress then Some(store.progress[source]) else None)
  {
    r := store.ReadProgress(source);
  }

  method SaveProgress(store: Storage, source: Name, p: Progress) returns (r: Result<(), ErrorKind>)
    modifies store
    ensures store.script == Rest(old(store.script))
    ensures var f := Next(old(store.script));
            var w := Found(old(store.View()), f);
            && store.View() == (if f.Fails? then w else WithProgress(w, source, p))
            && r == match FailureOf(f) case Some(kind) => Err(kind) case None => Ok(())
  {
    r := store.SaveProgress(source, p);
  }

  // What an undisturbed read of a batch answers: an empty one is final only when the source
  // is empty or gone and its checkpoint says that all of it was copied.
  function BatchRead(w: World, strict: bool, source: Name, offset: nat, sourceLen: nat)
    : Result<Option<seq<Entry>>, ErrorKind>
  {
    var batch := Window(Contents(w, source), offset, BATCH);
    if batch != [] then Ok(Some(batch))
    else if Contents(w, source) == [] && source in w.progress && w.progress[source].sourceOffset >= sourceLen then
      Ok(None)
    else if strict && source !in w.streams then Err(NotFound)
    else Ok(Some([]))
  }

  // Whether the source is empty or gone, and its checkpoint says that all of it was copied.
  method CopiedElsewhere(store: Storage, source: Name, sourceLen: nat, ghost c: Copy,
                         ghost run: Run, ghost job: P.Job, ghost p: Progress, ghost gone: bool)
    returns (r: Result<bool, ErrorKind>)
    requires Follows(run, store.Kind()) && job.source == source
    modifies store
    ensures Copied(old(store.View()), c) && source == c.source ==>
              && Later(old(store.View()), store.View(), c)
              && (r.Ok? && r.value ==> sourceLen <= CopiedCount(store.View(), c))
    ensures old(store.script) == [] ==>
              var w := old(store.View());
              && store.script == [] && store.View() == w
              && r == Ok(Contents(w, source) == [] && source in w.progress
                         && w.progress[source].sourceOffset >= sourceLen)
    ensures run(old(store.View()), Ok(P.EmptyMeasure(job, sourceLen, p, gone)), old(store.script))
            == run(store.View(), match r
                                 case Err(kind) => Err(kind)
                                 case Ok(copied) =>
                                   if copied then Ok(P.DeleteMeasure(job, sourceLen))
                                   else Err(if store.readReportsMissing && gone then NotFound else Conflict),
                   store.script)
  {
    CallKeepsCopy(store.View(), store.script, c);
    EmptySourceIsMeasured(run, store.Kind(), store.View(), job, sourceLen, p, gone, store.script);
    var len := StreamLen(store, source);
    if len.Err? {
      return Err(len.error);
    }
    CallKeepsCopy(store.View(), store.script, c);
    EmptySourceIsChecked(run, store.Kind(), store.View(), job, sourceLen, p, gone, len.value, store.script);
    var saved := ReadProgress(store, source);
    if saved.Err? {
      return Err(saved.error);
    }
    return Ok(len.value == 0 && saved.value.Some? && saved.value.value.sourceOffset >= sourceLen);
  }

  lemma CallKeepsCopy(w: World, script: seq<Fault>, c: Copy)
    ensures Copied(w, c) ==> Later(w, Found(w, Next(script)), c)
  {
    if Copied(w, c) {
      FaultKeepsCopy(w, Next(script), c);
    }
  }

  // Where an opener goes on from what it read of the source.
  function AfterRead(job: P.Job, len: nat, p: Progress, r: Result<Option<seq<Entry>>, ErrorKind>)
    : Result<P.Pc, ErrorKind>
    requires p.sourceOffset < len
  {
    match r
    case Err(kind) => Err(kind)
    case Ok(None) => Ok(P.DeleteMeasure(job, len))
    case Ok(Some(page)) =>
      if page == [] then Err(Conflict) else Ok(P.Compare(job, len, p, page[..Min(|page|, len - p.sourceOffset)]))
  }

  // The answer to a page that is empty, or missing.
  method EmptyBatch(store: Storage, source: Name, sourceLen: nat, read: Result<seq<Entry>, ErrorKind>, ghost c: Copy,
                    ghost run: Run, ghost job: P.Job, ghost p: Progress, ghost gone: bool)
    returns (r: Result<Option<seq<Entry>>, ErrorKind>)
    requires Follows(run, store.Kind()) && job.source == source && p.sourceOffset < sourceLen
    requires read == if store.readReportsMissing && gone then Err(NotFound) else Ok([])
    modifies store
    ensures Copied(old(store.View()), c) && source == c.source ==>
              && Later(old(store.View()), store.View(), c)
              && (r.Ok? && r.value.None? ==> sourceLen <= CopiedCount(store.View(), c))
    ensures r.Ok? && r.value.Some? ==> r.value.value == []
    ensures old(store.script) == [] ==>
              var w := old(store.View());
              && store.script == [] && store.View() == w
              && r == if Contents(w, source) == [] && source in w.progress
                         && w.progress[source].sourceOffset >= sourceLen then Ok(None)
                      else if read.Ok? then Ok(Some([])) else Err(NotFound)
    ensures run(old(store.View()), Ok(P.EmptyMeasure(job, sourceLen, p, gone)), old(store.script))
            == run(store.View(), AfterRead(job, sourceLen, p, r), store.script)
  {
    var copied := CopiedElsewhere(store, source, sourceLen, c, run, job, p, gone);
    if copied.Err? {
      return Err(copied.error);
    }
    if copied.value {
      return Ok(None);
    }
    return if read.Ok? then Ok(Some(read.value)) else Err(read.error);
  }

  // `None`: the source is gone, and its checkpoint says all of it was copied.
  method SourceBatch(store: Storage, source: Name, offset: nat, sourceLen: nat, ghost c: Copy,
                     ghost run: Run, ghost job: P.Job, ghost p: Progress)
    returns (r: Result<Option<seq<Entry>>, ErrorKind>)
    requires Follows(run, store.Kind()) && job.source == source
    requires offset < sourceLen && p.sourceOffset == offset
    modifies store
    ensures Copied(old(store.View()), c) && source == c.source ==>
              && Later(old(store.View()), store.View(), c)
              && (r.Ok? && r.value.None? ==> sourceLen <= CopiedCount(store.View(), c))
              && (r.Ok? && r.value.Some? ==> exists n: nat :: r.value.value == Window(c.full, offset, n))
              && (r.Ok? && r.value.Some? && r.value.value != [] ==> source in store.streams)
    ensures old(store.script) == [] ==>
              store.script == [] && store.View() == old(store.View())
              && r == BatchRead(store.View(), store.readReportsMissing, source, offset, sourceLen)
    ensures run(old(store.View()), Ok(P.Loop(job, sourceLen, p)), old(store.script))
            == run(store.View(), AfterRead(job, sourceLen, p, r), store.script)
  {
    CallKeepsCopy(store.View(), store.script, c);
    PageIsRead(run, store.Kind(), store.View(), job, sourceLen, p, store.script);
    var read := ReadWindow(store, source, offset, BATCH);
    assert Window(c.full, offset, 0) == [];
    if (read.Ok? && read.value == []) || read == Err(NotFound) {
      r := EmptyBatch(store, source, sourceLen, read, c, run, job, p, source !in store.streams);
      return;
    }
    return if read.Ok? then Ok(Some(read.value)) else Err(read.error);
  }

  method DeleteMigratedSource(store: Storage, source: Name, sourceLen: nat, ghost c: Copy,
                              ghost run: Run, ghost job: P.Job)
    returns (r: Result<(), ErrorKind>)
    requires Follows(run, store.Kind()) && job.source == source
    modifies store
    ensures Copied(old(store.View()), c) && source == c.source && CopiedCount(old(store.View()), c) == |c.full| ==>
              && Later(old(store.View()), store.View(), c)
              && (r.Ok? ==> source !in store.streams)
    ensures old(store.script) == [] ==>
              var there := |Contents(old(store.View()), source)|;
              && store.script == []
              && (if there == sourceLen || there == 0 then
                    r == Ok(()) && store.View() == WithoutStream(old(store.View()), source)
                  else r == Err(Conflict) && store.View() == old(store.View()))
    ensures run(old(store.View()), Ok(P.DeleteMeasure(job, sourceLen)), old(store.script))
            == run(store.View(), AfterJob(job, r), store.script)
  {
    CallKeepsCopy(store.View(), store.script, c);
    DeletionIsMeasured(run, store.Kind(), store.View(), job, sourceLen, store.script);
    var current := StreamLen(store, source);
    if current.Err? {
      return Err(current.error);
    }
    if current.value != sourceLen && !(current.value == 0 && sourceLen > 0) {
      return Err(Conflict);
    }
    r := DeleteMeasured(store, source, current.value, sourceLen, c, run, job);
  }

  // The deletion of a source just found to have `now` entries.
  method DeleteMeasured(store: Storage, source: Name, now: nat, ghost sourceLen: nat, ghost c: Copy,
                        ghost run: Run, ghost job: P.Job)
    returns (r: Result<(), ErrorKind>)
    requires Follows(run, store.Kind()) && job.source == source
    modifies store
    ensures Copied(old(store.View()), c) && source == c.source && CopiedCount(old(store.View()), c) == |c.full| ==>
              && Later(old(store.View()), store.View(), c)
              && (r.Ok? ==> source !in store.streams)
    ensures old(store.script) == [] && now == |Contents(old(store.View()), source)| ==>
              r == Ok(()) && store.script == [] && store.View() == WithoutStream(old(store.View()), source)
    ensures run(old(store.View()), Ok(P.Delete(job, sourceLen, now)), old(store.script))
            == run(store.View(), AfterJob(job, r), store.script)
  {
    if Copied(store.View(), c) && source == c.source && CopiedCount(store.View(), c) == |c.full| {
      FaultKeepsCopy(store.View(), Next(store.script), c);
      DeletionKeepsCopy(Found(store.View(), Next(store.script)), c);
    }
    SourceIsDeleted(run, store.Kind(), store.View(), job, sourceLen, now, store.script);
    var deleted := store.DeleteStream(source);
    if deleted.Ok? || (deleted.error == NotFound && now == 0) {
      return Ok(());
    }
    return Err(deleted.error);
  }

  function AfterCopy(job: P.Job, len: nat, r: Result<Progress, ErrorKind>): Result<P.Pc, ErrorKind> {
    if r.Ok? then Ok(P.Loop(job, len, r.value)) else Err(r.error)
  }

  method SaveNext(store: Storage, source: Name, next: Progress, ghost run: Run, ghost job: P.Job, ghost len: nat)
    returns (r: Result<Progress, ErrorKind>)
    requires Follows(run, store.Kind()) && job.source == source
    modifies store
    ensures r.Ok? ==> r.value == next
    ensures old(store.script) == [] ==>
              store.script == [] && r == Ok(next) && store.View() == WithProgress(old(store.View()), source, next)
    ensures run(old(store.View()), Ok(P.Save(job, len, next)), old(store.script))
            == run(store.View(), AfterCopy(job, len, r), store.script)
  {
    NextIsSaved(run, store.Kind(), store.View(), job, len, next, store.script);
    var saved := SaveProgress(store, source, next);
    return if saved.Ok? then Ok(next) else Err(saved.error);
  }

  // Whether the target holds the batch at its place.
  method IsThere(store: Storage, p: Progress, batch: seq<Entry>)
    returns (r: Result<bool, ErrorKind>)
    modifies store
    ensures old(store.script) == [] ==>
              var w := old(store.View());
              && store.script == [] && store.View() == w
              && r == if store.readReportsMissing && p.target !in w.streams then Err(NotFound)
                      else Ok(Window(Contents(w, p.target), p.targetOffset, |batch|) == batch)
    ensures store.script == Rest(old(store.script)) && store.View() == Found(old(store.View()), Next(old(store.script)))
    ensures r == match FailureOf(Next(old(store.script)))
                 case Some(kind) => Err(kind)
                 case None =>
                   match Shown(store.Kind(), store.View(), p, batch, Next(old(store.script)))
                   case None => Err(NotFound)
                   case Some(there) => Ok(there)
  {
    var there := ReadWindow(store, p.target, p.targetOffset, |batch|);
    if there.Err? {
      return Err(there.error);
    }
    return Ok(there.value == batch);
  }

  // The loop's body past reading the batch: compare, or append where the target ends, and
  // save the checkpoint.
  method CopyBatch(store: Storage, source: Name, p: Progress, batch: seq<Entry>, ghost run: Run, ghost job: P.Job,
                   ghost len: nat)
    returns (r: Result<Progress, ErrorKind>)
    requires Follows(run, store.Kind()) && batch != [] && job.source == source && p.sourceOffset + |batch| <= len
    modifies store
    ensures r.Ok? ==> r.value.target == p.target && r.value.sourceOffset == p.sourceOffset + |batch|
    ensures run(old(store.View()), Ok(P.Compare(job, len, p, batch)), old(store.script))
            == run(store.View(), AfterCopy(job, len, r), store.script)
    ensures old(store.script) == [] ==>
              store.script == []
              && (store.View(), r) == CopyOf(old(store.View()), store.readReportsMissing, source, p, batch)
  {
    var count := |batch|;
    var next := Progress(p.target, p.sourceOffset + count, p.targetOffset + count);
    BatchIsLookedFor(run, store.Kind(), store.View(), job, len, p, batch, store.script);
    var copied := IsThere(store, p, batch);
    if copied.Err? {
      return Err(copied.error);
    }
    if copied.value {
      r := SaveNext(store, source, next, run, job, len);
      return;
    }
    r := AppendAtEnd(store, source, p, batch, run, job, len);
  }

  // The target must end where the batch goes.
  method AppendAtEnd(store: Storage, source: Name, p: Progress, batch: seq<Entry>, ghost run: Run, ghost job: P.Job,
                     ghost len: nat)
    returns (r: Result<Progress, ErrorKind>)
    requires Follows(run, store.Kind()) && batch != [] && job.source == source && p.sourceOffset + |batch| <= len
    modifies store
    ensures r.Ok? ==> r.value.target == p.target && r.value.sourceOffset == p.sourceOffset + |batch|
    ensures run(old(store.View()), Ok(P.CheckEnd(job, len, p, batch)), old(store.script))
            == run(store.View(), AfterCopy(job, len, r), store.script)
    ensures old(store.script) == [] ==>
              var next := Progress(p.target, p.sourceOffset + |batch|, p.targetOffset + |batch|);
              var there := Contents(old(store.View()), p.target);
              && store.script == []
              && (if |there| != p.targetOffset then r == Err(Conflict) && store.View() == old(store.View())
                  else r == Ok(next)
                       && store.View()
                          == WithProgress(WithStream(old(store.View()), p.target, there + batch), source, next))
  {
    EndIsChecked(run, store.Kind(), store.View(), job, len, p, batch, store.script);
    var end := StreamLen(store, p.target);
    if end.Err? {
      return Err(end.error);
    }
    if end.value != p.targetOffset {
      return Err(Conflict);
    }
    r := AppendBatch(store, source, p, batch, run, job, len);
  }

  // Appends the batch, or finds that an identical one has just been put there.
  method AppendBatch(store: Storage, source: Name, p: Progress, batch: seq<Entry>, ghost run: Run, ghost job: P.Job,
                     ghost len: nat)
    returns (r: Result<Progress, ErrorKind>)
    requires Follows(run, store.Kind()) && batch != [] && job.source == source && p.sourceOffset + |batch| <= len
    modifies store
    ensures r.Ok? ==> r.value.target == p.target && r.value.sourceOffset == p.sourceOffset + |batch|
    ensures run(old(store.View()), Ok(P.Append(job, len, p, batch)), old(store.script))
            == run(store.View(), AfterCopy(job, len, r), store.script)
    ensures old(store.script) == [] && |Contents(old(store.View()), p.target)| == p.targetOffset ==>
              var next := Progress(p.target, p.sourceOffset + |batch|, p.targetOffset + |batch|);
              && store.script == [] && r == Ok(next)
              && store.View() == WithProgress(WithStream(old(store.View()), p.target,
                                                         Contents(old(store.View()), p.target) + batch),
                                              source, next)
  {
    var count := |batch|;
    BatchIsAppended(run, store.Kind(), store.View(), job, len, p, batch, store.script);
    var first := store.AppendBatchIfOffset(p.target, p.targetOffset, batch);
    if first.Err? && first.error != Conflict {
      return Err(first.error);
    }
    if first.Err? {
      r := AcceptIdentical(store, source, p, batch, run, job, len);
      return;
    }
    var next := Progress(p.target, p.sourceOffset + count, first.value + count);
    r := SaveNext(store, source, next, run, job, len);
  }

  // After a conflict: only the same batch at its place will do.
  method AcceptIdentical(store: Storage, source: Name, p: Progress, batch: seq<Entry>, ghost run: Run,
                         ghost job: P.Job, ghost len: nat)
    returns (r: Result<Progress, ErrorKind>)
    requires Follows(run, store.Kind()) && batch != [] && job.source == source && p.sourceOffset + |batch| <= len
    modifies store
    ensures r.Ok? ==> r.value.target == p.target && r.value.sourceOffset == p.sourceOffset + |batch|
    ensures run(old(store.View()), Ok(P.Recheck(job, len, p, batch)), old(store.script))
            == run(store.View(), AfterCopy(job, len, r), store.script)
  {
    var count := |batch|;
    BatchIsLookedForAgain(run, store.Kind(), store.View(), job, len, p, batch, store.script);
    var raced := IsThere(store, p, batch);
    if raced.Err? {
      return Err(raced.error);
    }
    if !raced.value {
      return Err(Conflict);
    }
    var next := Progress(p.target, p.sourceOffset + count, p.targetOffset + count);
    r := SaveNext(store, source, next, run, job, len);
  }

  function AfterTurn(job: P.Job, len: nat, r: Result<Option<Progress>, ErrorKind>): Result<P.Pc, ErrorKind> {
    match r
    case Err(kind) => Err(kind)
    case Ok(None) => Ok(P.DeleteMeasure(job, len))
    case Ok(Some(p)) => Ok(P.Loop(job, len, p))
  }

  function AfterJob(job: P.Job, r: Result<(), ErrorKind>): Result<P.Pc, ErrorKind> {
    if r.Ok? then Ok(P.NextSource(job.todo)) else Err(r.error)
  }

  // One turn of the loop. `None`: a competing opener has finished and removed the source.
  method CopyNext(store: Storage, source: Name, p: Progress, sourceLen: nat, ghost c: Copy, ghost run: Run,
                  ghost job: P.Job)
    returns (r: Result<Option<Progress>, ErrorKind>)
    requires Follows(run, store.Kind()) && p.sourceOffset < sourceLen && source != p.target && job.source == source
    modifies store
    ensures r.Ok? && r.value.Some? ==>
              r.value.value.target == p.target && p.sourceOffset < r.value.value.sourceOffset
    ensures old(store.script) == [] && sourceLen == |Contents(old(store.View()), source)| ==>
              store.script == [] && PlainTurn(old(store.View()), store.readReportsMissing, source, p, store.View(), r)
    ensures run(old(store.View()), Ok(P.Loop(job, sourceLen, p)), old(store.script))
            == run(store.View(), AfterTurn(job, sourceLen, r), store.script)
  {
    ghost var was := store.View();
    var read := SourceBatch(store, source, p.sourceOffset, sourceLen, c, run, job, p);
    if read.Err? {
      return Err(read.error);
    }
    if read.value.None? {
      return Ok(None);
    }
    var batch := read.value.value[..Min(|read.value.value|, sourceLen - p.sourceOffset)];
    assert old(store.script) == [] && sourceLen == |Contents(was, source)| ==> batch == Batch(p, Contents(was, source));
    if batch == [] {
      return Err(Conflict);
    }
    var copied := CopyBatch(store, source, p, batch, run, job, sourceLen);
    if old(store.script) == [] && sourceLen == |Contents(was, source)| {
      CopyingIsATurn(was, store.readReportsMissing, source, p);
    }
    return if copied.Ok? then Ok(Some(copied.value)) else Err(copied.error);
  }

  // An undisturbed turn leaves the import where `ImportFrom` goes on, or ends it as that does.
  ghost predicate PlainTurn(w: World, strict: bool, source: Name, p: Progress,
                            w': World, r: Result<Option<Progress>, ErrorKind>)
    requires p.sourceOffset <= |Contents(w, source)|
  {
    var all := Contents(w, source);
    if r.Err? then ImportFrom(w, strict, source, p, all) == (w', Err(r.error))
    else
      && r.value.Some? && r.value.value.sourceOffset <= |all| && Contents(w', source) == all
      && ImportFrom(w, strict, source, p, all) == ImportFrom(w', strict, source, r.value.value, all)
  }

  lemma CopyingIsATurn(w: World, strict: bool, source: Name, p: Progress)
    requires p.sourceOffset < |Contents(w, source)| && source != p.target
    ensures var (w', copied) := CopyOf(w, strict, source, p, Batch(p, Contents(w, source)));
            PlainTurn(w, strict, source, p, w', if copied.Ok? then Ok(Some(copied.value)) else Err(copied.error))
  {
  }

  // The loop: batch after batch up to the captured length.
  method CopyRest(store: Storage, source: Name, start: Progress, sourceLen: nat, ghost c: Copy, ghost run: Run,
                  ghost job: P.Job)
    returns (r: Result<Progress, ErrorKind>)
    requires Follows(run, store.Kind()) && source != start.target && job.source == source
    modifies store
    ensures old(store.script) == [] && start.sourceOffset <= sourceLen == |Contents(old(store.View()), source)| ==>
              var all := Contents(old(store.View()), source);
              && store.script == []
              && ImportFrom(old(store.View()), store.readReportsMissing, source, start, all)
                 == (if r.Ok? then (WithoutStream(store.View(), source), Ok(())) else (store.View(), Err(r.error)))
              && (r.Ok? ==> r.value.sourceOffset == sourceLen && Contents(store.View(), source) == all)
    ensures sourceLen < start.sourceOffset
      ==> r == Ok(start) && store.View() == old(store.View()) && store.script == old(store.script)
    ensures r.Ok? ==> r.value.sourceOffset >= sourceLen
    ensures run(old(store.View()), Ok(P.Loop(job, sourceLen, start)), old(store.script))
            == run(store.View(), AfterCopy(job, sourceLen, r), store.script)
  {
    var p := start;
    ghost var was, all := store.View(), Contents(store.View(), source);
    ghost var plain := store.script == [] && start.sourceOffset <= sourceLen == |all|;
    while p.sourceOffset < sourceLen
      invariant p.target == start.target
      invariant run(was, Ok(P.Loop(job, sourceLen, start)), old(store.script))
                == run(store.View(), Ok(P.Loop(job, sourceLen, p)), store.script)
      invariant sourceLen < start.sourceOffset ==>
                  p == start && store.View() == was && store.script == old(store.script)
      invariant plain ==> && store.script == [] && p.sourceOffset <= sourceLen && Contents(store.View(), source) == all
                          && ImportFrom(store.View(), store.readReportsMissing, source, p, all)
                             == ImportFrom(was, store.readReportsMissing, source, start, all)
      decreases sourceLen - p.sourceOffset
    {
      var next := CopyNext(store, source, p, sourceLen, c, run, job);
      if next.Err? {
        return Err(next.error);
      }
      if next.value.None? {
        p := Progress(p.target, sourceLen, p.targetOffset);
        LoopEnds(run, store.Kind(), store.View(), job, sourceLen, p, store.script);
        return Ok(p);
      }
      p := next.value.value;
    }
    return Ok(p);
  }

  // `migrate_audit_source`: resume from the checkpoint, or make one at the target's end;
  // copy the rest; delete the source.
  method ImportSource(store: Storage, source: Name, target: Name, ghost c: Copy) returns (r: Result<(), ErrorKind>)
    requires source != target
    modifies store
    ensures Copied(old(store.View()), c) && c.source == source && c.target == target ==>
              && Later(old(store.View()), store.View(), c)
              && (r.Ok? ==> source !in store.streams && CopiedCount(store.View(), c) == |c.full|)
    ensures old(store.script) == [] ==>
              store.script == []
              && (store.View(), r) == Import(old(store.View()), store.readReportsMissing, source, target)
    ensures Ran(store.Kind(), old(store.View()), P.MeasureSource(P.Job(source, target, {})), old(store.script))
            == (store.View(), AfterJob(P.Job(source, target, {}), r), store.script)
    ensures Copied(old(store.View()), c) && c.source == source && c.target == target && source in old(store.streams)
            && OnBatchBoundary(old(store.View()), c) && TargetReadable(old(store.View()), store.readReportsMissing, c)
            && R.OnlyRivals(old(store.script), source) ==>
              var begin := P.MeasureSource(P.Job(source, target, {}));
              && (r.Ok? <==> R.IsSpared(store.Kind(), old(store.View()), begin, old(store.script)))
              && source !in store.streams && Contents(store.View(), target) == c.base + c.full
  {
    ghost var job := P.Job(source, target, {});
    ghost var (drv, w, script) := (store.Kind(), store.View(), store.script);
    EndFollows(drv);
    r := ImportJob(store, source, target, c, End(drv), job);
    if Copied(w, c) && c.source == source && c.target == target {
      RanKeepsCopy(drv, w, P.MeasureSource(job), script, c);
      if source in w.streams && OnBatchBoundary(w, c) && TargetReadable(w, drv.read, c)
         && R.OnlyRivals(script, source) {
        R.RerunUnderRivals(drv, w, job, script, c);
      }
    }
  }

  method ImportJob(store: Storage, source: Name, target: Name, ghost c: Copy, ghost run: Run, ghost job: P.Job)
    returns (r: Result<(), ErrorKind>)
    requires Follows(run, store.Kind()) && source != target && job.source == source && job.target == target
    modifies store
    ensures old(store.script) == [] ==>
              store.script == []
              && (store.View(), r) == Import(old(store.View()), store.readReportsMissing, source, target)
    ensures run(old(store.View()), Ok(P.MeasureSource(job)), old(store.script))
            == run(store.View(), AfterJob(job, r), store.script)
  {
    SourceIsMeasured(run, store.Kind(), store.View(), job, store.script);
    var len := StreamLen(store, source);
    if len.Err? {
      return Err(len.error);
    }
    r := ImportMeasured(store, source, target, len.value, c, run, job);
  }

  // The import of a source of the length measured.
  method ImportMeasured(store: Storage, source: Name, target: Name, len: nat, ghost c: Copy, ghost run: Run,
                        ghost job: P.Job)
    returns (r: Result<(), ErrorKind>)
    requires Follows(run, store.Kind()) && source != target && job.source == source && job.target == target
    modifies store
    ensures old(store.script) == [] && len == |Contents(old(store.View()), source)| ==>
              store.script == []
              && (store.View(), r) == Import(old(store.View()), store.readReportsMissing, source, target)
    ensures run(old(store.View()), Ok(P.ReadCheckpoint(job, len)), old(store.script))
            == run(store.View(), AfterJob(job, r), store.script)
  {
    var start := Start(store, source, target, run, job, len);
    if start.Err? {
      return Err(start.error);
    }
    if start.value.target != target {
      ghost var p := StartingPoint(old(store.View()), source, target);
      assert old(store.script) == [] ==> WithProgress(old(store.View()), source, p) == old(store.View()) by {
        if source in old(store.progress) {
          assert old(store.progress)[source := p] == old(store.progress);
        }
      }
      return Err(Conflict);
    }
    var p := CopyRest(store, source, start.value, len, c, run, job);
    if p.Err? {
      return Err(p.error);
    }
    LoopEnds(run, store.Kind(), store.View(), job, len, p.value, store.script);
    if p.value.sourceOffset == len {
      r := DeleteMigratedSource(store, source, len, c, run, job);
    } else {
      r := Ok(());
    }
  }

  // The saved checkpoint, or a first one, saved at once.
  method Start(store: Storage, source: Name, target: Name, ghost run: Run, ghost job: P.Job, ghost len: nat)
    returns (r: Result<Progress, ErrorKind>)
    requires Follows(run, store.Kind()) && job.source == source && job.target == target
    modifies store
    ensures old(store.script) == [] ==>
              store.script == [] && r == Ok(StartingPoint(old(store.View()), source, target))
              && store.View() == WithProgress(old(store.View()), source, r.value)
    ensures run(old(store.View()), Ok(P.ReadCheckpoint(job, len)), old(store.script))
            == run(store.View(), if r.Ok? && r.value.target != target then Err(Conflict) else AfterCopy(job, len, r),
                   store.script)
  {
    CheckpointIsRead(run, store.Kind(), store.View(), job, len, store.script);
    var saved := ReadProgress(store, source);
    if saved.Err? {
      return Err(saved.error);
    }
    if saved.value.Some? {
      return Ok(saved.value.value);
    }
    TargetIsMeasured(run, store.Kind(), store.View(), job, len, store.script);
    var end := StreamLen(store, target);
    if end.Err? {
      return Err(end.error);
    }
    var p := Progress(target, 0, end.value);
    FirstIsSaved(run, store.Kind(), store.View(), job, len, end.value, store.script);
    var ok := SaveProgress(store, source, p);
    return if ok.Ok? then Ok(p) else Err(ok.error);
  }
}
