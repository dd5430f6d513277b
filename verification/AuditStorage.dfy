/**
The import run against a storage that may fail, answer short, lose an
acknowledgement, or let another opener finish the same import at any call.
*/
module AuditStorage {
  import opened Prelude
  import opened AuditNames
  import opened AuditImport

  // What happens at one storage call. `Loses` does the work and then fails.
  datatype Fault =
    | Works
    | Fails(kind: ErrorKind)
    | Loses(kind: ErrorKind)
    | Short(limit: nat)
    | RivalFinishes(source: Name)

  // Another opener, following the same protocol, copies the rest of `source`, saves the
  // final checkpoint and deletes the source.
  function Rivaled(w: World, source: Name): World {
    if source !in w.progress || source !in w.streams then w
    else
      var p, all := w.progress[source], w.streams[source];
      if TargetOf(source) != Some(p.target) || p.sourceOffset > |all| || p.targetOffset > |Contents(w, p.target)| then w
      else
        var there := Completed(Contents(w, p.target), p.targetOffset, all[p.sourceOffset..]);
        var end := Progress(p.target, |all|, p.targetOffset + |all| - p.sourceOffset);
        WithoutStream(WithProgress(WithStream(w, p.target, there), source, end), source)
  }

  function Next(script: seq<Fault>): Fault {
    if script == [] then Works else script[0]
  }

  function Rest(script: seq<Fault>): seq<Fault> {
    if script == [] then [] else script[1..]
  }

  // The storage as the call finds it.
  function Found(w: World, f: Fault): World {
    if f.RivalFinishes? then Rivaled(w, f.source) else w
  }

  // The error of a call that fails; a failure never claims a stream is missing.
  function FailureOf(f: Fault): Option<ErrorKind> {
    match f
    case Fails(kind) => Some(if kind.NotFound? then Unavailable else kind)
    case Loses(kind) => Some(if kind.NotFound? then Unavailable else kind)
    case _ => None
  }

  // Which calls of a storage report a missing stream as an error.
  datatype Driver = Driver(len: bool, read: bool, delete: bool)

  class Storage {
    var streams: map<Name, seq<Entry>>
    var progress: map<Name, Progress>
    var script: seq<Fault>
    // The calls that report a missing stream as an error; the others see it as empty.
    const lenReportsMissing: bool
    const readReportsMissing: bool
    const deleteReportsMissing: bool

    ghost function View(): World
      reads this
    {
      World(streams, progress)
    }

    function Kind(): Driver {
      Driver(lenReportsMissing, readReportsMissing, deleteReportsMissing)
    }

    constructor (streams: map<Name, seq<Entry>>, script: seq<Fault>, len: bool, read: bool, delete: bool)
      ensures View() == World(streams, map[]) && this.script == script
      ensures lenReportsMissing == len && readReportsMissing == read && deleteReportsMissing == delete
    {
      this.streams, this.progress, this.script := streams, map[], script;
      lenReportsMissing, readReportsMissing, deleteReportsMissing := len, read, delete;
    }

    method Meet() returns (f: Fault)
      modifies this
      ensures f == Next(old(script)) && script == Rest(old(script))
      ensures View() == Found(old(View()), f)
    {
      f := Next(script);
      script := Rest(script);
      if f.RivalFinishes? {
        var w := Rivaled(World(streams, progress), f.source);
        streams, progress := w.streams, w.progress;
      }
    }

    method Len(name: Name) returns (r: Result<nat, ErrorKind>)
      modifies this
      ensures script == Rest(old(script))
      ensures View() == Found(old(View()), Next(old(script)))
      ensures r == match FailureOf(Next(old(script)))
                   case Some(kind) => Err(kind)
                   case None => if name in streams then Ok(|streams[name]|)
                                else if lenReportsMissing then Err(NotFound) else Ok(0)
    {
      var f := Meet();
      var failure := FailureOf(f);
      if failure.Some? {
        return Err(failure.value);
      }
      if name !in streams {
        return if lenReportsMissing then Err(NotFound) else Ok(0);
      }
      return Ok(|streams[name]|);
    }

    method ReadWindow(name: Name, from: nat, limit: nat) returns (r: Result<seq<Entry>, ErrorKind>)
      modifies this
      ensures script == Rest(old(script))
      ensures View() == Found(old(View()), Next(old(script)))
      ensures r == match FailureOf(Next(old(script)))
                   case Some(kind) => Err(kind)
                   case None =>
                     if name !in streams then (if readReportsMissing then Err(NotFound) else Ok([]))
                     else Ok(Window(streams[name], from,
                                    if Next(old(script)).Short? then Min(limit, Next(old(script)).limit) else limit))
    {
      var f := Meet();
      var failure := FailureOf(f);
      if failure.Some? {
        return Err(failure.value);
      }
      if name !in streams {
        return if readReportsMissing then Err(NotFound) else Ok([]);
      }
      return Ok(Window(streams[name], from, if f.Short? then Min(limit, f.limit) else limit));
    }

    method AppendBatchIfOffset(name: Name, expected: nat, values: seq<Entry>) returns (r: Result<nat, ErrorKind>)
      modifies this
      ensures script == Rest(old(script))
      ensures var f := Next(old(script));
              var w := Found(old(View()), f);
              var room := |Contents(w, name)| == expected;
              && View() == (if room && !f.Fails? then WithStream(w, name, Contents(w, name) + values) else w)
              && r == match FailureOf(f)
                      case Some(kind) => Err(kind)
                      case None => if room then Ok(expected) else Err(Conflict)
    {
      var f := Meet();
      var failure := FailureOf(f);
      var there := Contents(World(streams, progress), name);
      var room := |there| == expected;
      if room && !f.Fails? {
        streams := streams[name := there + values];
      }
      if failure.Some? {
        return Err(failure.value);
      }
      return if room then Ok(expected) else Err(Conflict);
    }

    method DeleteStream(name: Name) returns (r: Result<bool, ErrorKind>)
      modifies this
      ensures script == Rest(old(script))
      ensures var f := Next(old(script));
              var w := Found(old(View()), f);
              && View() == (if f.Fails? then w else WithoutStream(w, name))
              && r == match FailureOf(f)
                      case Some(kind) => Err(kind)
                      case None => if name in w.streams then Ok(true)
                                   else if deleteReportsMissing then Err(NotFound) else Ok(false)
    {
      var f := Meet();
      var failure := FailureOf(f);
      var existed := name in streams;
      if !f.Fails? {
        streams := streams - {name};
      }
      if failure.Some? {
        return Err(failure.value);
      }
      return if existed then Ok(true) else if deleteReportsMissing then Err(NotFound) else Ok(false);
    }

    method ReadProgress(source: Name) returns (r: Result<Option<Progress>, ErrorKind>)
      modifies this
      ensures script == Rest(old(script))
      ensures View() == Found(old(View()), Next(old(script)))
      ensures r == match FailureOf(Next(old(script)))
                   case Some(kind) => Err(kind)
                   case None => Ok(if source in progress then Some(progress[source]) else None)
    {
      var f := Meet();
      var failure := FailureOf(f);
      if failure.Some? {
        return Err(failure.value);
      }
      return Ok(if source in progress then Some(progress[source]) else None);
    }

    method SaveProgress(source: Name, p: Progress) returns (r: Result<(), ErrorKind>)
      modifies this
      ensures script == Rest(old(script))
      ensures var f := Next(old(script));
              var w := Found(old(View()), f);
              && View() == (if f.Fails? then w else WithProgress(w, source, p))
              && r == match FailureOf(f) case Some(kind) => Err(kind) case None => Ok(())
    {
      var f := Meet();
      var failure := FailureOf(f);
      if !f.Fails? {
        progress := progress[source := p];
      }
      if failure.Some? {
        return Err(failure.value);
      }
      return Ok(());
    }
  }

  // --- what survives every fault ---

  // One import: the target's contents before it, and the source's whole contents.
  datatype Copy = Copy(source: Name, target: Name, base: seq<Entry>, full: seq<Entry>)

  function CopiedCount(w: World, c: Copy): int {
    |Contents(w, c.target)| - |c.base|
  }

  // The target is the old contents followed by a prefix of the source's entries; the
  // source is intact, or gone with all of it copied; the checkpoint, if there is one, is
  // not ahead of the copy, and before there is one nothing has been copied.
  ghost predicate Copied(w: World, c: Copy) {
    var k := CopiedCount(w, c);
    && TargetOf(c.source) == Some(c.target)
    && 0 <= k <= |c.full| && Contents(w, c.target) == c.base + c.full[..k]
    && (c.source in w.streams ==> w.streams[c.source] == c.full)
    && (c.source !in w.streams ==> k == |c.full|)
    && (c.source in w.progress ==> Behind(w.progress[c.source], w, c))
    && (c.source !in w.progress ==> k == 0)
  }

  // Not ahead of the copy; and, while the source is there, where its entries begin.
  ghost predicate Behind(p: Progress, w: World, c: Copy) {
    && p.target == c.target && p.sourceOffset <= CopiedCount(w, c)
    && (c.source in w.streams ==> p.targetOffset == |c.base| + p.sourceOffset)
  }

  // The copy is as far or further, and a source once gone stays gone.
  ghost predicate Later(w: World, w': World, c: Copy) {
    && Copied(w', c)
    && CopiedCount(w, c) <= CopiedCount(w', c)
    && (c.source !in w.streams ==> c.source !in w'.streams)
    && (c.source in w.progress ==> c.source in w'.progress)
  }

  // Whatever is copied past its checkpoint, completing the copy gives all of it.
  lemma RestCompletes(w: World, c: Copy)
    requires Copied(w, c) && c.source in w.streams && c.source in w.progress
    ensures var p := w.progress[c.source];
            Completed(Contents(w, c.target), p.targetOffset, c.full[p.sourceOffset..]) == c.base + c.full
  {
    var p, there := w.progress[c.source], Contents(w, c.target);
    var rest := c.full[p.sourceOffset..];
    assert there[p.targetOffset..] == c.full[p.sourceOffset..|there| - |c.base|];
    assert there[..p.targetOffset] + rest == c.base + c.full;
    if rest <= there[p.targetOffset..] {
      assert |there| == |c.base| + |c.full|;
    }
    assert c.full[..|c.full|] == c.full;
  }

  lemma OwnRivalKeepsCopy(w: World, c: Copy)
    requires Copied(w, c)
    ensures Later(w, Rivaled(w, c.source), c)
  {
    if Rivaled(w, c.source) != w {
      TargetsAreApart(c.source, c.source);
      RestCompletes(w, c);
      assert c.full[..|c.full|] == c.full;
    }
  }

  lemma RivalKeepsCopy(w: World, c: Copy, rival: Name)
    requires Copied(w, c)
    ensures Later(w, Rivaled(w, rival), c)
  {
    if rival == c.source {
      OwnRivalKeepsCopy(w, c);
    } else if Rivaled(w, rival) != w {
      TargetsAreApart(c.source, rival);
      TargetsAreApart(rival, c.source);
    }
  }

  lemma FaultKeepsCopy(w: World, f: Fault, c: Copy)
    requires Copied(w, c)
    ensures Later(w, Found(w, f), c)
  {
    if f.RivalFinishes? {
      RivalKeepsCopy(w, c, f.source);
    }
  }

  // Saving a checkpoint that is not ahead of the copy keeps the copy, even when it moves
  // the saved one back.
  lemma SavingKeepsCopy(w: World, p: Progress, c: Copy)
    requires Copied(w, c) && Behind(p, w, c)
    ensures Later(w, WithProgress(w, c.source, p), c)
  {
    TargetsAreApart(c.source, c.source);
  }

  // The source's batch at `p`.
  ghost predicate IsBatch(batch: seq<Entry>, p: Progress, c: Copy) {
    && p.target == c.target && p.targetOffset == |c.base| + p.sourceOffset
    && 0 < |batch| && p.sourceOffset + |batch| <= |c.full|
    && batch == c.full[p.sourceOffset..p.sourceOffset + |batch|]
  }

  // A batch found at its place in the target was copied there.
  lemma FoundBatchWasCopied(w: World, p: Progress, batch: seq<Entry>, c: Copy, limit: nat)
    requires Copied(w, c) && IsBatch(batch, p, c)
    requires Window(Contents(w, c.target), p.targetOffset, limit) == batch
    ensures p.sourceOffset + |batch| <= CopiedCount(w, c)
  {
  }

  lemma AppendKeepsCopy(w: World, p: Progress, batch: seq<Entry>, c: Copy)
    requires Copied(w, c) && IsBatch(batch, p, c) && c.source in w.progress
    requires |Contents(w, c.target)| == p.targetOffset
    ensures var w' := WithStream(w, c.target, Contents(w, c.target) + batch);
            Later(w, w', c) && CopiedCount(w', c) == p.sourceOffset + |batch|
  {
    TargetsAreApart(c.source, c.source);
    var k := p.sourceOffset;
    assert c.base + c.full[..k] + batch == c.base + c.full[..k + |batch|];
  }

  lemma DeletionKeepsCopy(w: World, c: Copy)
    requires Copied(w, c) && CopiedCount(w, c) == |c.full|
    ensures Later(w, WithoutStream(w, c.source), c)
  {
    TargetsAreApart(c.source, c.source);
  }
}
