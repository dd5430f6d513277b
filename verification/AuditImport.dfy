/** The names of the legacy audit streams and of the streams they move to. */
module AuditNames {
  import opened Prelude

  const LEGACY := "mcp_audit"
  const CURRENT := "mcp.audit"

  predicate HasPrefix(s: string, prefix: string) {
    prefix <= s
  }

  // Only the exact legacy name and its slash-delimited descendants have a target.
  function TargetOf(source: string): Option<string> {
    if source == LEGACY then Some(CURRENT)
    else if HasPrefix(source, LEGACY + "/") then Some(CURRENT + "/" + source[|LEGACY| + 1..])
    else None
  }

  /** Distinct sources never share a target, and no target is itself a source. */
  lemma TargetsAreApart(a: string, b: string)
    requires TargetOf(a).Some? && TargetOf(b).Some?
    ensures TargetOf(a) == TargetOf(b) ==> a == b
    ensures TargetOf(a).value != b && TargetOf(TargetOf(a).value).None?
  {
    assert |LEGACY| == 9 && |CURRENT| == 9;
    Shape(a);
    Shape(b);
    assert CURRENT[3] == '.' && LEGACY[3] == '_';
    if a != LEGACY && b != LEGACY && TargetOf(a) == TargetOf(b) {
      assert TargetOf(a).value[10..] == a[10..];
      assert TargetOf(b).value[10..] == b[10..];
      assert a == a[..10] + a[10..] && b == b[..10] + b[10..];
    }
  }

  // The first four characters tell a source from a target, and the tenth a family name
  // from a descendant's.
  lemma Shape(a: string)
    requires TargetOf(a).Some?
    ensures |a| >= 9 && a[3] == '_' && |TargetOf(a).value| == |a| && TargetOf(a).value[3] == '.'
    ensures a != LEGACY ==> |a| >= 10 && a[..10] == LEGACY + "/" && TargetOf(a).value[10..] == a[10..]
    ensures TargetOf(TargetOf(a).value).None?
  {
    assert |LEGACY| == 9 && |CURRENT| == 9;
    var t := TargetOf(a).value;
    if a != LEGACY {
      assert a[..10] == LEGACY + "/";
      assert a[3] == (LEGACY + "/")[3];
      assert t[3] == CURRENT[3];
    }
    assert t[3] != LEGACY[3] && t[3] != (LEGACY + "/")[3];
  }
}

/**
The storage the import works on, and what one import of one source comes to when
nothing else happens meanwhile.
*/
module AuditImport {
  import opened Prelude

  // Entries are only ever compared for equality.
  type Entry = string
  type Name = string

  datatype ErrorKind = NotFound | Conflict | Unavailable

  // A source's durable checkpoint.
  datatype Progress = Progress(target: Name, sourceOffset: nat, targetOffset: nat)

  datatype World = World(streams: map<Name, seq<Entry>>, progress: map<Name, Progress>)

  const BATCH: nat := 256

  function Contents(w: World, name: Name): seq<Entry> {
    if name in w.streams then w.streams[name] else []
  }

  function Min(a: nat, b: nat): nat {
    if a < b then a else b
  }

  // Up to `limit` entries from `from` on; none past the end.
  function Window(s: seq<Entry>, from: nat, limit: nat): seq<Entry> {
    s[Min(from, |s|)..Min(from + limit, |s|)]
  }

  function WithProgress(w: World, source: Name, p: Progress): World {
    w.(progress := w.progress[source := p])
  }

  function WithoutStream(w: World, name: Name): World {
    w.(streams := w.streams - {name})
  }

  function WithStream(w: World, name: Name, contents: seq<Entry>): World {
    w.(streams := w.streams[name := contents])
  }

  // The loop of the import, from checkpoint `p` on, over the captured source `all`. A
  // `strict` storage refuses to read a missing stream instead of reading it as empty.
  function ImportFrom(w: World, strict: bool, source: Name, p: Progress, all: seq<Entry>)
    : (World, Result<(), ErrorKind>)
    requires p.sourceOffset <= |all|
    decreases |all| - p.sourceOffset
  {
    if p.sourceOffset == |all| then (WithoutStream(w, source), Ok(()))
    else
      var (w', r) := CopyOf(w, strict, source, p, Batch(p, all));
      if r.Err? then (w', Err(r.error)) else ImportFrom(w', strict, source, PastBatch(p, all), all)
  }

  // One batch: found in the target, or appended where the target ends.
  function CopyOf(w: World, strict: bool, source: Name, p: Progress, batch: seq<Entry>)
    : (World, Result<Progress, ErrorKind>)
  {
    var next := Progress(p.target, p.sourceOffset + |batch|, p.targetOffset + |batch|);
    var there := Contents(w, p.target);
    if strict && p.target !in w.streams then (w, Err(NotFound))
    else if Window(there, p.targetOffset, |batch|) == batch then (WithProgress(w, source, next), Ok(next))
    else if |there| != p.targetOffset then (w, Err(Conflict))
    else (WithProgress(WithStream(w, p.target, there + batch), source, next), Ok(next))
  }

  function Batch(p: Progress, all: seq<Entry>): seq<Entry> {
    Window(all, p.sourceOffset, BATCH)
  }

  function PastBatch(p: Progress, all: seq<Entry>): Progress {
    Progress(p.target, p.sourceOffset + |Batch(p, all)|, p.targetOffset + |Batch(p, all)|)
  }

  // The checkpoint an import starts from: the saved one, or a new one at the target's end.
  function StartingPoint(w: World, source: Name, target: Name): Progress {
    if source in w.progress then w.progress[source] else Progress(target, 0, |Contents(w, target)|)
  }

  function Import(w: World, strict: bool, source: Name, target: Name): (World, Result<(), ErrorKind>) {
    var p := StartingPoint(w, source, target);
    var w' := WithProgress(w, source, p);
    var all := Contents(w, source);
    if p.target != target then (w, Err(Conflict))
    else if p.sourceOffset > |all| then (w', Ok(()))
    else ImportFrom(w', strict, source, p, all)
  }

  // --- what an undisturbed import comes to ---

  // The part of the target past the checkpoint holds all of `rest`, or a whole number
  // of its batches and nothing else.
  ghost predicate Resumable(there: seq<Entry>, at: nat, rest: seq<Entry>) {
    at <= |there|
    && (rest <= there[at..]
        || (|there[at..]| % BATCH == 0 && |there[at..]| <= |rest| && there[at..] == rest[..|there[at..]|]))
  }

  // Resuming one batch further is as possible as resuming here.
  lemma BatchKeepsResumable(there: seq<Entry>, at: nat, rest: seq<Entry>, count: nat)
    requires 0 < count == Min(BATCH, |rest|) && at + count <= |there|
    requires there[at..at + count] == rest[..count]
    ensures Resumable(there, at, rest) <==> Resumable(there, at + count, rest[count..])
  {
    var past, on := there[at..], there[at + count..];
    assert past == there[at..at + count] + on;
    assert past[count..] == on;
    assert rest == rest[..count] + rest[count..];
    if count == |rest| {
      assert rest <= past;
      assert rest[count..] == [];
    } else {
      assert |past| == |on| + BATCH;
      assert rest <= past <==> rest[count..] <= on;
      if |past| <= |rest| {
        assert rest[..|past|] == rest[..count] + rest[count..][..|on|];
        assert past == rest[..|past|] <==> on == rest[count..][..|on|];
      }
    }
  }

  lemma WholeBatchesAreLong(n: nat)
    requires 0 < n && n % BATCH == 0
    ensures BATCH <= n
  {
  }

  // Short of the target's end, resuming needs the next batch to be there.
  lemma ResumingNeedsTheBatch(there: seq<Entry>, at: nat, rest: seq<Entry>, count: nat)
    requires 0 < count == Min(BATCH, |rest|) && Resumable(there, at, rest) && at < |there|
    ensures Window(there, at, count) == rest[..count]
  {
    var past := there[at..];
    if rest <= there[at..] {
      assert past[..|rest|] == rest;
    } else {
      assert there[at..] == rest[..|there[at..]|];
      WholeBatchesAreLong(|past|);
    }
    assert Window(there, at, count) == past[..count];
  }

  // What the target holds in the end.
  function Completed(there: seq<Entry>, at: nat, rest: seq<Entry>): seq<Entry> {
    if at <= |there| && !(rest <= there[at..]) then there[..at] + rest else there
  }

  lemma BatchKeepsCompletion(there: seq<Entry>, at: nat, rest: seq<Entry>, count: nat)
    requires 0 < count <= |rest| && at + count <= |there| && there[at..at + count] == rest[..count]
    ensures Completed(there, at, rest) == Completed(there, at + count, rest[count..])
  {
    assert there[at..] == there[at..at + count] + there[at + count..];
    assert rest == rest[..count] + rest[count..];
    assert rest <= there[at..] <==> rest[count..] <= there[at + count..] by {
      assert there[at..][count..] == there[at + count..];
    }
    assert there[..at] + rest == there[..at + count] + rest[count..];
  }

  // Appending a batch at the end leaves the same to complete.
  lemma AppendKeepsCompletion(there: seq<Entry>, rest: seq<Entry>, count: nat)
    requires 0 < count <= |rest|
    ensures var grown := there + rest[..count];
            && Completed(grown, |grown|, rest[count..]) == Completed(there, |there|, rest) == there + rest
            && Resumable(there, |there|, rest) && Resumable(grown, |grown|, rest[count..])
  {
    var grown := there + rest[..count];
    assert there[|there|..] == [] && grown[|grown|..] == [];
    assert rest[..0] == [] && rest[count..][..0] == [];
    assert there[..|there|] == there && grown[..|grown|] == grown;
    assert grown + rest[count..] == there + rest by { assert rest == rest[..count] + rest[count..]; }
  }

  // The outcome of the loop: it succeeds exactly when it can be resumed (or nothing is
  // left). It then leaves the target with everything up to the checkpoint and the whole
  // rest, unless all of that was there already; the source gone; and the checkpoint at
  // the source's end. Otherwise both streams are as they were.
  ghost predicate Outcome(w: World, strict: bool, source: Name, p: Progress, all: seq<Entry>,
                          w': World, r: Result<(), ErrorKind>)
    requires p.sourceOffset <= |all|
  {
    var (there, rest) := (Contents(w, p.target), all[p.sourceOffset..]);
    && (r.Ok? <==> rest == [] || (Resumable(there, p.targetOffset, rest) && (strict ==> p.target in w.streams)))
    && (r.Ok? ==>
          && Contents(w', p.target) == Completed(there, p.targetOffset, rest)
          && source !in w'.streams
          && SameElsewhere(w, w', source, p.target)
          && source in w'.progress
          && w'.progress[source] == Progress(p.target, |all|, p.targetOffset + |rest|))
    && (r.Err? ==> w'.streams == w.streams
                   && r.error == if strict && p.target !in w.streams then NotFound else Conflict)
  }

  ghost predicate SameElsewhere(w: World, w': World, source: Name, target: Name) {
    forall n :: n != source && n != target ==>
      (n in w'.streams <==> n in w.streams) && Contents(w', n) == Contents(w, n)
  }

  lemma BatchIsNext(p: Progress, all: seq<Entry>)
    requires p.sourceOffset < |all|
    ensures var (rest, count) := (all[p.sourceOffset..], |Batch(p, all)|);
            && 0 < count == Min(BATCH, |rest|) && Batch(p, all) == rest[..count]
            && PastBatch(p, all).sourceOffset <= |all|
            && all[PastBatch(p, all).sourceOffset..] == rest[count..]
  {
  }

  lemma MatchedBatchKeepsOutcome(w: World, strict: bool, source: Name, p: Progress, all: seq<Entry>,
                                 w': World, r: Result<(), ErrorKind>)
    requires p.sourceOffset < |all| && source != p.target && (strict ==> p.target in w.streams)
    requires Window(Contents(w, p.target), p.targetOffset, |Batch(p, all)|) == Batch(p, all)
    requires PastBatch(p, all).sourceOffset <= |all|
    requires Outcome(WithProgress(w, source, PastBatch(p, all)), strict, source, PastBatch(p, all), all, w', r)
    ensures Outcome(w, strict, source, p, all, w', r)
  {
    BatchIsNext(p, all);
    var (there, rest, count) := (Contents(w, p.target), all[p.sourceOffset..], |Batch(p, all)|);
    assert |there| >= p.targetOffset + count && there[p.targetOffset..p.targetOffset + count] == rest[..count];
    BatchKeepsResumable(there, p.targetOffset, rest, count);
    BatchKeepsCompletion(there, p.targetOffset, rest, count);
    assert rest[count..] == [] ==> rest <= there[p.targetOffset..];
  }

  lemma AppendedBatchKeepsOutcome(w: World, strict: bool, source: Name, p: Progress, all: seq<Entry>,
                                  w': World, r: Result<(), ErrorKind>)
    requires p.sourceOffset < |all| && source != p.target && |Contents(w, p.target)| == p.targetOffset
    requires PastBatch(p, all).sourceOffset <= |all| && (strict ==> p.target in w.streams)
    requires var w1 := WithStream(w, p.target, Contents(w, p.target) + Batch(p, all));
             Outcome(WithProgress(w1, source, PastBatch(p, all)), strict, source, PastBatch(p, all), all, w', r)
    ensures Outcome(w, strict, source, p, all, w', r)
  {
    BatchIsNext(p, all);
    AppendKeepsCompletion(Contents(w, p.target), all[p.sourceOffset..], |Batch(p, all)|);
  }

  lemma {:induction false} LoopMeetsItsOutcome(w: World, strict: bool, source: Name, p: Progress, all: seq<Entry>)
    requires p.sourceOffset <= |all| && source != p.target
    requires source in w.progress && w.progress[source] == p
    ensures var (w', r) := ImportFrom(w, strict, source, p, all); Outcome(w, strict, source, p, all, w', r)
    decreases |all| - p.sourceOffset
  {
    if p.sourceOffset < |all| {
      BatchIsNext(p, all);
      var (w', r) := ImportFrom(w, strict, source, p, all);
      var (there, next) := (Contents(w, p.target), PastBatch(p, all));
      if strict && p.target !in w.streams {
      } else if Window(there, p.targetOffset, |Batch(p, all)|) == Batch(p, all) {
        LoopMeetsItsOutcome(WithProgress(w, source, next), strict, source, next, all);
        MatchedBatchKeepsOutcome(w, strict, source, p, all, w', r);
      } else if |there| == p.targetOffset {
        var w1 := WithStream(w, p.target, there + Batch(p, all));
        LoopMeetsItsOutcome(WithProgress(w1, source, next), strict, source, next, all);
        AppendedBatchKeepsOutcome(w, strict, source, p, all, w', r);
      } else if Resumable(there, p.targetOffset, all[p.sourceOffset..]) {
        ResumingNeedsTheBatch(there, p.targetOffset, all[p.sourceOffset..], |Batch(p, all)|);
      }
    }
  }
}
