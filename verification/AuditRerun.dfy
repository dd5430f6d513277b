/** What one undisturbed import comes to, from whatever a crashed one left behind. */
module AuditRerun {
  import opened Prelude
  import opened AuditNames
  import opened AuditImport
  import opened AuditStorage

  // The entries copied past the checkpoint are a whole number of batches, or everything.
  ghost predicate OnBatchBoundary(w: World, c: Copy) {
    CopiedCount(w, c) == |c.full|
    || (CopiedCount(w, c) - StartingPoint(w, c.source, c.target).sourceOffset) % BATCH == 0
  }

  ghost predicate TargetReadable(w: World, strict: bool, c: Copy) {
    strict ==> c.target in w.streams || StartingPoint(w, c.source, c.target).sourceOffset == |c.full|
  }

  lemma BoundaryMeansResumable(w: World, c: Copy)
    requires Copied(w, c) && c.source in w.streams
    ensures var p := StartingPoint(w, c.source, c.target);
            OnBatchBoundary(w, c) <==> Resumable(Contents(w, c.target), p.targetOffset, c.full[p.sourceOffset..])
  {
    var p, k := StartingPoint(w, c.source, c.target), CopiedCount(w, c);
    var there, rest := Contents(w, c.target), c.full[p.sourceOffset..];
    assert there[p.targetOffset..] == c.full[p.sourceOffset..k];
    assert there[p.targetOffset..] == rest[..k - p.sourceOffset];
    if rest <= there[p.targetOffset..] {
      assert |rest| <= k - p.sourceOffset;
    }
    if k == |c.full| {
      assert rest <= there[p.targetOffset..];
    }
  }

  lemma CompletedCopy(w: World, c: Copy)
    requires Copied(w, c) && c.source in w.streams
    ensures var p := StartingPoint(w, c.source, c.target);
            Completed(Contents(w, c.target), p.targetOffset, c.full[p.sourceOffset..]) == c.base + c.full
  {
    var p, k := StartingPoint(w, c.source, c.target), CopiedCount(w, c);
    var there, rest := Contents(w, c.target), c.full[p.sourceOffset..];
    assert there[..p.targetOffset] + rest == c.base + c.full;
    if rest <= there[p.targetOffset..] {
      assert |rest| <= k - p.sourceOffset;
      assert c.full[..|c.full|] == c.full;
    }
  }

  /** With its source still there, a rerun completes the copy exactly when what was copied
      past the checkpoint ends on a batch boundary (and the target can be read); if not, it
      changes neither stream. */
  lemma RerunCompletesOnABatchBoundary(w: World, strict: bool, c: Copy)
    requires Copied(w, c) && c.source in w.streams
    ensures var (w', r) := Import(w, strict, c.source, c.target);
            && (r.Ok? <==> OnBatchBoundary(w, c) && TargetReadable(w, strict, c))
            && (r.Ok? ==> Contents(w', c.target) == c.base + c.full && c.source !in w'.streams
                          && Copied(w', c) && c.source in w'.progress
                          && w'.progress[c.source].sourceOffset == |c.full|
                          && SameElsewhere(w, w', c.source, c.target))
            && (r.Err? ==> w'.streams == w.streams)
  {
    TargetsAreApart(c.source, c.source);
    var p := StartingPoint(w, c.source, c.target);
    LoopMeetsItsOutcome(WithProgress(w, c.source, p), strict, c.source, p, c.full);
    BoundaryMeansResumable(w, c);
    CompletedCopy(w, c);
    assert c.full[..|c.full|] == c.full;
    if p.sourceOffset == |c.full| {
      assert c.full[p.sourceOffset..] == [];
    }
  }

  /** Once the source is gone a run succeeds and changes nothing. */
  lemma RerunWithoutSourceChangesNothing(w: World, strict: bool, c: Copy)
    requires Copied(w, c) && c.source !in w.streams && c.source in w.progress
    ensures Import(w, strict, c.source, c.target) == (w, Ok(()))
  {
    assert w.progress[c.source := w.progress[c.source]] == w.progress;
    assert w.streams - {c.source} == w.streams;
  }

  /** A rerun and one more: the second finds nothing to do. */
  lemma SecondRerunChangesNothing(w: World, strict: bool, c: Copy)
    requires Copied(w, c) && c.source in w.streams
    requires OnBatchBoundary(w, c) && TargetReadable(w, strict, c)
    ensures var w' := Import(w, strict, c.source, c.target).0;
            Import(w', strict, c.source, c.target) == (w', Ok(()))
  {
    RerunCompletesOnABatchBoundary(w, strict, c);
    RerunWithoutSourceChangesNothing(Import(w, strict, c.source, c.target).0, strict, c);
  }

  /** A first checkpoint that measured the target after `k` entries had been copied makes
      the import repeat exactly those: the result is right if and only if there were none. */
  lemma MismeasuredStartRepeats(w: World, strict: bool, c: Copy, k: nat)
    requires TargetOf(c.source) == Some(c.target) && c.source in w.streams && w.streams[c.source] == c.full
    requires k <= |c.full| && 0 < |c.full| && Contents(w, c.target) == c.base + c.full[..k]
    requires strict ==> c.target in w.streams
    requires c.source in w.progress && w.progress[c.source] == Progress(c.target, 0, |c.base| + k)
    ensures var (w', r) := Import(w, strict, c.source, c.target);
            && r.Ok? && Contents(w', c.target) == c.base + c.full[..k] + c.full
            && (Contents(w', c.target) == c.base + c.full <==> k == 0)
  {
    TargetsAreApart(c.source, c.source);
    var p, there := w.progress[c.source], Contents(w, c.target);
    assert w.progress[c.source := p] == w.progress;
    LoopMeetsItsOutcome(w, strict, c.source, p, c.full);
    assert there[|there|..] == [] == c.full[..0] && c.full[0..] == c.full;
    assert there[..|there|] == there;
    assert k == 0 ==> c.full[..k] == [] && c.base + [] == c.base;
  }
}
