/**
The whole migration: every stream of the old family is imported, one after another, and the
step is then marked done, so that it is never tried again.
*/
module AuditFamily {
  import opened Prelude
  import opened AuditNames
  import opened AuditImport
  import opened AuditStorage
  import opened AuditRerun
  import opened AuditProtocol
  import opened AuditDriven
  import C = AuditRecovery
  import L = AuditLone
  import R = AuditRun

  // Whether the step is done for good.
  class Migrations {
    var done: bool

    constructor ()
      ensures !done
    {
      done := false;
    }
  }

  method IsDone(store: Storage, migrations: Migrations) returns (r: Result<bool, ErrorKind>)
    modifies store
    ensures store.script == Rest(old(store.script))
    ensures store.View() == Found(old(store.View()), Next(old(store.script)))
    ensures r == match FailureOf(Next(old(store.script)))
                 case Some(kind) => Err(kind)
                 case None => Ok(migrations.done)
  {
    var f := store.Meet();
    var failure := FailureOf(f);
    return if failure.Some? then Err(failure.value) else Ok(migrations.done);
  }

  method MarkDone(store: Storage, migrations: Migrations) returns (r: Result<(), ErrorKind>)
    modifies store, migrations
    ensures store.script == Rest(old(store.script))
    ensures store.View() == Found(old(store.View()), Next(old(store.script)))
    ensures migrations.done == (old(migrations.done) || !Next(old(store.script)).Fails?)
    ensures r == match FailureOf(Next(old(store.script))) case Some(kind) => Err(kind) case None => Ok(())
  {
    var f := store.Meet();
    var failure := FailureOf(f);
    if !f.Fails? {
      migrations.done := true;
    }
    return if failure.Some? then Err(failure.value) else Ok(());
  }

  // The streams whose names begin with `prefix`, each once, in any order.
  ghost predicate Lists(list: seq<Name>, w: World, prefix: string) {
    && (forall n :: n in list <==> n in w.streams && HasPrefix(n, prefix))
    && (forall i, j :: 0 <= i < j < |list| ==> list[i] != list[j])
  }

  method ListStreams(store: Storage, prefix: string) returns (r: Result<seq<Name>, ErrorKind>)
    modifies store
    ensures store.script == Rest(old(store.script))
    ensures store.View() == Found(old(store.View()), Next(old(store.script)))
    ensures r.Err? <==> FailureOf(Next(old(store.script))).Some?
    ensures r.Ok? ==> Lists(r.value, store.View(), prefix)
  {
    var f := store.Meet();
    var failure := FailureOf(f);
    if failure.Some? {
      return Err(failure.value);
    }
    var list: seq<Name>, todo := [], store.streams.Keys;
    while todo != {}
      invariant todo <= store.streams.Keys
      invariant forall n :: n in list <==> n in store.streams && n !in todo && HasPrefix(n, prefix)
      invariant forall i, j :: 0 <= i < j < |list| ==> list[i] != list[j]
      decreases |todo|
    {
      var name :| name in todo;
      todo := todo - {name};
      if HasPrefix(name, prefix) {
        list := list + [name];
      }
    }
    return Ok(list);
  }

  // ----- whatever the storage does -----

  // Every copy of the family is as far or further.
  ghost predicate AllLater(streams: map<Name, seq<Entry>>, w: World, w': World) {
    AllCopied(streams, w') && forall n :: n in Family(streams) ==> Later(w, w', CopyFor(streams, n))
  }

  lemma FaultKeepsAll(streams: map<Name, seq<Entry>>, w: World, f: Fault)
    requires AllCopied(streams, w)
    ensures AllLater(streams, w, Found(w, f))
  {
    forall n | n in Family(streams) ensures Later(w, Found(w, f), CopyFor(streams, n)) {
      FaultKeepsCopy(w, f, CopyFor(streams, n));
    }
    forall n | n in Sources(Found(w, f)) ensures n in Family(streams) {
      if f.RivalFinishes? && Found(w, f) != w {
        TargetsAreApart(f.source, f.source);
      }
      assert n in Sources(w);
    }
  }

  lemma StepKeepsAll(streams: map<Name, seq<Entry>>, w: World, pc: Pc, choice: Choice, source: Name)
    requires AllCopied(streams, w) && source in Family(streams) && ChoiceFits(pc, choice) && NoneYet(w, pc)
    requires OnJobOf(w, pc, CopyFor(streams, source))
    ensures AllLater(streams, w, Changed(w, EffectOf(w, false, pc, choice).change))
  {
    StepOnJob(w, false, pc, choice, CopyFor(streams, source));
    SoundChangeKeepsCopies(streams, w, EffectOf(w, false, pc, choice).change, source);
  }

  lemma LaterAndLater(streams: map<Name, seq<Entry>>, w: World, w': World, w'': World)
    requires AllLater(streams, w, w') && AllLater(streams, w', w'')
    ensures AllLater(streams, w, w'')
  {
    forall n | n in Family(streams) ensures Later(w, w'', CopyFor(streams, n)) {
      assert Later(w, w', CopyFor(streams, n)) && Later(w', w'', CopyFor(streams, n));
    }
  }

  lemma {:induction false} RanKeepsAll(streams: map<Name, seq<Entry>>, drv: Driver, w: World, pc: Pc,
                                       script: seq<Fault>, source: Name)
    requires AllCopied(streams, w) && source in Family(streams)
    requires Proper(pc) && NoneYet(w, pc) && OnJobOf(w, pc, CopyFor(streams, source))
    ensures AllLater(streams, w, Ran(drv, w, pc, script).0)
    decreases Part(pc), Remains(pc), StepsTo(pc)
  {
    var c := CopyFor(streams, source);
    if LoopIsOver(pc) {
      StepKeepsJob(w, pc, Go, c);
      if AtWork(AfterLoop(pc)) {
        RanKeepsAll(streams, drv, w, AfterLoop(pc), script, source);
      }
    } else {
      var w', pc' := CallKeepsAll(streams, drv, w, pc, script, source);
      if AtWork(pc') {
        RanKeepsAll(streams, drv, w', pc', Rest(script), source);
        LaterAndLater(streams, w, w', Ran(drv, w, pc, script).0);
      }
    }
  }

  lemma CallKeepsAll(streams: map<Name, seq<Entry>>, drv: Driver, w: World, pc: Pc, script: seq<Fault>, source: Name)
    returns (w': World, pc': Pc)
    requires AllCopied(streams, w) && source in Family(streams) && AtWork(pc) && !LoopIsOver(pc)
    requires Proper(pc) && NoneYet(w, pc) && OnJobOf(w, pc, CopyFor(streams, source))
    ensures AllLater(streams, w, w') && Proper(pc') && Closer(pc, pc')
    ensures AtWork(pc') ==> OnJobOf(w', pc', CopyFor(streams, source)) && NoneYet(w', pc')
    ensures if AtWork(pc') then Ran(drv, w, pc, script) == Ran(drv, w', pc', Rest(script))
            else Ran(drv, w, pc, script).0 == w'
  {
    var (c, f) := (CopyFor(streams, source), Next(script));
    var (found, e) := (Found(w, f), Met(drv, w, pc, f));
    w', pc' := Changed(found, e.change), e.pc;
    FaultKeepsAll(streams, w, f);
    FaultKeepsJob(w, pc, f, c);
    ChosenFits(drv, found, pc, f);
    StepKeepsAll(streams, found, pc, Chosen(drv, found, pc, f), source);
    StepKeepsJob(found, pc, Chosen(drv, found, pc, f), c);
    LaterAndLater(streams, w, found, w');
    StepComesCloser(drv, w, pc, f);
    RanOn(drv, w, pc, script);
  }

  // ----- when every call works -----

  // The source can be imported in one go.
  ghost predicate CanComplete(w: World, strict: bool, c: Copy) {
    OnBatchBoundary(w, c) && TargetReadable(w, strict, c)
  }

  ghost predicate SameStream(w: World, w': World, name: Name) {
    (name in w'.streams <==> name in w.streams) && Contents(w', name) == Contents(w, name)
  }

  // Neither the source, nor its target, nor its checkpoint has changed.
  ghost predicate Untouched(w: World, w': World, c: Copy) {
    && SameStream(w, w', c.source) && SameStream(w, w', c.target)
    && (c.source in w'.progress <==> c.source in w.progress)
    && (c.source in w.progress ==> w'.progress[c.source] == w.progress[c.source])
  }

  lemma {:induction false} LoopSavesItsOwn(w: World, strict: bool, source: Name, p: Progress, all: seq<Entry>)
    requires p.sourceOffset <= |all|
    ensures var w' := ImportFrom(w, strict, source, p, all).0;
      forall n :: n != source ==> (n in w'.progress <==> n in w.progress)
                                  && (n in w.progress ==> w'.progress[n] == w.progress[n])
    decreases |all| - p.sourceOffset
  {
    if p.sourceOffset < |all| {
      BatchIsNext(p, all);
      var (w', r) := CopyOf(w, strict, source, p, Batch(p, all));
      if r.Ok? {
        LoopSavesItsOwn(w', strict, source, PastBatch(p, all), all);
      }
    }
  }

  // An import touches no other copy.
  lemma ImportLeavesOthers(w: World, strict: bool, c: Copy, other: Copy)
    requires Copied(w, c) && Copied(w, other) && c.source in w.streams && c.source != other.source
    ensures Untouched(w, Import(w, strict, c.source, c.target).0, other)
  {
    TargetsAreApart(c.source, other.source);
    TargetsAreApart(other.source, c.source);
    RerunCompletesOnABatchBoundary(w, strict, c);
    var p := StartingPoint(w, c.source, c.target);
    LoopSavesItsOwn(WithProgress(w, c.source, p), strict, c.source, p, c.full);
  }

  // The first `count` sources of the list are imported; the others are as they were.
  ghost predicate Stands(streams: map<Name, seq<Entry>>, strict: bool, w0: World, w: World, list: seq<Name>,
                         count: nat)
  {
    forall j {:trigger list[j]} :: 0 <= j < |list| && TargetOf(list[j]).Some? ==>
      && list[j] in Family(streams)
      && (if j < count then list[j] !in w.streams && CanComplete(w0, strict, CopyFor(streams, list[j]))
          else list[j] in w.streams && Untouched(w0, w, CopyFor(streams, list[j])))
  }

  lemma UntouchedStays(w0: World, w: World, w': World, c: Copy, strict: bool)
    requires Untouched(w0, w, c) && Untouched(w, w', c)
    ensures Untouched(w0, w', c)
    ensures CanComplete(w0, strict, c) <==> CanComplete(w, strict, c)
    ensures CanComplete(w', strict, c) <==> CanComplete(w, strict, c)
  {
  }

  // The next source of the list is imported, or stands in the way.
  lemma FamilyGoesOn(streams: map<Name, seq<Entry>>, strict: bool, w0: World, w: World, list: seq<Name>, i: nat)
    requires AllCopied(streams, w) && Stands(streams, strict, w0, w, list, i)
    requires i < |list| && TargetOf(list[i]).Some? && forall k, j :: 0 <= k < j < |list| ==> list[k] != list[j]
    ensures var c := CopyFor(streams, list[i]);
      var (w', r) := Import(w, strict, list[i], c.target);
      && (r.Ok? <==> CanComplete(w0, strict, c))
      && (r.Ok? ==> Stands(streams, strict, w0, w', list, i + 1))
      && (r.Err? ==> w'.streams == w.streams)
  {
    var c := CopyFor(streams, list[i]);
    var (w', r) := Import(w, strict, list[i], c.target);
    assert Copied(w, c);
    RerunCompletesOnABatchBoundary(w, strict, c);
    assert Untouched(w0, w, c);
    UntouchedStays(w0, w, w, c, strict);
    if r.Ok? {
      forall j | 0 <= j < |list| && TargetOf(list[j]).Some? && j != i
        ensures j < i ==> list[j] !in w'.streams
        ensures i < j ==> list[j] in w'.streams && Untouched(w0, w', CopyFor(streams, list[j]))
      {
        var other := CopyFor(streams, list[j]);
        assert list[j] != list[i] && list[j] in Family(streams) && Copied(w, other);
        ImportLeavesOthers(w, strict, c, other);
        if i < j {
          UntouchedStays(w0, w, w', other, strict);
        }
      }
    }
  }

  // Each source is imported, or its target is as it was.
  ghost predicate WholeOrNotAtAll(streams: map<Name, seq<Entry>>, w0: World, w: World, list: seq<Name>) {
    forall n :: n in list && n in w.streams && TargetOf(n).Some? ==> SameStream(w0, w, TargetOf(n).value)
  }

  lemma StandingIsWhole(streams: map<Name, seq<Entry>>, strict: bool, w0: World, w: World, list: seq<Name>, i: nat)
    requires Stands(streams, strict, w0, w, list, i)
    ensures WholeOrNotAtAll(streams, w0, w, list)
  {
    forall n | n in list && n in w.streams && TargetOf(n).Some? ensures SameStream(w0, w, TargetOf(n).value) {
      var j :| 0 <= j < |list| && list[j] == n;
      assert Untouched(w0, w, CopyFor(streams, list[j]));
    }
  }

  // The listed sources are of the family.
  ghost predicate IsKnown(streams: map<Name, seq<Entry>>, w: World, list: seq<Name>) {
    AllCopied(streams, w) && forall n :: n in list && TargetOf(n).Some? ==> n in Family(streams)
  }

  predicate AllGone(w: World, list: seq<Name>) {
    forall n :: n in list && TargetOf(n).Some? ==> n !in w.streams
  }

  ghost predicate AllCanComplete(streams: map<Name, seq<Entry>>, strict: bool, w: World, list: seq<Name>) {
    forall n :: n in list && TargetOf(n).Some? ==> CanComplete(w, strict, CopyFor(streams, n))
  }

  lemma AllLaterAtFirst(streams: map<Name, seq<Entry>>, w: World)
    requires AllCopied(streams, w)
    ensures AllLater(streams, w, w)
  {
  }

  lemma GoneStaysGone(streams: map<Name, seq<Entry>>, w0: World, w: World, w': World, list: seq<Name>, i: nat)
    requires i < |list| && IsKnown(streams, w0, list)
    requires AllLater(streams, w0, w) && AllLater(streams, w, w') && AllGone(w, list[..i])
    ensures AllLater(streams, w0, w') && AllGone(w', list[..i])
    ensures list[i] !in w'.streams || TargetOf(list[i]).None? ==> AllGone(w', list[..i + 1])
  {
    LaterAndLater(streams, w0, w, w');
    forall n | n in list[..i] && TargetOf(n).Some? ensures n !in w'.streams {
      assert n in list && Later(w, w', CopyFor(streams, n));
    }
  }

  // The import of the next source of the list.
  method ImportNext(store: Storage, list: seq<Name>, i: nat, target: Name, ghost streams: map<Name, seq<Entry>>,
                    ghost w0: World)
    returns (r: Result<(), ErrorKind>)
    requires forall k, j :: 0 <= k < j < |list| ==> list[k] != list[j]
    requires i < |list| && TargetOf(list[i]) == Some(target)
    modifies store
    ensures AllCopied(streams, old(store.View())) && list[i] in Family(streams) ==>
              && AllLater(streams, old(store.View()), store.View())
              && (r.Ok? ==> list[i] !in store.streams)
    ensures AllCopied(streams, old(store.View())) && old(store.script) == []
            && Stands(streams, store.readReportsMissing, w0, old(store.View()), list, i) ==>
              && store.script == []
              && (r.Ok? <==> CanComplete(w0, store.readReportsMissing, CopyFor(streams, list[i])))
              && (if r.Ok? then Stands(streams, store.readReportsMissing, w0, store.View(), list, i + 1)
                  else store.streams == old(store.streams))
  {
    TargetsAreApart(list[i], list[i]);
    ghost var (w, script, strict) := (store.View(), store.script, store.readReportsMissing);
    r := R.ImportSource(store, list[i], target, CopyFor(streams, list[i]));
    if AllCopied(streams, w) && list[i] in Family(streams) {
      RanKeepsAll(streams, store.Kind(), w, MeasureSource(Job(list[i], target, {})), script, list[i]);
    }
    if AllCopied(streams, w) && script == [] && Stands(streams, strict, w0, w, list, i) {
      FamilyGoesOn(streams, strict, w0, w, list, i);
    }
  }

  // The loop over the listed streams; a name that is not of the family is passed over.
  method ImportListed(store: Storage, list: seq<Name>, ghost streams: map<Name, seq<Entry>>)
    returns (r: Result<(), ErrorKind>)
    requires forall k, j :: 0 <= k < j < |list| ==> list[k] != list[j]
    modifies store
    ensures IsKnown(streams, old(store.View()), list) ==>
              && AllLater(streams, old(store.View()), store.View())
              && (r.Ok? ==> AllGone(store.View(), list))
    ensures AllCopied(streams, old(store.View())) && old(store.script) == []
            && Stands(streams, store.readReportsMissing, old(store.View()), old(store.View()), list, 0) ==>
              && store.script == []
              && (r.Ok? <==> AllCanComplete(streams, store.readReportsMissing, old(store.View()), list))
              && WholeOrNotAtAll(streams, old(store.View()), store.View(), list)
  {
    ghost var (w0, strict) := (store.View(), store.readReportsMissing);
    ghost var known := IsKnown(streams, w0, list);
    ghost var plain := AllCopied(streams, w0) && store.script == [] && Stands(streams, strict, w0, w0, list, 0);
    if known {
      AllLaterAtFirst(streams, w0);
    }
    for i := 0 to |list|
      invariant plain ==> AllCopied(streams, store.View())
      invariant known ==> AllLater(streams, w0, store.View()) && AllGone(store.View(), list[..i])
      invariant plain ==> store.script == [] && Stands(streams, strict, w0, store.View(), list, i)
    {
      var target := TargetOf(list[i]);
      if target.Some? {
        ghost var w := store.View();
        r := ImportNext(store, list, i, target.value, streams, w0);
        if known {
          GoneStaysGone(streams, w0, w, store.View(), list, i);
        }
        if plain {
          StandingIsWhole(streams, strict, w0, w, list, i);
        }
        if r.Err? {
          return;
        }
      }
    }
    if plain {
      StandingIsWhole(streams, strict, w0, store.View(), list, |list|);
    }
    assert list[..|list|] == list;
    return Ok(());
  }

  // ----- the step -----

  lemma SourcesArePrefixed(n: Name)
    requires TargetOf(n).Some?
    ensures HasPrefix(n, LEGACY)
  {
    if n != LEGACY {
      assert LEGACY <= LEGACY + "/" <= n;
    }
  }

  // The list holds every source there is, and no other stream that has a target.
  lemma ListHoldsTheFamily(streams: map<Name, seq<Entry>>, w: World, list: seq<Name>, strict: bool)
    requires AllCopied(streams, w) && Lists(list, w, LEGACY)
    ensures IsKnown(streams, w, list) && Stands(streams, strict, w, w, list, 0)
    ensures forall n :: n in Sources(w) <==> n in list && TargetOf(n).Some?
  {
    forall n | TargetOf(n).Some? ensures n in Sources(w) <==> n in list {
      SourcesArePrefixed(n);
    }
    forall n | n in list && TargetOf(n).Some? ensures n in Family(streams) {
      assert n in Sources(w);
    }
  }

  // Nothing of the family is left, and every target has the whole of its source.
  ghost predicate Migrated(streams: map<Name, seq<Entry>>, w: World) {
    forall n :: n in Family(streams) ==>
      var c := CopyFor(streams, n); n !in w.streams && Contents(w, c.target) == c.base + c.full
  }

  lemma NoneLeftIsMigrated(streams: map<Name, seq<Entry>>, w0: World, w: World, list: seq<Name>)
    requires AllCopied(streams, w0) && Lists(list, w0, LEGACY) && AllLater(streams, w0, w) && AllGone(w, list)
    ensures Migrated(streams, w)
  {
    ListHoldsTheFamily(streams, w0, list, false);
    forall n | n in Family(streams)
      ensures var c := CopyFor(streams, n); n !in w.streams && Contents(w, c.target) == c.base + c.full
    {
      var c := CopyFor(streams, n);
      assert Later(w0, w, c);
      assert n in w0.streams ==> n in Sources(w0);
      assert c.full[..|c.full|] == c.full;
    }
  }

  lemma MigratedStays(streams: map<Name, seq<Entry>>, w: World, w': World)
    requires Migrated(streams, w) && AllLater(streams, w, w')
    ensures Migrated(streams, w')
  {
    forall n | n in Family(streams)
      ensures var c := CopyFor(streams, n); n !in w'.streams && Contents(w', c.target) == c.base + c.full
    {
      var c := CopyFor(streams, n);
      assert Later(w, w', c);
      assert c.full[..|c.full|] == c.full;
    }
  }

  /**
  `migrate_audit_streams`. A step that is done is not tried again. Otherwise, whatever the
  storage does: every copy stays sound, and once the step is marked done, or answers that it is,
  the whole family is in its targets. When every call works, that is so exactly when every
  source that is left can be completed; if one cannot, no source is left half imported.
  */
  method MigrateAuditStreams(store: Storage, migrations: Migrations, ghost streams: map<Name, seq<Entry>>)
    returns (r: Result<(), ErrorKind>)
    modifies store, migrations
    ensures var failure := FailureOf(Next(old(store.script)));
            old(migrations.done) || failure.Some? ==>
              && migrations.done == old(migrations.done)
              && store.View() == Found(old(store.View()), Next(old(store.script)))
              && r == if failure.Some? then Err(failure.value) else Ok(())
    ensures AllCopied(streams, old(store.View())) ==> AllLater(streams, old(store.View()), store.View())
    ensures r.Ok? ==> migrations.done
    ensures AllCopied(streams, old(store.View())) && !old(migrations.done) && migrations.done ==>
              Migrated(streams, store.View())
    ensures AllCopied(streams, old(store.View())) && !old(migrations.done) && old(store.script) == [] ==>
              && (r.Ok? <==> forall n :: n in Sources(old(store.View())) ==>
                               CanComplete(old(store.View()), store.readReportsMissing, CopyFor(streams, n)))
              && (r.Ok? <==> migrations.done)
              && forall n :: n in Family(streams) && n in store.streams ==>
                   SameStream(old(store.View()), store.View(), TargetOf(n).value)
  {
    ghost var w := store.View();
    var done := IsDone(store, migrations);
    ghost var w1 := store.View();
    if AllCopied(streams, w) {
      FaultKeepsAll(streams, w, Next(old(store.script)));
    }
    if done.Err? {
      return Err(done.error);
    }
    if done.value {
      return Ok(());
    }
    r := ImportFamily(store, streams);
    ghost var w2 := store.View();
    if AllCopied(streams, w) {
      LaterAndLater(streams, w, w1, w2);
    }
    if r.Err? {
      return;
    }
    ghost var f := Next(store.script);
    r := MarkDone(store, migrations);
    if AllCopied(streams, w) {
      FaultKeepsAll(streams, w2, f);
      LaterAndLater(streams, w, w2, store.View());
      MigratedStays(streams, w2, store.View());
    }
  }

  // The streams of the family, as they are listed.
  method ImportFamily(store: Storage, ghost streams: map<Name, seq<Entry>>) returns (r: Result<(), ErrorKind>)
    modifies store
    ensures AllCopied(streams, old(store.View())) ==>
              && AllLater(streams, old(store.View()), store.View())
              && (r.Ok? ==> Migrated(streams, store.View()))
    ensures AllCopied(streams, old(store.View())) && old(store.script) == [] ==>
              && store.script == []
              && (r.Ok? <==> forall n :: n in Sources(old(store.View())) ==>
                               CanComplete(old(store.View()), store.readReportsMissing, CopyFor(streams, n)))
              && forall n :: n in Family(streams) && n in store.streams ==>
                   SameStream(old(store.View()), store.View(), TargetOf(n).value)
  {
    ghost var (w, script) := (store.View(), store.script);
    var list := ListStreams(store, LEGACY);
    ghost var w1 := store.View();
    if AllCopied(streams, w) {
      FaultKeepsAll(streams, w, Next(script));
    }
    if list.Err? {
      return Err(list.error);
    }
    if AllCopied(streams, w) {
      ListHoldsTheFamily(streams, w1, list.value, store.readReportsMissing);
    }
    r := ImportListed(store, list.value, streams);
    if AllCopied(streams, w) {
      LaterAndLater(streams, w, w1, store.View());
      if r.Ok? {
        NoneLeftIsMigrated(streams, w1, store.View(), list.value);
      }
      if script == [] {
        EachIsWhole(streams, w, store.View(), list.value);
      }
    }
  }

  lemma EachIsWhole(streams: map<Name, seq<Entry>>, w0: World, w: World, list: seq<Name>)
    requires AllCopied(streams, w0) && Lists(list, w0, LEGACY) && AllLater(streams, w0, w)
    requires WholeOrNotAtAll(streams, w0, w, list)
    ensures forall n :: n in Family(streams) && n in w.streams ==> SameStream(w0, w, TargetOf(n).value)
  {
    ListHoldsTheFamily(streams, w0, list, false);
    forall n | n in Family(streams) && n in w.streams ensures SameStream(w0, w, TargetOf(n).value) {
      assert Later(w0, w, CopyFor(streams, n));
      assert n in Sources(w0);
    }
  }

  // ----- one opener of the transition system -----

  lemma {:induction false} RunThenRun(s: State, one: seq<Move>, two: seq<Move>)
    requires IsRun(s, one) && IsRun(After(s, one), two)
    ensures IsRun(s, one + two) && After(s, one + two) == After(After(s, one), two)
    decreases |one|
  {
    if one == [] {
      assert one + two == two;
    } else {
      RunThenRun(Step(s, one[0].t, one[0].c), one[1..], two);
      assert (one + two)[1..] == one[1..] + two;
    }
  }

  // What an opener about to pick its next source must find, to get through.
  ghost predicate IsReady(streams: map<Name, seq<Entry>>, strict: bool, w: World, todo: set<Name>) {
    && AllCopied(streams, w) && Sources(w) == todo
    && forall n :: n in todo ==> CanComplete(w, strict, CopyFor(streams, n))
  }

  lemma ImportKeepsOthersReady(streams: map<Name, seq<Entry>>, strict: bool, w: World, n: Name, m: Name)
    requires AllCopied(streams, w) && n in Sources(w) && m in Family(streams) && m != n
    ensures var w' := Import(w, strict, n, TargetOf(n).value).0;
      var other := CopyFor(streams, m);
      && Copied(w', other) && (m in w'.streams <==> m in w.streams)
      && (CanComplete(w', strict, other) <==> CanComplete(w, strict, other))
  {
    var c, other := CopyFor(streams, n), CopyFor(streams, m);
    assert n in Family(streams) && Copied(w, c) && Copied(w, other);
    ImportLeavesOthers(w, strict, c, other);
    var w' := Import(w, strict, n, c.target).0;
    UntouchedIsCopied(w, w', other);
    UntouchedStays(w, w, w', other, strict);
  }

  lemma UntouchedIsCopied(w: World, w': World, c: Copy)
    requires Copied(w, c) && Untouched(w, w', c)
    ensures Copied(w', c)
  {
  }

  lemma ImportKeepsReady(streams: map<Name, seq<Entry>>, strict: bool, w: World, todo: set<Name>, n: Name)
    requires IsReady(streams, strict, w, todo) && n in todo
    ensures var (w', r) := Import(w, strict, n, TargetOf(n).value);
      r.Ok? && IsReady(streams, strict, w', todo - {n})
  {
    var c := CopyFor(streams, n);
    var w' := Import(w, strict, n, c.target).0;
    assert n in Sources(w) && Copied(w, c);
    RerunCompletesOnABatchBoundary(w, strict, c);
    forall m | m in Family(streams) && m != n
      ensures Copied(w', CopyFor(streams, m)) && (m in w'.streams <==> m in w.streams)
      ensures m in todo ==> CanComplete(w', strict, CopyFor(streams, m))
    {
      ImportKeepsOthersReady(streams, strict, w, n, m);
    }
    SourcesLeft(w, strict, c);
    assert Sources(w') == todo - {n};
  }

  // The source imported is the only one that is gone.
  lemma SourcesLeft(w: World, strict: bool, c: Copy)
    requires Copied(w, c) && c.source in w.streams && CanComplete(w, strict, c)
    ensures Sources(Import(w, strict, c.source, c.target).0) == Sources(w) - {c.source}
  {
    var w' := Import(w, strict, c.source, c.target).0;
    RerunCompletesOnABatchBoundary(w, strict, c);
    forall m ensures m in Sources(w') <==> m in Sources(w) - {c.source} {
      if TargetOf(m).Some? && m != c.source {
        TargetsAreApart(c.source, m);
        assert m in w'.streams <==> m in w.streams;
      }
    }
  }

  // One source: it is picked, and its calls end with it imported.
  lemma LoneOpenerImportsOne(strict: bool, s: State, t: Tid, n: Name, todo: set<Name>) returns (run: seq<Move>)
    requires PcOf(s, t) == NextSource(todo) && n in todo && TargetOf(n).Some?
    requires Import(s.w, strict, n, TargetOf(n).value).1.Ok?
    ensures IsRun(s, run)
    ensures var s' := After(s, run);
      && PcOf(s', t) == NextSource(todo - {n}) && s'.done == s.done
      && s'.w == Import(s.w, strict, n, TargetOf(n).value).0
  {
    TargetsAreApart(n, n);
    var picked := Step(s, t, Pick(n));
    var pc := PcOf(picked, t);
    var cs := L.LoneOpenerEnds(strict, picked.w, picked.done, pc);
    L.LoneCallsAreARun(strict, picked, t, cs, L.Expected(strict, picked.w, pc));
    run := [Move(t, Pick(n))] + L.MovesOf(t, cs);
    assert run[1..] == L.MovesOf(t, cs);
  }

  /** An opener that finds every source in a state that can be completed, and has the streams to
      itself, can import them all, in any order, and marks the step done. */
  lemma {:induction false} LoneOpenerMigrates(streams: map<Name, seq<Entry>>, strict: bool, s: State, t: Tid,
                                              todo: set<Name>)
    returns (run: seq<Move>)
    requires PcOf(s, t) == NextSource(todo) && IsReady(streams, strict, s.w, todo)
    ensures IsRun(s, run)
    ensures var s' := After(s, run); s'.done && PcOf(s', t).Down? && Migrated(streams, s'.w)
    decreases todo
  {
    if todo == {} {
      run := [Move(t, Go)];
      AllGoneIsMigrated(streams, s.w);
    } else {
      var n :| n in todo;
      assert n in Sources(s.w);
      ImportKeepsReady(streams, strict, s.w, todo, n);
      var one := LoneOpenerImportsOne(strict, s, t, n, todo);
      var rest := LoneOpenerMigrates(streams, strict, After(s, one), t, todo - {n});
      RunThenRun(s, one, rest);
      run := one + rest;
    }
  }

  lemma AllGoneIsMigrated(streams: map<Name, seq<Entry>>, w: World)
    requires AllCopied(streams, w) && Sources(w) == {}
    ensures Migrated(streams, w)
  {
    forall n | n in Family(streams)
      ensures var c := CopyFor(streams, n); n !in w.streams && Contents(w, c.target) == c.base + c.full
    {
      var c := CopyFor(streams, n);
      assert Copied(w, c) && n !in Sources(w);
      assert c.full[..|c.full|] == c.full;
    }
  }

  /** From the start on, too: the calls of one opener that come to nothing but success are a run
      to the end of the migration. */
  lemma FirstOpenerMigrates(streams: map<Name, seq<Entry>>, strict: bool, t: Tid) returns (run: seq<Move>)
    requires strict ==> forall n :: n in Family(streams) ==> TargetOf(n).value in streams || streams[n] == []
    ensures IsRun(Start(streams), run)
    ensures After(Start(streams), run).done && Migrated(streams, After(Start(streams), run).w)
  {
    StartHasInv(streams);
    var s := Start(streams);
    var begin := C.Wake(streams, s, [], t);
    begin := C.Then(streams, s, begin, t, Go);
    StartIsReady(streams, strict);
    var rest := LoneOpenerMigrates(streams, strict, After(s, begin), t, Sources(s.w));
    RunThenRun(s, begin, rest);
    run := begin + rest;
  }

  lemma StartIsReady(streams: map<Name, seq<Entry>>, strict: bool)
    requires strict ==> forall n :: n in Family(streams) ==> TargetOf(n).value in streams || streams[n] == []
    ensures IsReady(streams, strict, Start(streams).w, Sources(Start(streams).w))
  {
    StartHasInv(streams);
    var w := Start(streams).w;
    forall n | n in Sources(w) ensures CanComplete(w, strict, CopyFor(streams, n)) {
      assert n in Family(streams) && Copied(w, CopyFor(streams, n));
    }
  }
}
