/** What the table's calls do to one another, one after the other. */
module TableLaws {
  import opened Prelude
  import opened TableOperations

  // Reservations are stored where they were allocated, each under one directory.
  ghost predicate IsSound(tb: Tables) {
    && (forall d :: d in tb.reservations ==> tb.reservations[d] in tb.cells)
    && (forall d, e :: d in tb.reservations && e in tb.reservations ==>
          tb.reservations[d] == tb.reservations[e] ==> d == e)
  }

  // Only the entries of `dir` may differ.
  predicate SameElsewhere(tb: Tables, tb': Tables, dir: Dir) {
    && tb'.clients - {dir} == tb.clients - {dir}
    && tb'.reservations - {dir} == tb.reservations - {dir}
    && tb'.retiring == tb.retiring
  }

  predicate IsRetiring(tb: Tables, dir: Dir) {
    dir in tb.clients && tb.clients[dir] in tb.retiring
  }

  /**
  A directory is unavailable exactly while it is removed, reserved, or in front of a retiring
  client, and asking changes nothing then. Otherwise the cached client is handed out, again and
  again; or a new one, which is the cached one from then on.
  */
  lemma AdmissionHoldsExactly(tb: Tables, dir: Dir, removed: bool, created: Option<ClientId>)
    ensures var (tb', answer) := Admit(tb, dir, removed, created);
      && SameElsewhere(tb, tb', dir) && tb'.reservations == tb.reservations && tb'.cells == tb.cells
      && (answer.Unavailable? <==> removed || dir in tb.reservations || IsRetiring(tb, dir))
      && (!answer.Admitted? ==> tb' == tb)
      && (answer.CreateFailed? ==> dir !in tb.clients && created.None?)
      && (answer.Admitted? ==>
            && Owns(tb', dir, answer.client) && (dir in tb.clients ==> tb' == tb)
            && (dir !in tb.clients ==> created == Some(answer.client))
            && forall other :: !IsRetiring(tb', dir) ==> Admit(tb', dir, false, other) == (tb', answer))
  {
    var tb' := Admit(tb, dir, removed, created).0;
    assert tb'.clients - {dir} == tb.clients - {dir};
  }

  /**
  A reserved host cleanup: the directory admits nobody, no cleanup gets through whatever its
  action answers, and reserving it again changes nothing. Confirming takes back the reservation,
  unless it carries an action, which stays for a cleanup; the token is of no use after that.
  */
  lemma HostCleanupIsFenced(tb: Tables, dir: Dir, unused: ResId, removed: bool, created: Option<ClientId>,
                            client: Option<ClientId>, succeeds: bool)
    requires IsSound(tb) && unused !in tb.cells
    ensures var (fenced, r) := Fence(tb, dir, unused);
      var (confirmed, ok) := CompleteHost(fenced, dir, r);
      && SameElsewhere(tb, fenced, dir) && fenced.clients == tb.clients && Current(fenced, dir, r)
      && Admit(fenced, dir, removed, created) == (fenced, Unavailable)
      && Finish(fenced, dir, client, r, succeeds) == (fenced, false)
      && Fence(fenced, dir, unused) == (fenced, r)
      && ok && confirmed.clients == tb.clients && SameElsewhere(tb, confirmed, dir) && !Fenced(confirmed, r)
      && (dir !in tb.reservations || ActionOf(tb, r).None? ==>
            confirmed.reservations == tb.reservations - {dir} && CompleteHost(confirmed, dir, r) == (confirmed, false))
      && (dir in tb.reservations && ActionOf(tb, r).Some? ==>
            Current(confirmed, dir, r) && ActionOf(confirmed, r) == ActionOf(tb, r))
  {
    var (fenced, r) := Fence(tb, dir, unused);
    var confirmed := CompleteHost(fenced, dir, r).0;
    assert fenced.reservations - {dir} == tb.reservations - {dir};
    assert fenced.cells[r := fenced.cells[r]] == fenced.cells;
    assert dir !in tb.reservations || ActionOf(tb, r).None? ==> confirmed.reservations == tb.reservations - {dir};
  }

  /**
  An accepted action: another one does not take its place; a cleanup whose action fails, or that
  names a client that is not the cached one, leaves everything; and any other takes out the
  reservation, and the client it names, and nothing of any other directory.
  */
  lemma ActionIsRunOnce(tb: Tables, dir: Dir, action: ActionId, other: ActionId, unused: ResId,
                        client: Option<ClientId>, succeeds: bool)
    requires IsSound(tb) && unused !in tb.cells
    requires dir in tb.reservations ==> !Fenced(tb, tb.reservations[dir])
    ensures var (attached, r) := Attach(tb, dir, action, unused);
      var (finished, ok) := Finish(attached, dir, client, r, succeeds);
      && SameElsewhere(tb, attached, dir) && attached.clients == tb.clients
      && Current(attached, dir, r) && ActionOf(attached, r).Some?
      && Attach(attached, dir, other, unused) == (attached, r)
      && (ok <==> succeeds && (client.Some? ==> Owns(tb, dir, client.value)))
      && (!ok ==> finished == attached)
      && (ok ==> SameElsewhere(tb, finished, dir) && dir !in finished.reservations
                 && (if client.Some? then dir !in finished.clients else finished.clients == tb.clients))
      && (ok ==> Finish(finished, dir, client, r, succeeds) == (finished, false))
  {
    var (attached, r) := Attach(tb, dir, action, unused);
    var (finished, ok) := Finish(attached, dir, client, r, succeeds);
    assert attached.reservations - {dir} == tb.reservations - {dir};
    assert ok ==> finished.reservations - {dir} == tb.reservations - {dir};
    assert ok ==> finished.clients - {dir} == tb.clients - {dir};
  }

  /**
  An orphan retry releases a directory exactly when a cleanup of it without a client would, and
  nobody is cached there; a second one finds nothing more to do.
  */
  lemma RetryFinishesOrphans(tb: Tables, succeeds: set<ResId>, dir: Dir)
    ensures var left := WithoutOrphans(tb, succeeds);
      && left.clients == tb.clients && left.cells == tb.cells && left.retiring == tb.retiring
      && (dir in left.reservations ==> dir in tb.reservations && left.reservations[dir] == tb.reservations[dir])
      && (dir in tb.reservations && dir !in left.reservations
          <==> && dir in tb.reservations && dir !in tb.clients
               && var r := tb.reservations[dir]; Finish(tb, dir, None, r, r in succeeds).1)
      && WithoutOrphans(left, succeeds) == left
  {
    var left := WithoutOrphans(tb, succeeds);
    assert WithoutOrphans(left, succeeds).reservations == left.reservations;
  }
}
