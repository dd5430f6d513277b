/**
The maps behind the client table, and what each operation does to them when it runs
alone. References are ids: two are the same object exactly when the ids are equal.
*/
module TableOperations {
  import opened Prelude

  type Dir = string
  type ClientId = nat
  type ResId = nat
  type ActionId = nat

  // One cleanup reservation: its follow-up action and its host fence.
  datatype Cell = Cell(afterClose: Option<ActionId>, hostPending: bool)

  const FRESH_CELL := Cell(None, false)

  // `cells` holds every reservation ever allocated, stored under a directory or not.
  datatype Tables = Tables(
    clients: map<Dir, ClientId>,
    retiring: set<ClientId>,
    reservations: map<Dir, ResId>,
    cells: map<ResId, Cell>)

  const EMPTY_TABLES := Tables(map[], {}, map[], map[])

  datatype Admission = Admitted(client: ClientId) | Unavailable | CreateFailed

  predicate Current(tb: Tables, dir: Dir, r: ResId) {
    dir in tb.reservations && tb.reservations[dir] == r
  }

  predicate Owns(tb: Tables, dir: Dir, client: ClientId) {
    dir in tb.clients && tb.clients[dir] == client
  }

  function Fenced(tb: Tables, r: ResId): bool {
    r in tb.cells && tb.cells[r].hostPending
  }

  function ActionOf(tb: Tables, r: ResId): Option<ActionId> {
    if r in tb.cells then tb.cells[r].afterClose else None
  }

  function WithCell(tb: Tables, r: ResId, cell: Cell): Tables {
    tb.(cells := tb.cells[r := cell])
  }

  function WithoutClient(tb: Tables, dir: Dir): Tables {
    tb.(clients := tb.clients - {dir})
  }

  function WithoutReservation(tb: Tables, dir: Dir): Tables {
    tb.(reservations := tb.reservations - {dir})
  }

  // The stored reservation, allocated as `unused` when there is none.
  function Obtain(tb: Tables, dir: Dir, unused: ResId): (Tables, ResId) {
    if dir in tb.reservations then (tb, tb.reservations[dir])
    else (tb.(reservations := tb.reservations[dir := unused], cells := tb.cells[unused := FRESH_CELL]), unused)
  }

  function Fence(tb: Tables, dir: Dir, unused: ResId): (Tables, ResId) {
    var (obtained, r) := Obtain(tb, dir, unused);
    (WithCell(obtained, r, Cell(ActionOf(obtained, r), true)), r)
  }

  function Attach(tb: Tables, dir: Dir, action: ActionId, unused: ResId): (Tables, ResId) {
    var (obtained, r) := Obtain(tb, dir, unused);
    (if ActionOf(obtained, r).Some? then obtained
     else WithCell(obtained, r, Cell(Some(action), Fenced(obtained, r))), r)
  }

  function CompleteHost(tb: Tables, dir: Dir, r: ResId): (Tables, bool) {
    if !Current(tb, dir, r) then (tb, false)
    else
      var lowered := WithCell(tb, r, Cell(ActionOf(tb, r), false));
      (if ActionOf(tb, r).None? then WithoutReservation(lowered, dir) else lowered, true)
  }

  function Admit(tb: Tables, dir: Dir, removed: bool, created: Option<ClientId>): (Tables, Admission) {
    if removed || dir in tb.reservations then (tb, Unavailable)
    else if dir in tb.clients then
      (tb, if tb.clients[dir] in tb.retiring then Unavailable else Admitted(tb.clients[dir]))
    else if created.None? then (tb, CreateFailed)
    else (tb.(clients := tb.clients[dir := created.value]), Admitted(created.value))
  }

  // `succeeds` is what the action answers, should it be run.
  function Finish(tb: Tables, dir: Dir, client: Option<ClientId>, r: ResId, succeeds: bool): (Tables, bool) {
    if !Current(tb, dir, r) || Fenced(tb, r) then (tb, false)
    else if client.Some? && !Owns(tb, dir, client.value) then (tb, false)
    else if ActionOf(tb, r).Some? && !succeeds then (tb, false)
    else (WithoutReservation(if client.Some? then WithoutClient(tb, dir) else tb, dir), true)
  }

  // Whether an orphan retry releases `dir`, given the reservations whose actions succeed.
  predicate Releases(tb: Tables, dir: Dir, succeeds: set<ResId>) {
    && dir in tb.reservations
    && dir !in tb.clients
    && !Fenced(tb, tb.reservations[dir])
    && (ActionOf(tb, tb.reservations[dir]).Some? ==> tb.reservations[dir] in succeeds)
  }

  // What an orphan retry leaves behind.
  function WithoutOrphans(tb: Tables, succeeds: set<ResId>): Tables {
    tb.(reservations := map d | d in tb.reservations && !Releases(tb, d, succeeds) :: tb.reservations[d])
  }

  /** The table updated in place, one call at a time. `next` is the next unused id. */
  class ClientTable {
    var clients: map<Dir, ClientId>
    var retiring: set<ClientId>
    var reservations: map<Dir, ResId>
    var cells: map<ResId, Cell>
    var next: ResId

    ghost function View(): Tables
      reads this
    {
      Tables(clients, retiring, reservations, cells)
    }

    ghost predicate Valid()
      reads this
    {
      && (forall r :: r in cells ==> r < next)
      && (forall d :: d in reservations ==> reservations[d] in cells)
      && (forall d, e :: d in reservations && e in reservations && reservations[d] == reservations[e] ==> d == e)
    }

    constructor ()
      ensures Valid() && View() == EMPTY_TABLES
    {
      clients, retiring, reservations, cells, next := map[], {}, map[], map[], 0;
    }

    method AdmitClient(dir: Dir, removed: bool, created: Option<ClientId>) returns (result: Admission)
      requires Valid()
      modifies this
      ensures Valid() && (View(), result) == Admit(old(View()), dir, removed, created)
    {
      if removed || dir in reservations {
        return Unavailable;
      }
      if dir in clients {
        var client := clients[dir];
        if client in retiring {
          return Unavailable;
        }
        return Admitted(client);
      }
      if created.None? {
        return CreateFailed;
      }
      clients := clients[dir := created.value];
      return Admitted(created.value);
    }

    method Retire(dir: Dir) returns (client: Option<ClientId>)
      requires Valid()
      modifies this
      ensures Valid()
      ensures client == if dir in old(clients) then Some(old(clients)[dir]) else None
      ensures View() == old(View()).(retiring := old(retiring) + if client.Some? then {client.value} else {})
    {
      if dir !in clients {
        return None;
      }
      retiring := retiring + {clients[dir]};
      return Some(clients[dir]);
    }

    method Evict(dir: Dir, client: ClientId) returns (evicted: bool)
      requires Valid()
      modifies this
      ensures Valid()
      ensures evicted == Owns(old(View()), dir, client)
      ensures View() == if evicted then WithoutClient(old(View()), dir) else old(View())
    {
      if dir !in clients || clients[dir] != client {
        return false;
      }
      clients := clients - {dir};
      return true;
    }

    method ReservationFor(dir: Dir) returns (r: ResId)
      requires Valid()
      modifies this
      ensures Valid() && (View(), r) == Obtain(old(View()), dir, old(next))
    {
      if dir !in reservations {
        cells := cells[next := FRESH_CELL];
        reservations := reservations[dir := next];
        next := next + 1;
      }
      return reservations[dir];
    }

    method ReserveHostCompletion(dir: Dir) returns (r: ResId)
      requires Valid()
      modifies this
      ensures Valid() && (View(), r) == Fence(old(View()), dir, old(next))
    {
      r := ReservationFor(dir);
      cells := cells[r := cells[r].(hostPending := true)];
    }

    method ReservationWithAction(dir: Dir, action: ActionId) returns (r: ResId)
      requires Valid()
      modifies this
      ensures Valid() && (View(), r) == Attach(old(View()), dir, action, old(next))
    {
      r := ReservationFor(dir);
      if cells[r].afterClose.None? {
        cells := cells[r := cells[r].(afterClose := Some(action))];
      }
    }

    method CompleteHostCleanup(dir: Dir, r: ResId) returns (ok: bool)
      requires Valid()
      modifies this
      ensures Valid() && (View(), ok) == CompleteHost(old(View()), dir, r)
    {
      if dir !in reservations || reservations[dir] != r {
        return false;
      }
      cells := cells[r := cells[r].(hostPending := false)];
      if cells[r].afterClose.None? {
        reservations := reservations - {dir};
      }
      return true;
    }

    method FinishCleanup(dir: Dir, client: Option<ClientId>, r: ResId, succeeds: bool) returns (ok: bool)
      requires Valid()
      modifies this
      ensures Valid() && (View(), ok) == Finish(old(View()), dir, client, r, succeeds)
    {
      if dir !in reservations || reservations[dir] != r || cells[r].hostPending {
        return false;
      }
      if client.Some? && (dir !in clients || clients[dir] != client.value) {
        return false;
      }
      if cells[r].afterClose.Some? && !succeeds {
        return false;
      }
      if client.Some? {
        clients := clients - {dir};
      }
      reservations := reservations - {dir};
      return true;
    }

    /** Visits the reservations of a snapshot in an arbitrary order; which of them are
        released does not depend on that order. */
    method RetryOrphaned(succeeds: set<ResId>)
      requires Valid()
      modifies this
      ensures Valid()
      ensures View() == WithoutOrphans(old(View()), succeeds)
    {
      var todo := reservations.Keys;
      ghost var was := View();
      while todo != {}
        invariant Valid() && todo <= was.reservations.Keys
        invariant View() == was.(reservations := reservations)
        invariant reservations.Keys <= was.reservations.Keys
        invariant forall d :: d in was.reservations ==>
                    (d in reservations <==> d in todo || !Releases(was, d, succeeds))
        invariant forall d :: d in reservations ==> reservations[d] == was.reservations[d]
        decreases |todo|
      {
        var dir :| dir in todo;
        todo := todo - {dir};
        if dir !in clients {
          var r := reservations[dir];
          var ok := FinishCleanup(dir, None, r, r in succeeds);
        }
      }
    }
  }
}
