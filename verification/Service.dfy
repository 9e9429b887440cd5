/** The API's transactions on the table: create as four interleavable steps, PATCH under a row lock
    with its refresh, and delete. */
module Service {
  import opened Tasks
  import opened StateMachine
  import opened Protocol
  import opened Creates
  import opened Worker

  /** SELECT ... WHERE idempotency_key = key. */
  method FindByKey(db: Database, key: string) returns (found: Option<Id>)
    requires KeysUnique(db.rows)
    ensures found.Some? <==> HasKey(db.rows, Some(key))
    ensures found.Some? ==> found.value == WithKey(db.rows, Some(key))
  {
    found := None;
    var rest := db.rows.Keys;
    while rest != {}
      invariant rest <= db.rows.Keys
      invariant forall x :: x in db.rows && x !in rest ==> db.rows[x].key != Some(key)
      decreases rest
    {
      var x :| x in rest;
      if db.rows[x].key == Some(key) {
        assert HasKey(db.rows, Some(key));
        return Some(x);
      }
      rest := rest - {x};
    }
  }

  /** A row as a create leaves it: pending, never tried, due at the time asked for or else now, created
      and updated now, without an error, with the request's key and payload. */
  predicate AsRequested(row: Row, req: Request, now: Time) {
    && row.status == Pending && row.retryCount == 0 && row.lastError == None
    && row.scheduledAt == (if req.scheduledAt.Some? then req.scheduledAt.value else now)
    && row.createdAt == now && row.updatedAt == now
    && row.key == req.key && row.forceFail == req.forceFail
  }

  /** One call of create_task. Each method is one transaction; other sessions run in between. */
  class CreateCall {
    const req: Request
    var phase: Option<Phase>

    constructor (req: Request)
      ensures this.req == req && phase == None
    {
      this.req, phase := req, None;
    }

    /** The fast path: return the task that already has the key. */
    method Find(db: Database)
      requires phase == None && KeysUnique(db.rows)
      modifies this
      ensures phase == Some(if HasKey(db.rows, req.key) then Returned(req, WithKey(db.rows, req.key)) else Inserting(req))
    {
      phase := Some(Inserting(req));
      if req.key.Some? {
        var existing := FindByKey(db, req.key.value);
        if existing.Some? {
          phase := Some(Returned(req, existing.value));
        }
      }
    }

    /** The insert: the unique index lets it commit or rejects it, leaving the table as it was. */
    method Insert(db: Database, id: Id, now: Time)
      requires phase == Some(Inserting(req)) && KeysUnique(db.rows) && id !in db.rows && id !in db.gone
      modifies this, db
      ensures db.gone == old(db.gone) && KeysUnique(db.rows)
      ensures if HasKey(old(db.rows), req.key)
              then db.rows == old(db.rows) && phase == Some(Conflicted(req, WithKey(old(db.rows), req.key)))
              else db.rows == old(db.rows)[id := NewRow(req, now)] && phase == Some(Inserted(req, id))
      ensures phase == Some(Inserted(req, id)) ==> id in db.rows && AsRequested(db.rows[id], req, now)
    {
      if req.key.Some? {
        var winner := FindByKey(db, req.key.value);
        if winner.Some? {
          phase := Some(Conflicted(req, winner.value));
          return;
        }
      }
      assert !HasKey(db.rows, req.key);
      db.rows := db.rows[id := NewRow(req, now)];
      phase := Some(Inserted(req, id));
    }

    /** The refresh of the committed row, in a transaction of its own: it raises when the row has been
        deleted since, and then the create is not counted. */
    method Refresh(db: Database, metrics: Metrics)
      requires phase.Some? && phase.value.Inserted? && phase.value.req == req
      modifies this, metrics
      ensures var id := old(phase).value.id;
        if id in db.rows
        then phase == Some(Returned(req, id))
             && metrics.counters == old(metrics.counters).(created := old(metrics.counters).created + 1)
        else phase == Some(LostOwnRow(req, id)) && metrics.counters == old(metrics.counters)
    {
      var id := phase.value.id;
      if id in db.rows {
        metrics.counters := metrics.counters.(created := metrics.counters.created + 1);
        phase := Some(Returned(req, id));
      } else {
        phase := Some(LostOwnRow(req, id));
      }
    }

    /** After the rollback: return the winner's row, or raise when it is gone. */
    method Refind(db: Database)
      requires phase.Some? && phase.value.Conflicted? && phase.value.req == req && req.key.Some? && KeysUnique(db.rows)
      modifies this
      ensures phase == Some(if HasKey(db.rows, req.key) then Returned(req, WithKey(db.rows, req.key))
                            else Raised(req, old(phase).value.winner))
    {
      var existing := FindByKey(db, req.key.value);
      if existing.Some? {
        phase := Some(Returned(req, existing.value));
      } else {
        phase := Some(Raised(req, phase.value.winner));
      }
    }
  }

  /** Other sessions between two transactions of a create: the index keeps keys unique, and nobody else
      is given this call's id; nothing more is known. */
  method OtherSessions(db: Database, metrics: Metrics, mine: Id)
    requires KeysUnique(db.rows) && mine !in db.rows && mine !in db.gone
    modifies db, metrics
    ensures KeysUnique(db.rows) && mine !in db.rows && mine !in db.gone
  {
  }

  /** Other sessions once the row is committed: they may change it or delete it. */
  method OtherSessionsMeet(db: Database, metrics: Metrics)
    requires KeysUnique(db.rows)
    modifies db, metrics
    ensures KeysUnique(db.rows)
  {
  }

  /** create_task from end to end. `atInsert` is the table that its insert meets and `last` the one that
      its last transaction meets, with the counters then. It inserts at most once, and only where the
      key is free; it counts what it returns as new, and raises when its own row, or every row with the
      key, has been deleted meanwhile. */
  method CreateTask(db: Database, req: Request, id: Id, now: Time, metrics: Metrics)
    returns (r: Phase, ghost atInsert: Table, ghost inserted: Table, ghost last: Table, ghost counted: Counters)
    requires KeysUnique(db.rows) && id !in db.rows && id !in db.gone
    modifies db, metrics
    ensures KeysUnique(db.rows) && db.rows == last
    ensures HasKey(old(db.rows), req.key) ==>
              r == Returned(req, WithKey(old(db.rows), req.key)) && last == old(db.rows) && metrics.counters == counted == old(metrics.counters)
    ensures !HasKey(old(db.rows), req.key) && !HasKey(atInsert, req.key) ==>
              && id !in atInsert && inserted == atInsert[id := NewRow(req, now)] && AsRequested(inserted[id], req, now)
              && (if id in last
                  then r == Returned(req, id) && metrics.counters == counted.(created := counted.created + 1)
                  else r == LostOwnRow(req, id) && metrics.counters == counted)
    ensures !HasKey(old(db.rows), req.key) && HasKey(atInsert, req.key) ==>
              && inserted == atInsert && metrics.counters == counted
              && r == if HasKey(last, req.key) then Returned(req, WithKey(last, req.key))
                      else Raised(req, WithKey(atInsert, req.key))
  {
    var call := new CreateCall(req);
    call.Find(db);
    atInsert, inserted, last, counted := db.rows, db.rows, db.rows, metrics.counters;
    if call.phase.value.Inserting? {
      OtherSessions(db, metrics, id);
      atInsert := db.rows;
      call.Insert(db, id, now);
      inserted := db.rows;
      OtherSessionsMeet(db, metrics);
      last, counted := db.rows, metrics.counters;
      if call.phase.value.Inserted? {
        call.Refresh(db, metrics);
      } else {
        call.Refind(db);
      }
    }
    r := call.phase.value;
  }

  datatype Result<+T> = Ok(value: T) | NotFound | InvalidTransition | Vanished

  /** What a PATCH may do to a row: nothing, or, along an allowed transition, set the status and stamp
      the row; every other column stays. */
  predicate OnlyStatus(before: Row, after: Row, target: Status, now: Time) {
    && after.retryCount == before.retryCount && after.scheduledAt == before.scheduledAt
    && after.createdAt == before.createdAt && after.lastError == before.lastError
    && after.key == before.key && after.forceFail == before.forceFail
    && (if before.status != target && CanTransition(before.status, target)
        then after.status == target && after.updatedAt == now
        else after == before)
  }

  /** PATCH, its transaction under the row lock: missing rows are not found, the present status is a
      no-op, and any other change must be an allowed transition; a rejected call changes nothing. */
  method ApplyStatus(db: Database, id: Id, target: Status, now: Time) returns (r: Result<Row>, changed: bool)
    modifies db
    ensures db.gone == old(db.gone)
    ensures db.rows == if id in old(db.rows) then old(db.rows)[id := PatchedRow(old(db.rows)[id], target, now)] else old(db.rows)
    ensures db.rows.Keys == old(db.rows).Keys && forall x :: x in db.rows && x != id ==> db.rows[x] == old(db.rows)[x]
    ensures id in old(db.rows) ==> OnlyStatus(old(db.rows)[id], db.rows[id], target, now)
    ensures r == if id !in old(db.rows) then NotFound
                 else if old(db.rows)[id].status == target || CanTransition(old(db.rows)[id].status, target) then Ok(db.rows[id])
                 else InvalidTransition
    ensures r.Ok? ==> r.value.status == target && Accepts([old(db.rows)[id].status, target])
    ensures changed <==> r.Ok? && old(db.rows)[id].status != target
    ensures !changed ==> db.rows == old(db.rows)
  {
    changed := false;
    if id !in db.rows {
      return NotFound, false;
    }
    var task := new Task(id, db.rows[id]);
    if task.status == target {
      return Ok(db.rows[id]), false;
    }
    if !CanTransition(task.status, target) {
      return InvalidTransition, false;
    }
    task.status := target;
    var stored := db.Store(task, now);
    return Ok(db.rows[id]), true;
  }

  /** update_status from end to end. A change is refreshed in a later transaction, which meets the table
      `last`: the answer is the row as it is by then, whatever its status, and if it has been deleted
      the refresh raises. */
  method UpdateStatus(db: Database, id: Id, target: Status, now: Time, metrics: Metrics)
    returns (r: Result<Row>, ghost patched: Table, ghost last: Table)
    modifies db, metrics
    ensures patched == if id in old(db.rows) then old(db.rows)[id := PatchedRow(old(db.rows)[id], target, now)] else old(db.rows)
    ensures patched.Keys == old(db.rows).Keys && forall x :: x in patched && x != id ==> patched[x] == old(db.rows)[x]
    ensures id in old(db.rows) ==> OnlyStatus(old(db.rows)[id], patched[id], target, now)
    ensures db.rows == last && (patched == old(db.rows) ==> last == patched && metrics.counters == old(metrics.counters))
    ensures id !in old(db.rows) ==> r == NotFound
    ensures id in old(db.rows) ==>
              var from := old(db.rows)[id].status;
              if from == target then r == Ok(patched[id]) && patched == old(db.rows)
              else if !CanTransition(from, target) then r == InvalidTransition && patched == old(db.rows)
              else patched[id].status == target && r == if id in last then Ok(last[id]) else Vanished
  {
    var changed;
    r, changed := ApplyStatus(db, id, target, now);
    patched, last := db.rows, db.rows;
    if changed {
      assert patched[id].status != old(db.rows)[id].status;
      Worker.OtherSessions(db, metrics);
      last := db.rows;
      r := if id in db.rows then Ok(db.rows[id]) else Vanished;
    }
  }

  method DeleteTask(db: Database, id: Id) returns (r: Result<()>)
    modifies db
    ensures r == if id in old(db.rows) then Ok(()) else NotFound
    ensures if id in old(db.rows)
            then db.rows == old(db.rows) - {id} && db.gone == old(db.gone)[id := old(db.rows)[id]]
            else db.rows == old(db.rows) && db.gone == old(db.gone)
  {
    if id !in db.rows {
      return NotFound;
    }
    db.gone := db.gone[id := db.rows[id]];
    db.rows := db.rows - {id};
    r := Ok(());
  }
}
