/** The worker's transactions as the code runs them: objects loaded into a session, mutated one by
    one, and written back at commit. Each method is proved against the step of the protocol it is. */
module Worker {
  import opened Tasks
  import opened Retry
  import opened Protocol

  /** A row loaded into a session; the worker edits these fields. */
  class Task {
    const id: Id
    const loaded: Row
    var status: Status
    var retryCount: nat
    var scheduledAt: Time
    var lastError: Option<string>

    constructor (id: Id, row: Row)
      ensures this.id == id && loaded == row && Value() == row
    {
      this.id, loaded := id, row;
      status, retryCount, scheduledAt, lastError := row.status, row.retryCount, row.scheduledAt, row.lastError;
    }

    /** The row as edited so far. */
    function Value(): Row
      reads this
    {
      loaded.(status := status, retryCount := retryCount, scheduledAt := scheduledAt, lastError := lastError)
    }
  }

  class Metrics {
    var counters: Counters

    constructor ()
      ensures counters == ZERO
    {
      counters := ZERO;
    }
  }

  class Database {
    var rows: Table
    var gone: Table

    constructor ()
      ensures rows == map[] && gone == map[]
    {
      rows, gone := map[], map[];
    }

    /** SELECT of the claim: the oldest due rows not locked by others. */
    method SelectDue(asOf: Time, locked: set<Id>, limit: nat) returns (ids: seq<Id>)
      ensures OldestDue(rows, asOf, locked, limit, ids)
    {
      ids := [];
      var rest := set x | x in rows && x !in locked && Due(rows[x], asOf);
      while |ids| < limit && rest != {}
        invariant Distinct(ids) && |ids| <= limit
        invariant forall i :: 0 <= i < |ids| ==> ids[i] in rows && ids[i] !in locked && Due(rows[ids[i]], asOf)
        invariant forall i, j :: 0 <= i < j < |ids| ==> rows[ids[i]].scheduledAt <= rows[ids[j]].scheduledAt
        invariant forall x :: x in rest <==> x in rows && x !in locked && Due(rows[x], asOf) && x !in ids
        invariant forall i, x :: 0 <= i < |ids| && x in rest ==> rows[ids[i]].scheduledAt <= rows[x].scheduledAt
        decreases rest
      {
        ghost var earliest := EarliestOf(rows, rest);
        var x :| x in rest && forall y :: y in rest ==> rows[x].scheduledAt <= rows[y].scheduledAt;
        ids, rest := ids + [x], rest - {x};
      }
    }

    /** SELECT of the reaper: stale rows not locked by others, in whatever order they come. */
    method SelectStale(asOf: Time, age: nat, locked: set<Id>, limit: nat) returns (ids: seq<Id>)
      ensures SomeStale(rows, asOf, age, locked, limit, ids)
    {
      ids := [];
      var rest := set x | x in rows && x !in locked && Stale(rows[x], asOf, age);
      while |ids| < limit && rest != {}
        invariant Distinct(ids) && |ids| <= limit
        invariant forall i :: 0 <= i < |ids| ==> ids[i] in rows && ids[i] !in locked && Stale(rows[ids[i]], asOf, age)
        invariant forall x :: x in rest <==> x in rows && x !in locked && Stale(rows[x], asOf, age) && x !in ids
        decreases rest
      {
        var x :| x in rest;
        ids, rest := ids + [x], rest - {x};
      }
    }

    /** Load the selected rows as session objects. */
    method Load(ids: seq<Id>) returns (tasks: seq<Task>)
      requires Distinct(ids) && forall i :: 0 <= i < |ids| ==> ids[i] in rows
      ensures |tasks| == |ids| && fresh(tasks)
      ensures forall i :: 0 <= i < |ids| ==> tasks[i].id == ids[i] && tasks[i].loaded == rows[ids[i]] && tasks[i].Value() == rows[ids[i]]
      ensures forall i, j :: 0 <= i < j < |tasks| ==> tasks[i] != tasks[j]
    {
      tasks := [];
      for n := 0 to |ids|
        invariant |tasks| == n && fresh(tasks)
        invariant forall i :: 0 <= i < n ==> tasks[i].id == ids[i] && tasks[i].loaded == rows[ids[i]] && tasks[i].Value() == rows[ids[i]]
        invariant forall i, j :: 0 <= i < j < |tasks| ==> tasks[i] != tasks[j]
      {
        var task := new Task(ids[n], rows[ids[n]]);
        tasks := tasks + [task];
      }
    }

    /** Write one edited object back; false when its row is gone, which the session raises. */
    method Store(task: Task, now: Time) returns (stored: bool)
      modifies this
      ensures stored <==> task.id in old(rows)
      ensures gone == old(gone)
      ensures rows == if stored then old(rows)[task.id := Flush(old(rows)[task.id], task.loaded, task.Value(), now)] else old(rows)
    {
      stored := task.id in rows;
      if stored {
        rows := rows[task.id := Flush(rows[task.id], task.loaded, task.Value(), now)];
      }
    }
  }

  /** Retry or bury a task, in place; the caller owns the transaction. */
  method ApplyFailure(task: Task, error: string, cfg: Settings, now: Time, metrics: Metrics)
    modifies task, metrics
    ensures task.Value() == FailedRow(cfg, old(task.Value()), error, now)
    ensures metrics.counters == Count(cfg, old(metrics.counters), old(task.Value()))
    ensures task.lastError == Some(if |error| <= 1000 then error else error[..1000])
    ensures old(task.retryCount) < cfg.maxRetries ==>
              && task.status == Pending && task.retryCount == old(task.retryCount) + 1
              && task.scheduledAt == now + cfg.backoffBase * Pow2(old(task.retryCount))
              && metrics.counters == old(metrics.counters).(retried := old(metrics.counters).retried + 1)
    ensures old(task.retryCount) >= cfg.maxRetries ==>
              && task.status == Dead && task.retryCount == old(task.retryCount) && task.scheduledAt == old(task.scheduledAt)
              && metrics.counters == old(metrics.counters).(dead := old(metrics.counters).dead + 1)
  {
    var attempt := task.retryCount + 1;
    task.lastError := Some(Clip(error));
    if attempt > cfg.maxRetries {
      task.status := Dead;
      metrics.counters := metrics.counters.(dead := metrics.counters.dead + 1);
    } else {
      var delay := BackoffDelay(attempt, cfg.backoffBase);
      task.retryCount := attempt;
      task.status := Pending;
      task.scheduledAt := now + delay;
      metrics.counters := metrics.counters.(retried := metrics.counters.retried + 1);
    }
  }

  /** The objects hold rows of the table that nobody has changed since they were loaded. */
  ghost predicate Loaded(t: Table, ids: seq<Id>, tasks: seq<Task>)
  {
    && |tasks| == |ids| && Distinct(ids)
    && (forall i :: 0 <= i < |ids| ==> ids[i] in t && tasks[i].id == ids[i] && tasks[i].loaded == t[ids[i]])
    && (forall i, j :: 0 <= i < j < |tasks| ==> tasks[i] != tasks[j])
  }

  /** Commit: write every object back. */
  method StoreAll(db: Database, ids: seq<Id>, tasks: seq<Task>, now: Time)
    requires Loaded(db.rows, ids, tasks)
    modifies db
    ensures db.gone == old(db.gone) && db.rows.Keys == old(db.rows).Keys
    ensures forall i :: 0 <= i < |ids| ==>
              db.rows[ids[i]] == Flush(tasks[i].loaded, tasks[i].loaded, tasks[i].Value(), now)
    ensures forall x :: x in old(db.rows) && x !in ids ==> db.rows[x] == old(db.rows)[x]
  {
    ghost var before := db.rows;
    for k := 0 to |tasks|
      invariant db.gone == old(db.gone) && db.rows.Keys == before.Keys
      invariant forall i :: 0 <= i < k ==> db.rows[ids[i]] == Flush(tasks[i].loaded, tasks[i].loaded, tasks[i].Value(), now)
      invariant forall i :: k <= i < |ids| ==> db.rows[ids[i]] == before[ids[i]]
      invariant forall x :: x in before && x !in ids ==> db.rows[x] == before[x]
    {
      var stored := db.Store(tasks[k], now);
    }
  }

  /** The counters after one reaped row more. */
  lemma CountedNext(cfg: Settings, c: Counters, t: Table, ids: seq<Id>, k: nat)
    requires k < |ids| && forall i :: 0 <= i < |ids| ==> ids[i] in t
    ensures var d := CountReaped(cfg, c, t, ids[..k]);
      CountReaped(cfg, c, t, ids[..k + 1]) == Count(cfg, d.(reclaimed := d.reclaimed + 1), t[ids[k]])
  {
    assert ids[..k + 1][..k] == ids[..k];
  }

  /** The reaper's loop over the rows it selected. */
  method FailAll(t: Table, ids: seq<Id>, stale: seq<Task>, cfg: Settings, now: Time, metrics: Metrics)
    requires Loaded(t, ids, stale) && forall i :: 0 <= i < |stale| ==> stale[i].Value() == stale[i].loaded
    modifies stale, metrics
    ensures forall i :: 0 <= i < |stale| ==> stale[i].Value() == FailedRow(cfg, stale[i].loaded, STALLED, now)
    ensures metrics.counters == CountReaped(cfg, old(metrics.counters), t, ids)
  {
    ghost var counted := metrics.counters;
    for k := 0 to |stale|
      invariant forall i :: 0 <= i < k ==> stale[i].Value() == FailedRow(cfg, stale[i].loaded, STALLED, now)
      invariant forall i :: k <= i < |stale| ==> stale[i].Value() == stale[i].loaded
      invariant metrics.counters == CountReaped(cfg, counted, t, ids[..k])
    {
      CountedNext(cfg, counted, t, ids, k);
      metrics.counters := metrics.counters.(reclaimed := metrics.counters.reclaimed + 1);
      ApplyFailure(stale[k], STALLED, cfg, now, metrics);
    }
    assert ids[..|ids|] == ids;
  }

  /** Recover tasks stuck in running: the whole transaction is the protocol's reap. When its commit
      fails no row is changed, but the failures have been counted. */
  method ReclaimStaleRunning(db: Database, locked: set<Id>, cfg: Settings, asOf: Time, now: Time, commits: bool, metrics: Metrics)
    returns (n: nat, ids: seq<Id>)
    modifies db, metrics
    ensures SomeStale(old(db.rows), asOf, cfg.staleTimeout, locked, cfg.batchSize, ids) && n == |ids|
    ensures db.rows == (if commits then ReapRows(cfg, old(db.rows), ids, asOf, now) else old(db.rows)) && db.gone == old(db.gone)
    ensures metrics.counters == CountReaped(cfg, old(metrics.counters), old(db.rows), ids)
    ensures forall x :: x in ids ==> x in old(db.rows) && old(db.rows)[x].status == Running && old(db.rows)[x].updatedAt < asOf - cfg.staleTimeout
    ensures forall x :: x in old(db.rows) && (!commits || x !in ids) ==> x in db.rows && db.rows[x] == old(db.rows)[x]
  {
    ids := db.SelectStale(asOf, cfg.staleTimeout, locked, cfg.batchSize);
    var stale := db.Load(ids);
    ghost var before := db.rows;
    FailAll(db.rows, ids, stale, cfg, now, metrics);
    n := |stale|;
    if commits {
      StoreAll(db, ids, stale, asOf);
      ReapedRowByRow(cfg, before, db.rows, ids, asOf, now);
    }
  }

  lemma ReapedRowByRow(cfg: Settings, before: Table, after: Table, ids: seq<Id>, asOf: Time, now: Time)
    requires after.Keys == before.Keys
    requires forall i :: 0 <= i < |ids| ==> ids[i] in before && before[ids[i]].status == Running
    requires forall i :: 0 <= i < |ids| ==>
               after[ids[i]] == Flush(before[ids[i]], before[ids[i]], FailedRow(cfg, before[ids[i]], STALLED, now), asOf)
    requires forall x :: x in before && x !in ids ==> after[x] == before[x]
    ensures after == ReapRows(cfg, before, ids, asOf, now)
  {
  }

  /** Claim up to `limit` due tasks: the whole transaction is the protocol's claim. */
  method ClaimDueTasks(db: Database, locked: set<Id>, limit: nat, asOf: Time) returns (claimed: seq<Id>)
    modifies db
    ensures OldestDue(old(db.rows), asOf, locked, limit, claimed)
    ensures db.rows == ClaimRows(old(db.rows), claimed, asOf) && db.gone == old(db.gone)
    ensures forall x :: x in claimed ==> x in old(db.rows) && old(db.rows)[x].status == Pending && old(db.rows)[x].scheduledAt <= asOf
    ensures forall i, j :: 0 <= i < j < |claimed| ==> old(db.rows)[claimed[i]].scheduledAt <= old(db.rows)[claimed[j]].scheduledAt
    ensures forall x :: x in old(db.rows) ==>
              x in db.rows && db.rows[x] == if x in claimed then old(db.rows)[x].(status := Running, updatedAt := asOf) else old(db.rows)[x]
  {
    claimed := db.SelectDue(asOf, locked, limit);
    var tasks := db.Load(claimed);
    ghost var before := db.rows;
    for k := 0 to |tasks|
      invariant forall i :: 0 <= i < k ==> tasks[i].Value() == tasks[i].loaded.(status := Running)
      invariant forall i :: k <= i < |tasks| ==> tasks[i].Value() == tasks[i].loaded
      modifies tasks
    {
      tasks[k].status := Running;
    }
    StoreAll(db, claimed, tasks, asOf);
    ClaimedRowByRow(before, db.rows, claimed, asOf);
  }

  lemma ClaimedRowByRow(before: Table, after: Table, ids: seq<Id>, asOf: Time)
    requires after.Keys == before.Keys
    requires forall i :: 0 <= i < |ids| ==> ids[i] in before && before[ids[i]].status == Pending
    requires forall i :: 0 <= i < |ids| ==>
               after[ids[i]] == Flush(before[ids[i]], before[ids[i]], before[ids[i]].(status := Running), asOf)
    requires forall x :: x in before && x !in ids ==> after[x] == before[x]
    ensures after == ClaimRows(before, ids, asOf)
  {
  }

  /** process_claimed_task: a session that guards, executes with nothing locked, and records. Other
      sessions change the database between the two methods. */
  class Execution {
    const id: Id
    var task: Task?

    constructor (id: Id)
      ensures this.id == id && task == null
    {
      this.id, task := id, null;
    }

    /** The guard: go on only with a running row, and keep the loaded object. */
    method Guard(db: Database) returns (go: bool)
      requires task == null
      modifies this
      ensures go <==> id in db.rows && db.rows[id].status == Running
      ensures if go then task != null && fresh(task) && task.id == id && task.loaded == task.Value() == db.rows[id] else task == null
    {
      go := id in db.rows && db.rows[id].status == Running;
      if go {
        task := new Task(id, db.rows[id]);
      }
    }

    /** The recording transaction. The session answers from the object it loaded in Guard; when the
        row is gone, or the database fails, the commit raises, by which time a failure has been
        counted. */
    method Record(db: Database, outcome: Outcome, cfg: Settings, now: Time, commits: bool, metrics: Metrics) returns (stored: bool)
      requires task != null && task.id == id && task.Value() == task.loaded
      modifies task, db, metrics
      ensures stored <==> commits && id in old(db.rows)
      ensures db.gone == old(db.gone) && task == old(task)
      ensures db.rows == if stored
                then old(db.rows)[id := Flush(old(db.rows)[id], task.loaded, Edited(cfg, task.loaded, outcome, now), now)]
                else old(db.rows)
      ensures metrics.counters ==
                if outcome.Failure? then Count(cfg, old(metrics.counters), task.loaded)
                else if stored then old(metrics.counters).(succeeded := old(metrics.counters).succeeded + 1)
                else old(metrics.counters)
    {
      match outcome {
        case Failure(error) =>
          ApplyFailure(task, error, cfg, now, metrics);
          stored := false;
          if commits { stored := db.Store(task, now); }
        case Success =>
          task.status := Succeeded;
          task.lastError := None;
          stored := false;
          if commits { stored := db.Store(task, now); }
          if stored {
            metrics.counters := metrics.counters.(succeeded := metrics.counters.succeeded + 1);
          }
      }
    }
  }

  /** Whatever other sessions do to the table while this one is not in a transaction: callers learn
      nothing about the outcome. */
  method OtherSessions(db: Database, metrics: Metrics)
    modifies db, metrics
  {
  }

  /** process_claimed_task from end to end. `found` and `counted` are the table and the counters found
      when the outcome is recorded: whatever the row has become by then, the columns the edits change
      are computed from the row as it was at the guard and written over it. */
  method ProcessClaimedTask(db: Database, id: Id, outcome: Outcome, cfg: Settings, now: Time, commits: bool, metrics: Metrics)
    returns (executed: bool, raised: bool, ghost found: Table, ghost counted: Counters)
    modifies db, metrics
    ensures executed <==> id in old(db.rows) && old(db.rows)[id].status == Running
    ensures !executed ==> db.rows == old(db.rows) && metrics.counters == old(metrics.counters) && !raised
    ensures executed ==>
              var loaded := old(db.rows)[id];
              && (raised <==> !commits || id !in found)
              && db.rows == (if raised then found
                             else found[id := Flush(found[id], loaded, Edited(cfg, loaded, outcome, now), now)])
              && metrics.counters == (if outcome.Failure? then Count(cfg, counted, loaded)
                                      else if raised then counted
                                      else counted.(succeeded := counted.succeeded + 1))
  {
    var session := new Execution(id);
    executed := session.Guard(db);
    raised, found, counted := false, db.rows, metrics.counters;
    if executed {
      OtherSessions(db, metrics);
      found, counted := db.rows, metrics.counters;
      var stored := session.Record(db, outcome, cfg, now, commits, metrics);
      raised := !stored;
    }
  }

  /** The start of run_once: reap, then claim, each in its own session and with its own reading of the
      clock; other sessions run in between. Seen from a protocol state with the table met, each of
      the two transactions is the protocol's step; `found` is the table the claim meets, and the ids
      returned are the batch the protocol then has to execute. */
  method ReapThenClaim(db: Database, cfg: Settings, lockedReap: set<Id>, lockedClaim: set<Id>,
                       reapAsOf: Time, reapNow: Time, claimAsOf: Time, claimNow: Time, metrics: Metrics)
    returns (claimed: seq<Id>, ghost reaped: seq<Id>, ghost left: Table, ghost counted: Counters, ghost found: Table)
    requires reapAsOf <= reapNow <= claimNow && claimNow - cfg.overhead <= claimAsOf <= claimNow
    modifies db, metrics
    ensures forall s: State :: s.table == old(db.rows) && s.counters == old(metrics.counters) && s.clock == reapNow ==>
              var a := Reap(reapAsOf, lockedReap, reaped);
              Enabled(cfg, s, a) && Apply(cfg, s, a).table == left && Apply(cfg, s, a).counters == counted
    ensures forall s: State :: s.table == found && s.clock == claimNow ==>
              var a := Claim(claimAsOf, lockedClaim, claimed);
              && Enabled(cfg, s, a) && Apply(cfg, s, a).table == db.rows
              && Apply(cfg, s, a).batches == s.batches + [Batch(claimAsOf, claimNow, claimed, 0, map[])]
  {
    var n;
    n, reaped := ReclaimStaleRunning(db, lockedReap, cfg, reapAsOf, reapNow, true, metrics);
    left, counted := db.rows, metrics.counters;
    OtherSessions(db, metrics);
    found := db.rows;
    claimed := ClaimDueTasks(db, lockedClaim, cfg.batchSize, claimAsOf);
  }
}
