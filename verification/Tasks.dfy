/** The task table of TaskPilot: its rows, the worker's settings, and what the two
    worker queries may select. */
module Tasks {

  type Id = nat
  type Time = int

  datatype Option<+T> = None | Some(value: T) {
    function GetOr(default: T): T {
      match this
      case Some(v) => v
      case None => default
    }
  }

  datatype Status = Pending | Running | Succeeded | Failed | Dead

  /** One row. `forceFail` is the only part of the payload that execution looks at. */
  datatype Row = Row(
    status: Status,
    retryCount: nat,
    scheduledAt: Time,
    createdAt: Time,
    updatedAt: Time,
    lastError: Option<string>,
    key: Option<string>,
    forceFail: bool)

  type Table = map<Id, Row>

  /** All durations are in the unit of the clock. `overhead` bounds how long a short transaction of
      the worker takes: a claim from the start of its transaction, which stamps `updatedAt`, to the
      moment its batch is dispatched, and likewise a reap. */
  datatype Settings = Settings(
    batchSize: nat,
    concurrency: int,
    executionTimeout: nat,
    staleTimeout: nat,
    maxRetries: nat,
    backoffBase: nat,
    overhead: nat)
  {
    predicate Valid() { batchSize >= 1 && backoffBase >= 1 }

    /** Semaphore slots: max(1, worker_concurrency). */
    function Slots(): (c: nat)
      ensures c >= 1 && c >= concurrency && (c == 1 || c == concurrency)
    {
      if concurrency < 1 then 1 else concurrency
    }

    /** How many rounds of the semaphore n tasks need: n over the slots, rounded up. */
    function Waves(n: nat): nat { (n + Slots() - 1) / Slots() }

    /** The longest a claimed row can stay with its executor. */
    function Span(): nat { overhead + Waves(batchSize) * executionTimeout }

    /** The longest a claimed row can wait for a slot. */
    function QueueTime(): nat { (if batchSize == 0 then 0 else (batchSize - 1) / Slots()) * executionTimeout }

    /** The reaper's timeout outlasts every executor. */
    predicate Exclusive() { Span() <= staleTimeout }

    /** A row that the reaper takes from an attempt comes due again after `backoffBase` at the
        soonest. Neither half of an attempt, the wait for a slot and the execution, can last that
        long and still be under way by then. */
    predicate NeverTwice() {
      || maxRetries == 0
      || (&& (executionTimeout < backoffBase || Span() <= staleTimeout + backoffBase)
          && (QueueTime() < backoffBase || overhead + QueueTime() <= staleTimeout + backoffBase))
    }
  }

  predicate Due(row: Row, asOf: Time) {
    row.status == Pending && row.scheduledAt <= asOf
  }

  predicate Stale(row: Row, asOf: Time, limit: nat) {
    row.status == Running && row.updatedAt < asOf - limit
  }

  ghost predicate Distinct(ids: seq<Id>) {
    forall i, j :: 0 <= i < j < |ids| ==> ids[i] != ids[j]
  }

  /** The claim query: the oldest `limit` due rows among those not locked, oldest first. */
  ghost predicate OldestDue(t: Table, asOf: Time, locked: set<Id>, limit: nat, ids: seq<Id>) {
    && Distinct(ids) && |ids| <= limit
    && (forall i :: 0 <= i < |ids| ==> ids[i] in t && ids[i] !in locked && Due(t[ids[i]], asOf))
    && (forall i, j :: 0 <= i < j < |ids| ==> t[ids[i]].scheduledAt <= t[ids[j]].scheduledAt)
    && (forall y :: y in t && y !in locked && Due(t[y], asOf) && y !in ids ==>
          |ids| == limit && forall i :: 0 <= i < |ids| ==> t[ids[i]].scheduledAt <= t[y].scheduledAt)
  }

  /** The reaper's query: up to `limit` stale rows among those not locked, in any order. */
  ghost predicate SomeStale(t: Table, asOf: Time, age: nat, locked: set<Id>, limit: nat, ids: seq<Id>) {
    && Distinct(ids) && |ids| <= limit
    && (forall i :: 0 <= i < |ids| ==> ids[i] in t && ids[i] !in locked && Stale(t[ids[i]], asOf, age))
    && (forall y :: y in t && y !in locked && Stale(t[y], asOf, age) && y !in ids ==> |ids| == limit)
  }

  /* Selections exist: each query has an answer in every state. */

  lemma {:induction false} EarliestOf(t: Table, xs: set<Id>) returns (x: Id)
    requires xs != {} && xs <= t.Keys
    ensures x in xs && forall y :: y in xs ==> t[x].scheduledAt <= t[y].scheduledAt
    decreases |xs|
  {
    x :| x in xs;
    if xs != {x} {
      assert |xs - {x}| < |xs| && xs - {x} != {};
      var y := EarliestOf(t, xs - {x});
      if t[y].scheduledAt < t[x].scheduledAt { x := y; }
    }
  }

  lemma {:induction false} OldestDueExists(t: Table, asOf: Time, limit: nat) returns (ids: seq<Id>)
    ensures OldestDue(t, asOf, {}, limit, ids)
    decreases limit
  {
    ids := [];
    if limit > 0 {
      ids := OldestDueExists(t, asOf, limit - 1);
      var rest := set y | y in t && Due(t[y], asOf) && y !in ids;
      if rest != {} {
        var x := EarliestOf(t, rest);
        ids := ids + [x];
      }
    }
  }

  lemma {:induction false} SomeStaleExists(t: Table, asOf: Time, age: nat, limit: nat) returns (ids: seq<Id>)
    ensures SomeStale(t, asOf, age, {}, limit, ids)
    decreases limit
  {
    ids := [];
    if limit > 0 {
      ids := SomeStaleExists(t, asOf, age, limit - 1);
      if y :| y in t && Stale(t[y], asOf, age) && y !in ids {
        ids := ids + [y];
      }
    }
  }
}
