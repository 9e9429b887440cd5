/** What every row looks like in a PATCH-free run under the timing hypothesis, and the course of a
    task that keeps failing. */
module Rows {
  import opened Tasks
  import opened Retry
  import opened Protocol
  import opened Ownership
  import opened Refinement

  /** The columns of a row agree with each other and with what happened to the task. */
  ghost predicate RowOk(cfg: Settings, now: Time, row: Row, life: Life) {
    && row.status != Failed
    && row.retryCount <= cfg.maxRetries
    && row.updatedAt <= now
    && (row.lastError.Some? ==> |row.lastError.value| <= MAX_ERROR_LENGTH)
    && (row.status == Dead ==> row.retryCount == cfg.maxRetries && row.lastError.Some?)
    && (row.status == Succeeded ==> row.lastError.None? && !row.forceFail)
    && (row.status == Pending || row.status == Running ==> (row.lastError.Some? <==> row.retryCount > 0))
    && life.claims == row.retryCount + (if row.status == Pending then 0 else 1)
    && life.failures == row.retryCount + (if row.status == Dead then 1 else 0)
    && row.createdAt == life.born
    && (life.claims == 0 ==> row.scheduledAt == life.notBefore)
    && Reached(row, life) >= life.notBefore
    && (life.failures > 0 ==>
          Reached(row, life) >= life.firstFailure + TotalBackoff(cfg.backoffBase, row.retryCount))
  }

  /** The instant before which the task cannot be in its present attempt. */
  function Reached(row: Row, life: Life): Time {
    match row.status
    case Pending => row.scheduledAt
    case Dead => life.lastFailure
    case _ => row.updatedAt
  }

  ghost predicate RowsOk(cfg: Settings, s: State) {
    forall x :: x in s.table ==> x in s.life && RowOk(cfg, s.clock, s.table[x], s.life[x])
  }

  lemma FailureKeepsRow(cfg: Settings, now: Time, row: Row, life: Life, error: string, stamp: Time)
    requires cfg.Valid() && RowOk(cfg, now, row, life) && row.status == Running && stamp <= now
    ensures RowOk(cfg, now, FailedRow(cfg, row, error, now).(updatedAt := stamp), Charged(life, now))
  {
  }

  lemma SuccessKeepsRow(cfg: Settings, now: Time, row: Row, life: Life)
    requires RowOk(cfg, now, row, life) && row.status == Running && !row.forceFail
    ensures RowOk(cfg, now, Edited(cfg, row, Success, now).(updatedAt := now), life)
  {
  }

  /** What an outcome does to the life of the task it is about. */
  lemma FinishLife(cfg: Settings, s: State, a: Action)
    requires Owned(s) && Enabled(cfg, s, a) && a.Finish?
    ensures var x, t := Holds(s, a.b, a.i), Apply(cfg, s, a);
      && t.clock == s.clock
      && t.life == (if a.outcome.Failure? && x in s.table && x in s.life then s.life[x := Charged(s.life[x], s.clock)] else s.life)
      && (x in s.table && a.outcome.Success? ==> !s.table[x].forceFail)
  {
    assert Slot(s, a.b, a.i) && Kept(s, a.b, a.i);
  }

  lemma RowsFinish(cfg: Settings, s: State, a: Action)
    requires cfg.Valid() && RowsOk(cfg, s) && Owned(s) && a.Finish? && Enabled(cfg, s, a)
    ensures RowsOk(cfg, Apply(cfg, s, a))
  {
    OutcomeIsNotStale(cfg, s, a);
    FinishLife(cfg, s, a);
    var x := Holds(s, a.b, a.i);
    if x in s.table {
      if a.outcome.Failure? {
        FailureKeepsRow(cfg, s.clock, s.table[x], s.life[x], a.outcome.error, s.clock);
      } else {
        SuccessKeepsRow(cfg, s.clock, s.table[x], s.life[x]);
      }
    }
  }

  lemma RowsReap(cfg: Settings, s: State, a: Action)
    requires cfg.Valid() && RowsOk(cfg, s) && a.Reap? && Enabled(cfg, s, a)
    ensures RowsOk(cfg, Apply(cfg, s, a))
  {
    forall x | x in s.table && x in a.ids
      ensures RowOk(cfg, s.clock, FailedRow(cfg, s.table[x], STALLED, s.clock).(updatedAt := a.asOf), Charged(s.life[x], s.clock))
    {
      FailureKeepsRow(cfg, s.clock, s.table[x], s.life[x], STALLED, a.asOf);
    }
  }

  /** Life is charged and counted by claims, reaps, outcomes and creates only. */
  lemma LifeFrame(cfg: Settings, s: State, a: Action)
    requires Enabled(cfg, s, a) && !a.Claim? && !a.Reap? && !a.Finish? && !a.Insert?
    ensures Apply(cfg, s, a).life == s.life
  {
  }

  lemma RowsWrite(cfg: Settings, s: State, a: Action)
    requires cfg.Valid() && RowsOk(cfg, s) && Enabled(cfg, s, a) && (a.Delete? || a.Insert?)
    ensures RowsOk(cfg, Apply(cfg, s, a))
  {
  }

  lemma RowsClaim(cfg: Settings, s: State, a: Action)
    requires cfg.Valid() && RowsOk(cfg, s) && Enabled(cfg, s, a) && a.Claim?
    ensures RowsOk(cfg, Apply(cfg, s, a))
  {
  }

  lemma RowsStep(cfg: Settings, s: State, a: Action)
    requires cfg.Valid() && RowsOk(cfg, s) && Owned(s) && Enabled(cfg, s, a) && NoPatch(s, a)
    ensures RowsOk(cfg, Apply(cfg, s, a))
  {
    if a.Finish? {
      RowsFinish(cfg, s, a);
    } else if a.Reap? {
      RowsReap(cfg, s, a);
    } else if a.Claim? {
      RowsClaim(cfg, s, a);
    } else if a.Delete? || a.Insert? {
      RowsWrite(cfg, s, a);
    } else {
      ClockMovesOn(cfg, s, a);
      LifeFrame(cfg, s, a);
      if Executes(a) { ExecutorWritesNothing(cfg, s, a); } else { TableFrame(cfg, s, a); }
    }
  }

  lemma {:induction false} RowsRun(cfg: Settings, s: State, acts: seq<Action>)
    requires cfg.Valid() && Safe(cfg, s) && RowsOk(cfg, s)
    requires Legal(cfg, s, acts) && Throughout(cfg, s, acts, NoPatch)
    ensures RowsOk(cfg, After(cfg, s, acts))
    decreases |acts|
  {
    if acts != [] {
      SafeStep(cfg, s, acts[0]);
      RowsStep(cfg, s, acts[0]);
      RowsRun(cfg, Apply(cfg, s, acts[0]), acts[1..]);
    }
  }

  /** Every row of every state a PATCH-free run reaches is consistent. */
  lemma ReachableRows(cfg: Settings, s: State, acts: seq<Action>, x: Id)
    requires cfg.Valid() && cfg.Exclusive() && Init(s)
    requires Legal(cfg, s, acts) && Throughout(cfg, s, acts, NoPatch) && x in After(cfg, s, acts).table
    ensures var t := After(cfg, s, acts); x in t.life && RowOk(cfg, t.clock, t.table[x], t.life[x])
    ensures var row := After(cfg, s, acts).table[x];
      && row.status != Failed && row.retryCount <= cfg.maxRetries
      && (row.status == Dead ==> row.retryCount == cfg.maxRetries && row.lastError.Some?)
      && (row.status == Succeeded ==> row.lastError.None?)
      && (row.status == Pending || row.status == Running ==> (row.lastError.Some? <==> row.retryCount > 0))
      && (row.lastError.Some? ==> |row.lastError.value| <= 1000)
  {
    RowsRun(cfg, s, acts);
  }

  /** Until it is first claimed a task stays as it was asked for: pending, due at the time its creator
      named or else at its insertion, without an error; and it says when it was inserted. */
  lemma UntouchedUntilClaimed(cfg: Settings, s: State, acts: seq<Action>, x: Id)
    requires cfg.Valid() && cfg.Exclusive() && Init(s)
    requires Legal(cfg, s, acts) && Throughout(cfg, s, acts, NoPatch) && x in After(cfg, s, acts).table
    ensures var t := After(cfg, s, acts); var row := t.table[x];
      && x in t.life && row.createdAt == t.life[x].born
      && (t.life[x].claims == 0 ==>
            row.status == Pending && row.retryCount == 0 && row.scheduledAt == t.life[x].notBefore && row.lastError == None)
  {
    ReachableRows(cfg, s, acts, x);
  }

  lemma RetryCountStep(cfg: Settings, s: State, a: Action, x: Id)
    requires Owned(s) && Enabled(cfg, s, a) && x in s.table && x in Apply(cfg, s, a).table
    ensures s.table[x].retryCount <= Apply(cfg, s, a).table[x].retryCount <= s.table[x].retryCount + 1
  {
    if a.Finish? { OutcomeIsNotStale(cfg, s, a); }
  }

  /** retry_count never falls. */
  lemma {:induction false} RetryCountNeverFalls(cfg: Settings, s: State, acts: seq<Action>, x: Id)
    requires Safe(cfg, s) && Apart(s) && Legal(cfg, s, acts) && Throughout(cfg, s, acts, SparesRunning)
    requires x in s.table && x in After(cfg, s, acts).table
    ensures s.table[x].retryCount <= After(cfg, s, acts).table[x].retryCount
    decreases |acts|
  {
    if acts != [] {
      var t := Apply(cfg, s, acts[0]);
      SafeStep(cfg, s, acts[0]);
      ApartStep(cfg, s, acts[0]);
      if x !in t.table { GoneStays(cfg, t, acts[1..], x); }
      RetryCountStep(cfg, s, acts[0], x);
      RetryCountNeverFalls(cfg, t, acts[1..], x);
    }
  }

  /** No task starts early: whatever a run claims is due, and no earlier than its creator asked. */
  lemma NeverEarly(cfg: Settings, s: State, acts: seq<Action>, a: Action, i: nat)
    requires cfg.Valid() && cfg.Exclusive() && Init(s)
    requires Legal(cfg, s, acts) && Throughout(cfg, s, acts, NoPatch)
    requires a.Claim? && Enabled(cfg, After(cfg, s, acts), a) && i < |a.ids|
    ensures var t := After(cfg, s, acts); a.ids[i] in t.life && t.life[a.ids[i]].notBefore <= a.asOf <= t.clock
  {
    ReachableRows(cfg, s, acts, a.ids[i]);
  }

  /** A task whose payload forces failure never succeeds, runs at most M + 1 times, and is dead
      exactly from its (M + 1)-th charged failure on, with retry_count M and no sooner than
      base * (2^M - 1) after its first failure. */
  lemma AlwaysFailing(cfg: Settings, s: State, acts: seq<Action>, x: Id)
    requires cfg.Valid() && cfg.Exclusive() && Init(s)
    requires Legal(cfg, s, acts) && Throughout(cfg, s, acts, NoPatch)
    requires x in After(cfg, s, acts).table && After(cfg, s, acts).table[x].forceFail
    ensures var t := After(cfg, s, acts); var row := t.table[x];
      && x in t.life
      && row.status in {Pending, Running, Dead}
      && t.life[x].claims <= cfg.maxRetries + 1
      && (row.status == Dead <==> t.life[x].failures == cfg.maxRetries + 1)
      && (row.status == Dead ==>
            && t.life[x].claims == cfg.maxRetries + 1
            && row.retryCount == cfg.maxRetries
            && t.life[x].lastFailure >= t.life[x].firstFailure + cfg.backoffBase * (Pow2(cfg.maxRetries) - 1))
  {
    RowsRun(cfg, s, acts);
    BackoffSum(cfg.backoffBase, cfg.maxRetries);
    var t := After(cfg, s, acts);
    assert RowOk(cfg, t.clock, t.table[x], t.life[x]);
  }
}
