/** No job is silently lost: with a worker that keeps polling, every task is succeeded or dead
    within an explicit time. */
module Drain {
  import opened Tasks
  import opened Retry
  import opened Protocol
  import opened Ownership
  import opened Measure
  import opened Pacing
  import opened Rows

  predicate Unfinished(st: Status) { st == Pending || st == Running }

  /** Neither a create nor a PATCH. */
  predicate WorkerOrDelete(a: Action) { !a.Patch? && !a.Insert? }

  predicate WorkersOnly(ms: seq<Move>) { forall m :: m in ms ==> WorkerOrDelete(m.a) }

  /** The longest time in which nothing need happen to an unfinished row. */
  function Window(cfg: Settings, period: nat): nat {
    period + cfg.overhead + if LongestBackoff(cfg) < cfg.staleTimeout then cfg.staleTimeout else LongestBackoff(cfg)
  }

  /** The next poll comes by then, or another transaction has the row in hand and moves it soon after. */
  ghost predicate Comes(cfg: Settings, p: Paced, x: Id, pollBy: Time, end: Time) {
    pollBy <= end || (x in p.owed && p.owed[x] <= end + cfg.overhead)
  }

  /** Seen from u, the last time a worker moved a row: what row x is waiting for comes soon. */
  ghost predicate AwaitedRow(cfg: Settings, period: nat, p: Paced, u: Time, x: Id)
    requires x in p.s.table
  {
    var row := p.s.table[x];
    && row.status != Failed
    && (row.status == Running ==> row.updatedAt <= u && Comes(cfg, p, x, p.reapBy, u + cfg.staleTimeout + period))
    && (row.status == Pending ==>
          row.scheduledAt <= u + LongestBackoff(cfg) && Comes(cfg, p, x, p.claimBy, u + LongestBackoff(cfg) + period))
  }

  ghost predicate Awaited(cfg: Settings, period: nat, p: Paced, u: Time) {
    forall x :: x in p.s.table ==> AwaitedRow(cfg, period, p, u, x)
  }

  /** Any move resets the wait: the next polls are never further off than a period. */
  lemma JustMoved(cfg: Settings, period: nat, q: Paced, u: Time)
    requires OnTime(cfg, period, q) && q.s.clock <= u
    requires forall x :: x in q.s.table ==>
               && q.s.table[x].status != Failed
               && (q.s.table[x].status == Running ==> q.s.table[x].updatedAt <= u)
               && (q.s.table[x].status == Pending ==> q.s.table[x].scheduledAt <= u + LongestBackoff(cfg))
    ensures Awaited(cfg, period, q, u)
  {
  }

  /** Where the rows stand after a step, seen from its instant. */
  ghost predicate Fresh(cfg: Settings, t: Table, u: Time) {
    forall x :: x in t ==>
      && t[x].status != Failed
      && (t[x].status == Running ==> t[x].updatedAt <= u)
      && (t[x].status == Pending ==> t[x].scheduledAt <= u + LongestBackoff(cfg))
  }

  lemma FinishFresh(cfg: Settings, s: State, a: Action, u: Time)
    requires cfg.Valid() && Owned(s) && Enabled(cfg, s, a) && a.Finish? && Fresh(cfg, s.table, u) && s.clock <= u
    ensures Fresh(cfg, Apply(cfg, s, a).table, u)
  {
    OutcomeIsNotStale(cfg, s, a);
    var x := Holds(s, a.b, a.i);
    if x in s.table && a.outcome.Failure? {
      FailureOutcomes(cfg, s.table[x], a.outcome.error, s.clock);
    }
  }

  lemma ReapFresh(cfg: Settings, s: State, a: Action, u: Time)
    requires cfg.Valid() && Enabled(cfg, s, a) && a.Reap? && Fresh(cfg, s.table, u) && s.clock <= u
    ensures Fresh(cfg, Apply(cfg, s, a).table, u)
  {
    forall x | x in s.table && x in a.ids
      ensures var r := FailedRow(cfg, s.table[x], STALLED, s.clock);
        (r.status == Dead || r.status == Pending) && (r.status == Pending ==> r.scheduledAt <= s.clock + LongestBackoff(cfg))
    {
      FailureOutcomes(cfg, s.table[x], STALLED, s.clock);
    }
  }

  lemma ClaimFresh(cfg: Settings, s: State, a: Action, u: Time)
    requires cfg.Valid() && Enabled(cfg, s, a) && a.Claim? && Fresh(cfg, s.table, u) && s.clock <= u
    ensures Fresh(cfg, Apply(cfg, s, a).table, u)
  {
  }

  lemma MoveAwaited(cfg: Settings, period: nat, p: Paced, m: Move, u: Time)
    requires cfg.Valid() && Owned(p.s) && OnTime(cfg, period, p) && May(cfg, p, m)
    requires Awaited(cfg, period, p, u) && (m.a.Claim? || m.a.Reap? || m.a.Finish?)
    ensures Awaited(cfg, period, Step(cfg, period, p, m), Later(u, p.s.clock))
  {
    var v := Later(u, p.s.clock);
    OnTimeStep(cfg, period, p, m);
    ClockMovesOn(cfg, p.s, m.a);
    assert Fresh(cfg, p.s.table, v) by { assert forall x :: x in p.s.table ==> AwaitedRow(cfg, period, p, u, x); }
    if m.a.Finish? {
      FinishFresh(cfg, p.s, m.a, v);
    } else if m.a.Reap? {
      ReapFresh(cfg, p.s, m.a, v);
    } else {
      ClaimFresh(cfg, p.s, m.a, v);
    }
    assert Fresh(cfg, Apply(cfg, p.s, m.a).table, v);
    JustMoved(cfg, period, Step(cfg, period, p, m), v);
  }

  /** A poll that takes nothing leaves the table as it is. */
  lemma EmptyPollTable(cfg: Settings, s: State, a: Action)
    requires Enabled(cfg, s, a) && (a.Claim? || a.Reap?) && a.ids == []
    ensures Apply(cfg, s, a).table == s.table
  {
  }

  /** It shows that a row was not due, or stale, when it looked, or else locked: then it is owed. */
  lemma EmptyPollRow(cfg: Settings, period: nat, p: Paced, m: Move, u: Time, x: Id)
    requires cfg.Valid() && OnTime(cfg, period, p) && May(cfg, p, m) && x in p.s.table && AwaitedRow(cfg, period, p, u, x)
    requires m.Poll? && m.a.ids == []
    ensures var q := Step(cfg, period, p, m); x in q.s.table && AwaitedRow(cfg, period, q, u, x)
  {
    EmptyPollTable(cfg, p.s, m.a);
    var q := Step(cfg, period, p, m);
    if x in Skips(cfg, p.s, m.a) && x !in p.owed {
      assert q.owed[x] == p.s.clock + cfg.overhead;
    }
  }

  /** A step that leaves the row alone and is no poll leaves its wait alone. */
  lemma IdleRow(cfg: Settings, period: nat, p: Paced, m: Move, u: Time, x: Id)
    requires May(cfg, p, m) && x in p.s.table && AwaitedRow(cfg, period, p, u, x) && m.Do?
    requires x in Apply(cfg, p.s, m.a).table && Apply(cfg, p.s, m.a).table[x] == p.s.table[x]
    ensures AwaitedRow(cfg, period, Step(cfg, period, p, m), u, x)
  {
  }

  /** A step that moves no row leaves those there alone. */
  lemma IdleTable(cfg: Settings, s: State, a: Action, x: Id)
    requires Owned(s) && Enabled(cfg, s, a) && WorkerOrDelete(a) && Moved(s, a) == 0 && x in Apply(cfg, s, a).table
    ensures x in s.table && Apply(cfg, s, a).table[x] == s.table[x]
  {
    if a.Claim? || a.Reap? {
      EmptyPollTable(cfg, s, a);
    } else if a.Finish? {
      FinishFrame(cfg, s, a);
    } else if Executes(a) {
      ExecutorWritesNothing(cfg, s, a);
    } else if !a.Delete? {
      TableFrame(cfg, s, a);
    }
  }

  lemma IdleAwaited(cfg: Settings, period: nat, p: Paced, m: Move, u: Time)
    requires cfg.Valid() && Owned(p.s) && OnTime(cfg, period, p) && May(cfg, p, m) && Awaited(cfg, period, p, u)
    requires WorkerOrDelete(m.a) && Moved(p.s, m.a) == 0
    ensures Awaited(cfg, period, Step(cfg, period, p, m), u)
  {
    var q := Step(cfg, period, p, m);
    forall x | x in q.s.table ensures AwaitedRow(cfg, period, q, u, x) {
      IdleTable(cfg, p.s, m.a, x);
      if m.Poll? { EmptyPollRow(cfg, period, p, m, u, x); } else { IdleRow(cfg, period, p, m, u, x); }
    }
  }

  ghost predicate Draining(p: Paced) {
    exists x :: x in p.s.table && Unfinished(p.s.table[x].status)
  }

  /** While work is left, the clock is at most one window past the last move. */
  lemma WithinWindow(cfg: Settings, period: nat, p: Paced, u: Time)
    requires OnTime(cfg, period, p) && Awaited(cfg, period, p, u) && Draining(p)
    ensures p.s.clock <= u + Window(cfg, period) && WorkLeft(cfg, p.s) >= 1
  {
    var x :| x in p.s.table && Unfinished(p.s.table[x].status);
    assert AwaitedRow(cfg, period, p, u, x);
    UnfinishedWeighs(cfg, p.s, x);
  }

  /** A step that moves rows moves unfinished ones. */
  lemma MovesUnfinished(cfg: Settings, s: State, a: Action)
    requires Owned(s) && Enabled(cfg, s, a) && Moved(s, a) > 0
    ensures exists x :: x in s.table && Unfinished(s.table[x].status)
  {
    if a.Finish? {
      OutcomeIsNotStale(cfg, s, a);
      assert Unfinished(s.table[Holds(s, a.b, a.i)].status);
    } else {
      assert Unfinished(s.table[a.ids[0]].status);
    }
  }

  lemma DrainStep(cfg: Settings, period: nat, p: Paced, m: Move, u: Time) returns (v: Time)
    requires cfg.Valid() && Safe(cfg, p.s) && OnTime(cfg, period, p) && Awaited(cfg, period, p, u)
    requires May(cfg, p, m) && WorkerOrDelete(m.a)
    ensures var q := Step(cfg, period, p, m);
      && Safe(cfg, q.s) && OnTime(cfg, period, q) && Awaited(cfg, period, q, v)
      && WorkLeft(cfg, q.s) <= WorkLeft(cfg, p.s)
      && (v == u || (WorkLeft(cfg, q.s) < WorkLeft(cfg, p.s) && v <= u + Window(cfg, period)))
  {
    SafeStep(cfg, p.s, m.a);
    StepWork(cfg, p.s, m.a);
    OnTimeStep(cfg, period, p, m);
    v := u;
    if Moved(p.s, m.a) > 0 {
      MoveAwaited(cfg, period, p, m, u);
      v := Later(u, p.s.clock);
      assert Draining(p) by { MovesUnfinished(cfg, p.s, m.a); }
      WithinWindow(cfg, period, p, u);
    } else {
      IdleAwaited(cfg, period, p, m, u);
    }
  }

  lemma WindowsLeft(m: nat, n: nat, w: nat)
    requires m < n
    ensures m * w + w <= n * w
  {
    assert n * w == (m + 1) * w + (n - m - 1) * w;
  }

  /** So many windows. */
  function Windows(n: nat, w: nat): nat { n * w }

  lemma WindowsMonotone(m: nat, n: nat, w: nat)
    ensures m <= n ==> Windows(m, w) <= Windows(n, w)
    ensures m < n ==> Windows(m, w) + w <= Windows(n, w)
  {
    if m <= n { ScaleMonotone(w, m, n); }
    if m < n { WindowsLeft(m, n, w); }
  }

  lemma {:induction false} DrainRun(cfg: Settings, period: nat, p: Paced, ms: seq<Move>, u: Time) returns (v: Time)
    requires cfg.Valid() && Safe(cfg, p.s) && OnTime(cfg, period, p) && Awaited(cfg, period, p, u)
    requires LegalPaced(cfg, period, p, ms) && WorkersOnly(ms)
    ensures var q := AfterPaced(cfg, period, p, ms);
      && Awaited(cfg, period, q, v)
      && (Draining(q) ==> q.s.clock <= u + Windows(WorkLeft(cfg, p.s), Window(cfg, period)))
    decreases |ms|
  {
    v := u;
    if ms == [] {
      if Draining(p) {
        WithinWindow(cfg, period, p, u);
        WindowsMonotone(1, WorkLeft(cfg, p.s), Window(cfg, period));
      }
    } else {
      var q := Step(cfg, period, p, ms[0]);
      var next := DrainStep(cfg, period, p, ms[0], u);
      v := DrainRun(cfg, period, q, ms[1..], next);
      WindowsMonotone(WorkLeft(cfg, q.s), WorkLeft(cfg, p.s), Window(cfg, period));
    }
  }

  /** Where a drain may begin: on time, nothing `failed`, and t0 no earlier than now, than any task's
      scheduled time and than the last change of any row. */
  ghost predicate DrainsFrom(cfg: Settings, period: nat, p: Paced, t0: Time) {
    && Safe(cfg, p.s) && OnTime(cfg, period, p) && p.s.clock <= t0
    && forall x :: x in p.s.table ==>
         p.s.table[x].status != Failed && p.s.table[x].updatedAt <= t0 && p.s.table[x].scheduledAt <= t0
  }

  /** When everything has ended: t0 and one window for every unit of work left. */
  ghost function DrainedBy(cfg: Settings, period: nat, s: State, t0: Time): Time {
    t0 + Windows(WorkLeft(cfg, s), Window(cfg, period))
  }

  /** From any safe state without `failed` rows, with no further creates and PATCHes, every row that is
      not deleted is succeeded or dead once the clock is past
      t0 + (work left) * (period + overhead + max(longest backoff, stale timeout)).
      Crashes, lost executors, failed commits, deletes and any number of further workers are allowed;
      a poll may skip rows that other transactions have locked and then move. */
  lemma EveryTaskEnds(cfg: Settings, period: nat, p: Paced, ms: seq<Move>, t0: Time)
    requires cfg.Valid() && DrainsFrom(cfg, period, p, t0) && LegalPaced(cfg, period, p, ms) && WorkersOnly(ms)
    requires AfterPaced(cfg, period, p, ms).s.clock > DrainedBy(cfg, period, p.s, t0)
    ensures var t := AfterPaced(cfg, period, p, ms).s.table;
      forall x :: x in t ==> t[x].status == Succeeded || t[x].status == Dead
  {
    JustMoved(cfg, period, p, t0);
    var v := DrainRun(cfg, period, p, ms, t0);
    AllEnded(cfg, period, AfterPaced(cfg, period, p, ms), v);
  }

  lemma AllEnded(cfg: Settings, period: nat, q: Paced, v: Time)
    requires Awaited(cfg, period, q, v) && !Draining(q)
    ensures forall x :: x in q.s.table ==> q.s.table[x].status == Succeeded || q.s.table[x].status == Dead
  {
    forall x | x in q.s.table ensures q.s.table[x].status == Succeeded || q.s.table[x].status == Dead {
      assert AwaitedRow(cfg, period, q, v, x) && !Unfinished(q.s.table[x].status);
    }
  }

  /** A task that always fails is dead by then, after exactly M + 1 executions. */
  lemma FailingTaskIsBuried(cfg: Settings, period: nat, p: Paced, ms: seq<Move>, t0: Time, x: Id)
    requires cfg.Valid() && DrainsFrom(cfg, period, p, t0) && RowsOk(cfg, p.s)
    requires LegalPaced(cfg, period, p, ms) && WorkersOnly(ms)
    requires AfterPaced(cfg, period, p, ms).s.clock > DrainedBy(cfg, period, p.s, t0)
    requires var t := AfterPaced(cfg, period, p, ms).s.table; x in t && t[x].forceFail
    ensures var t := AfterPaced(cfg, period, p, ms).s;
      t.table[x].status == Dead && x in t.life && t.life[x].claims == cfg.maxRetries + 1
  {
    EveryTaskEnds(cfg, period, p, ms, t0);
    PacedIsLegal(cfg, period, p, ms);
    forall a | a in Actions(ms) ensures WorkerOrDelete(a) {
      var i :| 0 <= i < |ms| && Actions(ms)[i] == a;
      assert ms[i] in ms;
    }
    WorkersDoNotPatch(cfg, p.s, Actions(ms));
    RowsRun(cfg, p.s, Actions(ms));
  }

  lemma {:induction false} WorkersDoNotPatch(cfg: Settings, s: State, acts: seq<Action>)
    requires Legal(cfg, s, acts) && forall a :: a in acts ==> WorkerOrDelete(a)
    ensures Throughout(cfg, s, acts, NoPatch)
    decreases |acts|
  {
    if acts != [] {
      assert WorkerOrDelete(acts[0]) && NoPatch(s, acts[0]);
      WorkersDoNotPatch(cfg, Apply(cfg, s, acts[0]), acts[1..]);
    }
  }
}
