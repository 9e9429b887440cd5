/** When two executors can work on one row. The reaper takes a row, which comes due again after its
    backoff and is claimed once more; the first attempt must still be waiting for its slot by then,
    or still be executing. If it got its slot in between, the guard found the row pending. */
module DoubleRun {
  import opened Tasks
  import opened Retry
  import opened Protocol
  import opened Ownership
  import opened Threshold

  /* No two attempts on one row */

  /** What an attempt claimed at `claimedAt`, waiting or executing since `since`, knows of its row. */
  ghost predicate Fits(cfg: Settings, claimedAt: Time, since: Time, row: Row) {
    && row.status != Failed && row.updatedAt >= claimedAt
    && (row.status == Pending ==>
          && cfg.maxRetries > 0
          && row.scheduledAt > claimedAt + cfg.staleTimeout + cfg.backoffBase
          && row.scheduledAt >= since + cfg.backoffBase)
  }

  /** When the present half of an attempt began: its wait at the claim, its execution at the guard. */
  function Since(batch: Batch, i: nat): Time {
    if i in batch.live then batch.live[i].start else batch.formedAt
  }

  ghost predicate FitsSlot(cfg: Settings, s: State, b: nat, i: nat)
    requires Slot(s, b, i)
  {
    var x := Holds(s, b, i);
    && (x in s.table || x in s.gone)
    && (x in s.table ==> Fits(cfg, s.batches[b].claimedAt, Since(s.batches[b], i), s.table[x]))
  }

  /** Every row has at most one attempt waiting or executing. */
  ghost predicate OneAttemptPerRow(s: State) {
    forall b, i, c, j :: Slot(s, b, i) && Slot(s, c, j) && Holds(s, b, i) == Holds(s, c, j) ==> b == c && i == j
  }

  ghost predicate Lone(cfg: Settings, s: State) {
    && AllTimely(cfg, s)
    && (forall b, i :: Slot(s, b, i) ==> FitsSlot(cfg, s, b, i))
    && OneAttemptPerRow(s)
  }

  lemma ReapedFits(cfg: Settings, claimedAt: Time, since: Time, row: Row, asOf: Time, now: Time)
    requires cfg.Valid() && Fits(cfg, claimedAt, since, row) && Stale(row, asOf, cfg.staleTimeout) && asOf <= now && since <= now
    ensures Fits(cfg, claimedAt, since, FailedRow(cfg, row, STALLED, now).(updatedAt := asOf))
  {
    if row.retryCount < cfg.maxRetries {
      ScaleMonotone(cfg.backoffBase, 1, Pow2(row.retryCount));
    }
  }

  /** A row does not come due again while an attempt on it is under way. */
  lemma NotDueWhileHeld(cfg: Settings, s: State, b: nat, i: nat)
    requires cfg.Valid() && cfg.NeverTwice() && Lone(cfg, s) && Slot(s, b, i) && Holds(s, b, i) in s.table
    ensures !Due(s.table[Holds(s, b, i)], s.clock)
  {
    assert FitsSlot(cfg, s, b, i) && Timely(cfg, s.clock, s.batches[b]);
    ActiveByHalf(cfg, s.clock, s.batches[b], i);
    QueueTimeIs(cfg);
  }

  lemma ClaimTakesUnheld(cfg: Settings, s: State, a: Action, b: nat, i: nat)
    requires cfg.Valid() && cfg.NeverTwice() && Lone(cfg, s) && Enabled(cfg, s, a) && a.Claim? && Slot(s, b, i)
    ensures Holds(s, b, i) !in a.ids
  {
    forall x | x in a.ids ensures x in s.table && Due(s.table[x], s.clock) {}
    if Holds(s, b, i) in s.table { NotDueWhileHeld(cfg, s, b, i); }
  }

  lemma LoneClaim(cfg: Settings, s: State, a: Action)
    requires cfg.Valid() && cfg.NeverTwice() && Lone(cfg, s) && Enabled(cfg, s, a) && a.Claim?
    ensures Lone(cfg, Apply(cfg, s, a))
  {
    var t := Apply(cfg, s, a);
    TimelyStep(cfg, s, a);
    forall b: nat, i: nat | Slot(t, b, i) ensures FitsSlot(cfg, t, b, i) { ClaimFits(cfg, s, a, b, i); }
    forall b: nat, i: nat, c: nat, j: nat | Slot(t, b, i) && Slot(t, c, j) && Holds(t, b, i) == Holds(t, c, j)
      ensures b == c && i == j
    {
      SlotsAfterClaim(cfg, s, a, b, i);
      SlotsAfterClaim(cfg, s, a, c, j);
      if b < |s.batches| { ClaimTakesUnheld(cfg, s, a, b, i); }
      if c < |s.batches| { ClaimTakesUnheld(cfg, s, a, c, j); }
    }
  }

  lemma ClaimFits(cfg: Settings, s: State, a: Action, b: nat, i: nat)
    requires cfg.Valid() && cfg.NeverTwice() && Lone(cfg, s) && Enabled(cfg, s, a) && a.Claim? && Slot(Apply(cfg, s, a), b, i)
    ensures FitsSlot(cfg, Apply(cfg, s, a), b, i)
  {
    SlotsAfterClaim(cfg, s, a, b, i);
    if b < |s.batches| {
      ClaimTakesUnheld(cfg, s, a, b, i);
      assert FitsSlot(cfg, s, b, i);
    }
  }

  /** The guard lets only a running row pass, so an execution begins with nothing to wait for. */
  lemma LoneDispatch(cfg: Settings, s: State, b: nat)
    requires Lone(cfg, s) && Enabled(cfg, s, Dispatch(b))
    ensures Lone(cfg, Apply(cfg, s, Dispatch(b)))
  {
    var t := Apply(cfg, s, Dispatch(b));
    TimelyStep(cfg, s, Dispatch(b));
    ExecutorFrame(cfg, s, Dispatch(b));
    ExecutorWritesNothing(cfg, s, Dispatch(b));
    forall c: nat, j: nat | Slot(t, c, j)
      ensures Slot(s, c, j) && Holds(t, c, j) == Holds(s, c, j) && FitsSlot(cfg, t, c, j)
    {
      assert Slot(s, c, j) && FitsSlot(cfg, s, c, j);
    }
  }

  /** Steps that end attempts and otherwise leave their rows as they fit. */
  lemma LoneFewer(cfg: Settings, s: State, t: State)
    requires Lone(cfg, s) && AllTimely(cfg, t)
    requires forall b: nat, i: nat :: Slot(t, b, i) ==>
               && Slot(s, b, i) && Holds(t, b, i) == Holds(s, b, i)
               && Since(t.batches[b], i) == Since(s.batches[b], i) && t.batches[b].claimedAt == s.batches[b].claimedAt
    requires forall x :: x in s.table || x in s.gone ==> x in t.table || x in t.gone
    requires forall b: nat, i: nat :: Slot(t, b, i) && Holds(s, b, i) in t.table ==>
               && Holds(s, b, i) in s.table
               && (Fits(cfg, s.batches[b].claimedAt, Since(s.batches[b], i), s.table[Holds(s, b, i)]) ==>
                     Fits(cfg, s.batches[b].claimedAt, Since(s.batches[b], i), t.table[Holds(s, b, i)]))
    ensures Lone(cfg, t)
  {
    forall b: nat, i: nat | Slot(t, b, i) ensures FitsSlot(cfg, t, b, i) { assert FitsSlot(cfg, s, b, i); }
  }

  lemma SlotsOfLone(cfg: Settings, s: State, a: Action, b: nat, i: nat)
    requires Lone(cfg, s) && Enabled(cfg, s, a) && (a.Finish? || a.Lose? || a.Crash?) && Slot(Apply(cfg, s, a), b, i)
    ensures var t := Apply(cfg, s, a);
      && Slot(s, b, i) && Holds(t, b, i) == Holds(s, b, i) && Since(t.batches[b], i) == Since(s.batches[b], i)
      && t.batches[b].claimedAt == s.batches[b].claimedAt
      && (a.Finish? ==> Holds(s, b, i) != Holds(s, a.b, a.i))
  {
    ExecutorFrame(cfg, s, a);
    assert !a.Crash? ==> Timely(cfg, s.clock, s.batches[a.b]);
    if a.Finish? { assert Slot(s, a.b, a.i) && Slot(s, b, i); }
  }

  lemma LoneEnd(cfg: Settings, s: State, a: Action)
    requires Lone(cfg, s) && Enabled(cfg, s, a) && (a.Finish? || a.Lose? || a.Crash?)
    ensures Lone(cfg, Apply(cfg, s, a))
  {
    var t := Apply(cfg, s, a);
    TimelyStep(cfg, s, a);
    if a.Finish? { FinishFrame(cfg, s, a); } else { ExecutorWritesNothing(cfg, s, a); }
    forall b: nat, i: nat | Slot(t, b, i)
      ensures Slot(s, b, i) && Holds(t, b, i) == Holds(s, b, i) && Since(t.batches[b], i) == Since(s.batches[b], i)
      ensures t.batches[b].claimedAt == s.batches[b].claimedAt && (a.Finish? ==> Holds(s, b, i) != Holds(s, a.b, a.i))
    {
      SlotsOfLone(cfg, s, a, b, i);
    }
    LoneFewer(cfg, s, t);
  }

  lemma LoneSameBatches(cfg: Settings, s: State, t: State)
    requires Lone(cfg, s) && t.batches == s.batches && t.clock == s.clock
    requires forall b: nat, i: nat :: Slot(s, b, i) ==> Slot(t, b, i) && FitsSlot(cfg, t, b, i)
    ensures Lone(cfg, t)
  {
    assert forall b: nat, i: nat :: Slot(t, b, i) ==> Slot(s, b, i) && Holds(t, b, i) == Holds(s, b, i);
  }

  lemma ReapFits(cfg: Settings, s: State, a: Action, b: nat, i: nat)
    requires cfg.Valid() && Lone(cfg, s) && Enabled(cfg, s, a) && a.Reap? && Slot(s, b, i)
    ensures Slot(Apply(cfg, s, a), b, i) && FitsSlot(cfg, Apply(cfg, s, a), b, i)
  {
    ReapShape(cfg, s, a);
    assert FitsSlot(cfg, s, b, i) && Timely(cfg, s.clock, s.batches[b]);
    var batch, x := s.batches[b], Holds(s, b, i);
    if x in a.ids {
      ReapedFits(cfg, batch.claimedAt, Since(batch, i), s.table[x], a.asOf, s.clock);
    }
  }

  lemma WriteFits(cfg: Settings, s: State, a: Action, b: nat, i: nat)
    requires Lone(cfg, s) && Enabled(cfg, s, a) && SparesRunning(s, a) && (a.Patch? || a.Delete? || a.Insert?) && Slot(s, b, i)
    ensures Slot(Apply(cfg, s, a), b, i) && FitsSlot(cfg, Apply(cfg, s, a), b, i)
  {
    BatchesFrame(cfg, s, a);
    assert FitsSlot(cfg, s, b, i) && Timely(cfg, s.clock, s.batches[b]);
  }

  lemma LoneTable(cfg: Settings, s: State, a: Action)
    requires cfg.Valid() && Lone(cfg, s) && Enabled(cfg, s, a) && SparesRunning(s, a)
    requires a.Reap? || a.Patch? || a.Delete? || a.Insert?
    ensures Lone(cfg, Apply(cfg, s, a))
  {
    BatchesFrame(cfg, s, a);
    forall b: nat, i: nat | Slot(s, b, i) ensures Slot(Apply(cfg, s, a), b, i) && FitsSlot(cfg, Apply(cfg, s, a), b, i) {
      if a.Reap? { ReapFits(cfg, s, a, b, i); } else { WriteFits(cfg, s, a, b, i); }
    }
    LoneSameBatches(cfg, s, Apply(cfg, s, a));
  }

  lemma LoneStep(cfg: Settings, s: State, a: Action)
    requires cfg.Valid() && cfg.NeverTwice() && Lone(cfg, s) && Enabled(cfg, s, a) && SparesRunning(s, a)
    ensures Lone(cfg, Apply(cfg, s, a))
  {
    if a.Claim? {
      LoneClaim(cfg, s, a);
    } else if a.Dispatch? {
      LoneDispatch(cfg, s, a.b);
    } else if Executes(a) {
      LoneEnd(cfg, s, a);
    } else if a.Reap? || a.Patch? || a.Delete? || a.Insert? {
      LoneTable(cfg, s, a);
    } else {
      TimelyStep(cfg, s, a);
      TableFrame(cfg, s, a);
      BatchesFrame(cfg, s, a);
      LoneFewer(cfg, s, Apply(cfg, s, a));
    }
  }

  lemma {:induction false} LoneRun(cfg: Settings, s: State, acts: seq<Action>)
    requires cfg.Valid() && cfg.NeverTwice() && Lone(cfg, s)
    requires Legal(cfg, s, acts) && Throughout(cfg, s, acts, SparesRunning)
    ensures Lone(cfg, After(cfg, s, acts))
    decreases |acts|
  {
    if acts != [] {
      LoneStep(cfg, s, acts[0]);
      LoneRun(cfg, Apply(cfg, s, acts[0]), acts[1..]);
    }
  }

  lemma LoneIsOne(s: State)
    requires OneAttemptPerRow(s)
    ensures OneExecutorPerRow(s)
  {
    assert forall b: nat, i: nat :: Executing(s, b, i) ==> Slot(s, b, i);
  }

  /* Two attempts at once: the first is still executing */

  lemma ClaimShape(cfg: Settings, s: State, ids: seq<Id>)
    requires OldestDue(s.table, s.clock, {}, cfg.batchSize, ids) && |ids| >= 1
    ensures Enabled(cfg, s, Claim(s.clock, {}, ids))
    ensures var t := Apply(cfg, s, Claim(s.clock, {}, ids));
      && t.batches == s.batches + [Batch(s.clock, s.clock, ids, 0, map[])]
      && ids[0] in t.table && t.table[ids[0]].status == Running
  {
  }

  lemma ClaimsAgain(cfg: Settings, s: State, ids: seq<Id>) returns (t: State)
    requires ReachableBy(cfg, s, 1, 1) && |s.batches| == 1
    requires OldestDue(s.table, s.clock, {}, cfg.batchSize, ids) && |ids| >= 1
    ensures ReachableBy(cfg, t, 2, 1) && t.batches == [s.batches[0], Batch(s.clock, s.clock, ids, 0, map[])]
    ensures ids[0] in t.table && t.table[ids[0]].status == Running
  {
    ClaimShape(cfg, s, ids);
    t := Reach(cfg, s, 1, 1, Claim(s.clock, {}, ids));
  }

  /** The head of batch b gets a slot and finds its row running. */
  lemma StartsAgain(cfg: Settings, s: State, b: nat)
    requires |s.batches| == 2 && b < 2 && s.batches[b].next < |s.batches[b].ids| && |s.batches[b].live| < cfg.Slots()
    requires var x := s.batches[b].ids[s.batches[b].next]; x in s.table && s.table[x].status == Running
    ensures Enabled(cfg, s, Dispatch(b))
    ensures var t := Apply(cfg, s, Dispatch(b)); var i := s.batches[b].next;
      && t.table == s.table && |t.batches| == 2 && t.batches[1 - b] == s.batches[1 - b]
      && t.batches[b].ids == s.batches[b].ids && t.batches[b].next == i + 1 && i in t.batches[b].live
      && |t.batches[b].ids| == |s.batches[b].ids|
  {
    ExecutorFrame(cfg, s, Dispatch(b));
    ExecutorWritesNothing(cfg, s, Dispatch(b));
  }

  lemma TailDueAgain(cfg: Settings, t: Table, ids: seq<Id>, at: nat, reapedAt: Time)
    requires Reaped(cfg, t, ids, at, reapedAt) && cfg.maxRetries >= 1 && at < |ids| <= cfg.batchSize && Distinct(ids)
    ensures OldestDue(t, reapedAt + cfg.backoffBase, {}, cfg.batchSize, ids[at..])
  {
    var tail, now := ids[at..], reapedAt + cfg.backoffBase;
    forall y | y in t && Due(t[y], now) ensures y in tail {
      var j :| at <= j < |ids| && ids[j] == y;
      assert tail[j - at] == y;
    }
    forall i | 0 <= i < |tail| ensures tail[i] == ids[at + i] && tail[i] in t && Due(t[tail[i]], now) && t[tail[i]].scheduledAt == now {}
  }

  /** With the last wave reaped while it executes, its rows are due again after the backoff. */
  lemma ReapDue(cfg: Settings, s: State, at: nat, since: Time, last: Row) returns (t: State)
    requires ReachableBy(cfg, s, 1, 0) && at < cfg.batchSize && Wave(cfg, s, at, cfg.batchSize, since, last) && Plain(last)
    requires cfg.maxRetries >= 1 && s.clock > cfg.staleTimeout
    ensures ReachableBy(cfg, t, 1, 1) && t.batches == s.batches && t.clock == s.clock
    ensures OldestDue(t.table, t.clock + cfg.backoffBase, {}, cfg.batchSize, s.batches[0].ids[at..])
  {
    t := ReapWave(cfg, s, at, since, last);
    TailDueAgain(cfg, t.table, t.batches[0].ids, at, t.clock);
  }

  lemma PassToDue(cfg: Settings, s: State, since: Time, until: Time) returns (t: State)
    requires ReachableBy(cfg, s, 1, 1) && |s.batches| == 1 && s.batches[0].next >= |s.batches[0].ids|
    requires forall i :: i in s.batches[0].live ==> s.batches[0].live[i].start == since
    requires s.clock <= until <= since + cfg.executionTimeout
    ensures ReachableBy(cfg, t, 1, 1) && t.batches == s.batches && t.table == s.table && t.clock == until
  {
    assert MayWait(cfg, s.batches[0], until);
    t := Reach(cfg, s, 1, 1, Wait(until));
    TableFrame(cfg, s, Wait(until));
    BatchesFrame(cfg, s, Wait(until));
  }

  lemma ReapAndWait(cfg: Settings, s: State, at: nat, since: Time, last: Row) returns (t: State)
    requires ReachableBy(cfg, s, 1, 0) && at < cfg.batchSize && Wave(cfg, s, at, cfg.batchSize, since, last) && Plain(last)
    requires cfg.maxRetries >= 1 && s.clock > cfg.staleTimeout && s.clock + cfg.backoffBase <= since + cfg.executionTimeout
    ensures ReachableBy(cfg, t, 1, 1) && t.batches == s.batches
    ensures OldestDue(t.table, t.clock, {}, cfg.batchSize, s.batches[0].ids[at..])
  {
    var reaped := ReapDue(cfg, s, at, since, last);
    t := PassToDue(cfg, reaped, since, reaped.clock + cfg.backoffBase);
  }

  lemma ReapAndClaim(cfg: Settings, s: State, at: nat, since: Time, last: Row) returns (t: State)
    requires ReachableBy(cfg, s, 1, 0) && at < cfg.batchSize && Wave(cfg, s, at, cfg.batchSize, since, last) && Plain(last)
    requires cfg.maxRetries >= 1 && s.clock > cfg.staleTimeout && s.clock + cfg.backoffBase <= since + cfg.executionTimeout
    ensures ReachableBy(cfg, t, 2, 1) && |t.batches| == 2 && t.batches[0] == s.batches[0]
    ensures t.batches[1].ids == s.batches[0].ids[at..] && t.batches[1].next == 0 && t.batches[1].live == map[]
    ensures var x := s.batches[0].ids[at..][0]; x in t.table && t.table[x].status == Running
  {
    var due := ReapAndWait(cfg, s, at, since, last);
    t := ClaimsAgain(cfg, due, s.batches[0].ids[at..]);
  }

  /** The new attempt gets its slot while position `at` of the old batch holds one. */
  lemma StartSecond(cfg: Settings, s: State, at: nat) returns (t: State)
    requires ReachableBy(cfg, s, 2, 1) && |s.batches| == 2 && Executing(s, 0, at)
    requires s.batches[1].ids == s.batches[0].ids[at..] && s.batches[1].next == 0 && s.batches[1].live == map[]
    requires var x := s.batches[1].ids[0]; x in s.table && s.table[x].status == Running
    ensures ReachableBy(cfg, t, 2, 1) && !OneExecutorPerRow(t)
  {
    StartsAgain(cfg, s, 1);
    t := Reach(cfg, s, 2, 1, Dispatch(1));
    assert Executing(t, 0, at) && Executing(t, 1, 0) && Holds(t, 0, at) == Holds(t, 1, 0);
  }

  lemma WhileExecuting(cfg: Settings) returns (s: State)
    requires cfg.Valid() && cfg.maxRetries >= 1
    requires cfg.executionTimeout >= cfg.backoffBase && cfg.Span() > cfg.staleTimeout + cfg.backoffBase
    ensures ReachableBy(cfg, s, 2, 1) && !OneExecutorPerRow(s)
  {
    QueueTimeIs(cfg);
    var turn := cfg.overhead + cfg.QueueTime();
    var start, at, last := LastWaveAt(cfg, if turn > cfg.staleTimeout then turn else cfg.staleTimeout + 1);
    s := ReapAndClaim(cfg, start, at, turn, last);
    s := StartSecond(cfg, s, at);
  }

  /* Two attempts at once: the first is still waiting for its slot */

  /** Positions `at` to `at + C` execute, the last position is queued behind them. */
  ghost predicate Rolling(cfg: Settings, s: State, at: nat, since: Time, last: Row) {
    var c, e := cfg.Slots(), cfg.executionTimeout;
    && at + c < cfg.batchSize && Wave(cfg, s, at, at + c, since, last)
    && since == cfg.overhead + WaveTime(at, c, e) && WaveTime(at + c - 1, c, e) == WaveTime(at, c, e)
    && since <= s.clock <= since + e
  }

  lemma NextWaveIsNotLast(at: nat, n: nat, c: nat, e: nat)
    requires c >= 1 && at + c <= n && WaveTime(at + c - 1, c, e) == WaveTime(at, c, e)
    requires WaveTime(at, c, e) + e < WaveTime(n, c, e)
    ensures at + c + c <= n && WaveTime(at + c, c, e) == WaveTime(at, c, e) + e
    ensures WaveTime(at + c + c - 1, c, e) == WaveTime(at + c, c, e)
  {
    assert WaveTime(at + c + c - 1, c, e) == WaveTime(at + c - 1, c, e) + e;
    if n < at + c + c { WaveMonotone(n, at + c + c - 1, c, e); }
  }

  /** The wave uses its full time and the next one begins. */
  lemma RollOn(cfg: Settings, s: State, at: nat, since: Time, last: Row, reaps: nat) returns (t: State)
    requires cfg.Valid() && ReachableBy(cfg, s, 1, reaps) && Rolling(cfg, s, at, since, last)
    requires since + cfg.executionTimeout < cfg.overhead + cfg.QueueTime()
    ensures ReachableBy(cfg, t, 1, reaps) && t.clock == since + cfg.executionTimeout
    ensures Rolling(cfg, t, at + cfg.Slots(), t.clock, last)
  {
    QueueTimeIs(cfg);
    NextWaveIsNotLast(at, cfg.batchSize - 1, cfg.Slots(), cfg.executionTimeout);
    t := SwapWaves(cfg, s, at, since, last, reaps);
  }

  lemma SwapWaves(cfg: Settings, s: State, at: nat, since: Time, last: Row, reaps: nat) returns (t: State)
    requires ReachableBy(cfg, s, 1, reaps) && Wave(cfg, s, at, at + cfg.Slots(), since, last)
    requires at + cfg.Slots() + cfg.Slots() < cfg.batchSize && s.clock <= since + cfg.executionTimeout
    ensures ReachableBy(cfg, t, 1, reaps) && t.clock == since + cfg.executionTimeout
    ensures Wave(cfg, t, at + cfg.Slots(), at + cfg.Slots() + cfg.Slots(), t.clock, last)
  {
    var next := at + cfg.Slots();
    t := Pass(cfg, s, at, next, since, last, reaps, since + cfg.executionTimeout);
    t := FinishWave(cfg, t, at, next, since, last, reaps);
    t := FillTo(cfg, t, next, next, next + cfg.Slots(), last, reaps);
  }

  lemma {:induction false} RollTo(cfg: Settings, s: State, at: nat, since: Time, last: Row, reaps: nat, target: Time)
    returns (t: State, now: nat, began: Time)
    requires cfg.Valid() && ReachableBy(cfg, s, 1, reaps) && Rolling(cfg, s, at, since, last)
    requires s.clock <= target <= cfg.overhead + cfg.QueueTime()
    ensures ReachableBy(cfg, t, 1, reaps) && t.clock == target && Rolling(cfg, t, now, began, last)
    decreases cfg.batchSize - at
  {
    if target <= since + cfg.executionTimeout {
      now, began := at, since;
      t := Pass(cfg, s, at, at + cfg.Slots(), since, last, reaps, target);
    } else {
      t := RollOn(cfg, s, at, since, last, reaps);
      t, now, began := RollTo(cfg, t, at + cfg.Slots(), t.clock, last, reaps, target);
    }
  }

  lemma StartRolling(cfg: Settings) returns (s: State, last: Row)
    requires cfg.Valid() && cfg.QueueTime() >= 1
    ensures ReachableBy(cfg, s, 1, 0) && s.clock == cfg.overhead && Rolling(cfg, s, 0, cfg.overhead, last) && Plain(last)
  {
    var c, e := cfg.Slots(), cfg.executionTimeout;
    QueueTimeIs(cfg);
    s, last := ClaimAll(cfg);
    s := FillTo(cfg, s, 0, 0, c, last, 0);
  }

  lemma LastIsStale(cfg: Settings, s: State, x: Id)
    requires cfg.Valid() && x in s.table && Plain(s.table[x]) && s.clock > cfg.staleTimeout
    ensures Enabled(cfg, s, Reap(s.clock, s.table.Keys - {x}, [x]))
    ensures ReapRows(cfg, s.table, [x], s.clock, s.clock)
            == s.table[x := FailedRow(cfg, s.table[x], STALLED, s.clock).(updatedAt := s.clock)]
  {
    assert SomeStale(s.table, s.clock, cfg.staleTimeout, s.table.Keys - {x}, cfg.batchSize, [x]);
  }

  lemma LastRowChanged(t: Table, ids: seq<Id>, from: nat, last: Row, row: Row)
    requires WaveRows(t, ids, from, last) && Distinct(ids) && from < |ids|
    ensures WaveRows(t[ids[|ids| - 1] := row], ids, from, row)
  {
    assert InTail(ids, from, ids[|ids| - 1]);
  }

  /** A reap that skips the other rows, which another transaction has locked, takes the last one. */
  lemma ReapLast(cfg: Settings, s: State, at: nat, since: Time, last: Row) returns (t: State, row: Row)
    requires cfg.Valid() && ReachableBy(cfg, s, 1, 0) && Rolling(cfg, s, at, since, last) && Plain(last)
    requires cfg.maxRetries >= 1 && s.clock > cfg.staleTimeout
    ensures ReachableBy(cfg, t, 1, 1) && t.clock == s.clock && Rolling(cfg, t, at, since, row)
    ensures row.status == Pending && row.scheduledAt == s.clock + cfg.backoffBase
  {
    var ids := s.batches[0].ids;
    var x := ids[|ids| - 1];
    LastIsStale(cfg, s, x);
    var a := Reap(s.clock, s.table.Keys - {x}, [x]);
    t := Reach(cfg, s, 1, 0, a);
    ReapShape(cfg, s, a);
    row := FailedRow(cfg, last, STALLED, s.clock).(updatedAt := s.clock);
    LastRowChanged(s.table, ids, at, last, row);
  }

  /** Everyone before the last position gets a slot and succeeds at once. */
  lemma {:induction false} Drain(cfg: Settings, s: State, from: nat, last: Row) returns (t: State)
    requires ReachableBy(cfg, s, 1, 1) && Wave(cfg, s, from, from, s.clock, last) && from < cfg.batchSize
    ensures ReachableBy(cfg, t, 1, 1) && t.clock == s.clock
    ensures Wave(cfg, t, cfg.batchSize - 1, cfg.batchSize - 1, s.clock, last)
    decreases cfg.batchSize - from
  {
    t := s;
    if from < cfg.batchSize - 1 {
      t := DispatchOne(cfg, s, from, from, last, 1);
      t := FinishOne(cfg, t, from, from + 1, s.clock, last, 1);
      t := Drain(cfg, t, from + 1, last);
    }
  }

  /** The last position is at the head of its queue, and its row is due again. */
  lemma ClaimLast(cfg: Settings, s: State, last: Row) returns (t: State)
    requires cfg.Valid() && ReachableBy(cfg, s, 1, 1)
    requires var n := cfg.batchSize - 1; Wave(cfg, s, n, n, s.clock, last)
    requires last.status == Pending && last.scheduledAt == s.clock
    ensures ReachableBy(cfg, t, 2, 1) && |t.batches| == 2 && t.batches[0] == s.batches[0]
    ensures var x := s.batches[0].ids[cfg.batchSize - 1];
      && t.batches[1] == Batch(s.clock, s.clock, [x], 0, map[])
      && x in t.table && t.table[x].status == Running
  {
    var ids := s.batches[0].ids;
    var x := ids[cfg.batchSize - 1];
    forall y | y in s.table && Due(s.table[y], s.clock) ensures y == x {
      var i :| cfg.batchSize - 1 <= i < |ids| && ids[i] == y;
    }
    assert OldestDue(s.table, s.clock, {}, cfg.batchSize, [x]);
    t := ClaimsAgain(cfg, s, [x]);
  }

  /** Both attempts get their slots. */
  lemma StartBoth(cfg: Settings, s: State, n: nat, x: Id) returns (t: State)
    requires ReachableBy(cfg, s, 2, 1) && |s.batches| == 2 && x in s.table && s.table[x].status == Running
    requires s.batches[0].next == n && |s.batches[0].ids| == n + 1 && s.batches[0].ids[n] == x && s.batches[0].live == map[]
    requires s.batches[1].ids == [x] && s.batches[1].next == 0 && s.batches[1].live == map[]
    ensures ReachableBy(cfg, t, 2, 1) && !OneExecutorPerRow(t)
  {
    StartsAgain(cfg, s, 1);
    var u := Reach(cfg, s, 2, 1, Dispatch(1));
    StartsAgain(cfg, u, 0);
    t := Reach(cfg, u, 2, 1, Dispatch(0));
    assert Executing(t, 0, n) && Executing(t, 1, 0) && Holds(t, 0, n) == Holds(t, 1, 0);
  }

  /** The last position waits on while its row is reaped and comes due again. */
  lemma DueInQueue(cfg: Settings) returns (s: State, at: nat, since: Time, last: Row)
    requires cfg.Valid() && cfg.maxRetries >= 1
    requires cfg.QueueTime() >= cfg.backoffBase && cfg.overhead + cfg.QueueTime() > cfg.staleTimeout + cfg.backoffBase
    ensures ReachableBy(cfg, s, 1, 1) && Rolling(cfg, s, at, since, last)
    ensures last.status == Pending && last.scheduledAt == s.clock
  {
    s, last := StartRolling(cfg);
    var reapAt := if cfg.overhead > cfg.staleTimeout then cfg.overhead else cfg.staleTimeout + 1;
    s, at, since := RollTo(cfg, s, 0, cfg.overhead, last, 0, reapAt);
    s, last := ReapLast(cfg, s, at, since, last);
    s, at, since := RollTo(cfg, s, at, since, last, 1, reapAt + cfg.backoffBase);
  }

  lemma WhileQueued(cfg: Settings) returns (s: State)
    requires cfg.Valid() && cfg.maxRetries >= 1
    requires cfg.QueueTime() >= cfg.backoffBase && cfg.overhead + cfg.QueueTime() > cfg.staleTimeout + cfg.backoffBase
    ensures ReachableBy(cfg, s, 2, 1) && !OneExecutorPerRow(s)
  {
    var due, at, since, last := DueInQueue(cfg);
    var done := FinishWave(cfg, due, at, at + cfg.Slots(), since, last, 1);
    var alone := Drain(cfg, done, at + cfg.Slots(), last);
    assert alone.batches[0].live == map[];
    s := ClaimLast(cfg, alone, last);
    s := StartBoth(cfg, s, cfg.batchSize - 1, alone.batches[0].ids[cfg.batchSize - 1]);
  }

  /* The exact condition */

  /** No task is executed twice at once, in any reachable state, if and only if there are no retries
      or neither half of an attempt can outlast both the backoff and the reaper's margin. When that
      fails, two claims and one reap are enough. */
  lemma NeverTwiceExactlyWhen(cfg: Settings)
    requires cfg.Valid()
    ensures (forall s :: Reachable(cfg, s) ==> OneExecutorPerRow(s)) <==> cfg.NeverTwice()
    ensures !cfg.NeverTwice() ==> exists s :: ReachableBy(cfg, s, 2, 1) && !OneExecutorPerRow(s)
  {
    if cfg.NeverTwice() {
      forall s | Reachable(cfg, s) ensures OneExecutorPerRow(s) {
        var s0, acts :| Leads(cfg, s0, acts, s);
        LoneRun(cfg, s0, acts);
        LoneIsOne(s);
      }
    } else {
      var s;
      if cfg.executionTimeout >= cfg.backoffBase && cfg.Span() > cfg.staleTimeout + cfg.backoffBase {
        s := WhileExecuting(cfg);
      } else {
        s := WhileQueued(cfg);
      }
      assert Reachable(cfg, s);
    }
  }

  /** When an execution may take as long as the first backoff, the condition is that the span of a
      claim exceeds the reaper's timeout by no more than that backoff. */
  lemma NeverTwiceByMargin(cfg: Settings)
    requires cfg.Valid()
    ensures cfg.maxRetries == 0 || cfg.Span() <= cfg.staleTimeout + cfg.backoffBase ==> cfg.NeverTwice()
    ensures cfg.executionTimeout >= cfg.backoffBase ==>
              (cfg.NeverTwice() <==> cfg.maxRetries == 0 || cfg.Span() <= cfg.staleTimeout + cfg.backoffBase)
  {
    QueueTimeIs(cfg);
  }

  /** The margin is not necessary when both halves are short: here a row claimed at 0 and reaped at 2
      is due again at 10, when its first attempt, which must get its slot by 5, is over or has found
      the row pending. */
  lemma ShortHalvesNeedNoMargin()
    ensures var cfg := Settings(2, 1, 5, 1, 1, 8, 0);
      && cfg.Valid() && !cfg.Exclusive() && cfg.maxRetries > 0 && cfg.Span() > cfg.staleTimeout + cfg.backoffBase
      && forall s :: Reachable(cfg, s) ==> OneExecutorPerRow(s)
  {
    var cfg := Settings(2, 1, 5, 1, 1, 8, 0);
    assert cfg.Waves(2) == 2 && cfg.QueueTime() == 5;
    NeverTwiceExactlyWhen(cfg);
  }
}
