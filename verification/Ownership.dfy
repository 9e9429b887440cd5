/** Exclusive ownership: while the reaper's timeout outlasts every executor, a claimed row
    belongs to one executor until that executor has recorded its outcome. */
module Ownership {
  import opened Tasks
  import opened Retry
  import opened Protocol

  /* Timeliness: the semaphore is FIFO, so position i gets its slot within i / C executions. */

  ghost predicate Timely(cfg: Settings, now: Time, batch: Batch) {
    && batch.claimedAt <= batch.formedAt <= now && batch.formedAt <= batch.claimedAt + cfg.overhead
    && batch.next <= |batch.ids| <= cfg.batchSize
    && |batch.live| <= cfg.Slots()
    && (batch.next < |batch.ids| ==> now <= SlotBy(cfg, batch, batch.next))
    && (forall i :: i in batch.live ==>
          && i < batch.next
          && batch.live[i].start <= SlotBy(cfg, batch, i) && batch.live[i].start <= now
          && now <= batch.live[i].start + cfg.executionTimeout)
  }

  function SlotBy(cfg: Settings, batch: Batch, i: nat): Time {
    batch.formedAt + WaveTime(i, cfg.Slots(), cfg.executionTimeout)
  }

  /** (i / c) * e, by recursion: one execution for every c positions served before i. */
  function WaveTime(i: nat, c: nat, e: nat): nat
    requires c >= 1
  {
    if i < c then 0 else WaveTime(i - c, c, e) + e
  }

  ghost predicate AllTimely(cfg: Settings, s: State) {
    forall b :: 0 <= b < |s.batches| ==> Timely(cfg, s.clock, s.batches[b])
  }

  /** A set of naturals below n is no larger than n. */
  lemma {:induction false} BelowSize(k: set<nat>, lo: nat, n: nat)
    requires forall x :: x in k ==> lo <= x < n
    ensures |k| <= if lo <= n then n - lo else 0
    decreases n
  {
    if n <= lo {
      assert k == {};
    } else {
      var l := k - {n - 1};
      BelowSize(l, lo, n - 1);
      assert k <= l + {n - 1};
      assert |k| <= |l| + 1;
    }
  }

  /** C of the positions below n are taken, so the earliest of them is at most n - C. */
  lemma EarliestTaken(k: set<nat>, n: nat, c: nat) returns (i: nat)
    requires |k| >= c >= 1 && forall x :: x in k ==> x < n
    ensures i in k && i + c <= n
  {
    if forall x :: x in k ==> x + c > n {
      BelowSize(k, if n + 1 > c then n + 1 - c else 0, n);
      assert false;
    }
    i :| i in k && i + c <= n;
  }

  lemma {:induction false} WaveMonotone(m: nat, n: nat, c: nat, e: nat)
    requires c >= 1 && m <= n
    ensures WaveTime(m, c, e) <= WaveTime(n, c, e)
    decreases n
  {
    if c <= m { WaveMonotone(m - c, n - c, c, e); }
  }

  lemma WaveAfter(i: nat, n: nat, c: nat, e: nat)
    requires c >= 1 && i + c <= n
    ensures WaveTime(i, c, e) + e <= WaveTime(n, c, e)
  {
  }

  lemma {:induction false} WaveTimeIs(i: nat, c: nat, e: nat)
    requires c >= 1
    ensures WaveTime(i, c, e) == (i / c) * e
    decreases i
  {
    if i >= c {
      WaveTimeIs(i - c, c, e);
      QuotientStep(i, c);
      assert (i / c - 1) * e + e == (i / c) * e;
    } else {
      assert i / c == 0;
    }
  }

  lemma WavesAndOne(k: nat, c: nat, e: nat)
    requires c >= 1
    ensures (k / c + 1) * e == WaveTime(k, c, e) + e
  {
    WaveTimeIs(k, c, e);
    var q := k / c;
    assert (q + 1) * e == q * e + e;
  }

  lemma QuotientUnique(i: nat, c: nat, q: nat)
    requires c >= 1 && c * q <= i < c * q + c
    ensures i / c == q
  {
    var p := i / c;
    assert c * p <= i < c * p + c;
    if p > q {
      ScaleMonotone(c, q + 1, p);
    } else if p < q {
      ScaleMonotone(c, p + 1, q);
    }
  }

  lemma QuotientStep(i: nat, c: nat)
    requires 1 <= c <= i
    ensures (i - c) / c == i / c - 1
  {
    var q := (i - c) / c;
    assert c * q <= i - c < c * q + c;
    assert c * (q + 1) == c * q + c;
    QuotientUnique(i, c, q + 1);
  }

  /** Waiting keeps the bound: with the slots full, the earliest executor must finish first. */
  lemma TimelyWait(cfg: Settings, now: Time, batch: Batch, until: Time)
    requires Timely(cfg, now, batch) && now <= until && MayWait(cfg, batch, until)
    ensures Timely(cfg, until, batch)
  {
    if batch.next < |batch.ids| {
      var taken := batch.live.Keys;
      assert |taken| == |batch.live|;
      var i := EarliestTaken(taken, batch.next, cfg.Slots());
      WaveAfter(i, batch.next, cfg.Slots(), cfg.executionTimeout);
    }
  }

  lemma TimelyDispatch(cfg: Settings, s: State, b: nat)
    requires Enabled(cfg, s, Dispatch(b)) && Timely(cfg, s.clock, s.batches[b])
    ensures Timely(cfg, s.clock, Start(s, b))
  {
    var batch, after := s.batches[b], Start(s, b);
    WaveMonotone(batch.next, batch.next + 1, cfg.Slots(), cfg.executionTimeout);
    assert after.live.Keys <= batch.live.Keys + {batch.next};
    assert |after.live.Keys| <= |batch.live.Keys| + 1;
    assert |after.live| == |after.live.Keys| && |batch.live| == |batch.live.Keys|;
  }

  lemma TimelyFreed(cfg: Settings, now: Time, batch: Batch, i: nat)
    requires Timely(cfg, now, batch)
    ensures Timely(cfg, now, batch.(live := batch.live - {i}))
  {
  }

  lemma SubsetSize<T>(a: set<T>, b: set<T>)
    requires a <= b
    ensures |a| <= |b|
  {
    assert b == a + (b - a);
  }

  /** Only batch b differs, and it is timely. */
  lemma TimelyUpdate(cfg: Settings, s: State, t: State, b: nat)
    requires AllTimely(cfg, s) && b < |s.batches| && t.clock == s.clock
    requires |t.batches| == |s.batches| && t.batches == s.batches[b := t.batches[b]]
    requires Timely(cfg, s.clock, t.batches[b])
    ensures AllTimely(cfg, t)
  {
  }

  lemma TimelyExecutor(cfg: Settings, s: State, a: Action)
    requires AllTimely(cfg, s) && Enabled(cfg, s, a) && Executes(a)
    ensures AllTimely(cfg, Apply(cfg, s, a))
  {
    ExecutorFrame(cfg, s, a);
    if a.Dispatch? {
      TimelyDispatch(cfg, s, a.b);
    } else if !a.Crash? {
      TimelyFreed(cfg, s.clock, s.batches[a.b], a.i);
    }
    TimelyUpdate(cfg, s, Apply(cfg, s, a), a.b);
  }

  lemma TimelyStep(cfg: Settings, s: State, a: Action)
    requires AllTimely(cfg, s) && Enabled(cfg, s, a)
    ensures AllTimely(cfg, Apply(cfg, s, a))
  {
    if Executes(a) {
      TimelyExecutor(cfg, s, a);
    } else if a.Wait? {
      forall b | 0 <= b < |s.batches| ensures Timely(cfg, a.until, s.batches[b]) {
        TimelyWait(cfg, s.clock, s.batches[b], a.until);
      }
    } else if a.Claim? {
      assert Timely(cfg, s.clock, Batch(a.asOf, s.clock, a.ids, 0, map[]));
    } else {
      BatchesFrame(cfg, s, a);
    }
  }

  lemma {:induction false} TimelyRun(cfg: Settings, s: State, acts: seq<Action>)
    requires AllTimely(cfg, s) && Legal(cfg, s, acts)
    ensures AllTimely(cfg, After(cfg, s, acts))
    decreases |acts|
  {
    if acts != [] {
      TimelyStep(cfg, s, acts[0]);
      TimelyRun(cfg, Apply(cfg, s, acts[0]), acts[1..]);
    }
  }

  /** In every run whatever, no tick ever has more than max(1, concurrency) tasks running, and none runs
      past its timeout. */
  lemma SlotsRespected(cfg: Settings, s: State, acts: seq<Action>, b: nat)
    requires Init(s) && Legal(cfg, s, acts) && b < |After(cfg, s, acts).batches|
    ensures var t := After(cfg, s, acts); var batch := t.batches[b];
      && |batch.live| <= (if cfg.concurrency < 1 then 1 else cfg.concurrency)
      && forall i :: i in batch.live ==> batch.live[i].start <= t.clock <= batch.live[i].start + cfg.executionTimeout
  {
    TimelyRun(cfg, s, acts);
    assert Timely(cfg, After(cfg, s, acts).clock, After(cfg, s, acts).batches[b]);
  }

  lemma QueueTimeIs(cfg: Settings)
    requires cfg.Valid()
    ensures WaveTime(cfg.batchSize - 1, cfg.Slots(), cfg.executionTimeout) == cfg.QueueTime()
    ensures cfg.QueueTime() + cfg.executionTimeout == cfg.Waves(cfg.batchSize) * cfg.executionTimeout
  {
    var c, e, n := cfg.Slots(), cfg.executionTimeout, cfg.batchSize;
    WaveTimeIs(n - 1, c, e);
    WaveTimeIs(n - 1 + c, c, e);
  }

  /** How long each half of an attempt can last: a position gets its slot within the queue time and
      is done one execution later. */
  lemma ActiveByHalf(cfg: Settings, now: Time, batch: Batch, i: nat)
    requires Timely(cfg, now, batch) && batch.Active(i)
    ensures if i in batch.live
            then batch.live[i].start <= batch.formedAt + cfg.QueueTime() && now <= batch.live[i].start + cfg.executionTimeout
            else now <= batch.formedAt + cfg.QueueTime()
  {
    var c, e := cfg.Slots(), cfg.executionTimeout;
    WaveMonotone(if i in batch.live then i else batch.next, cfg.batchSize - 1, c, e);
    WaveTimeIs(cfg.batchSize - 1, c, e);
  }

  /** No position of a batch stays active beyond the span counted from the claim. */
  lemma ActiveInSpan(cfg: Settings, now: Time, batch: Batch, i: nat)
    requires Timely(cfg, now, batch) && batch.Active(i)
    ensures now <= batch.formedAt + cfg.Waves(cfg.batchSize) * cfg.executionTimeout
    ensures now <= batch.claimedAt + cfg.Span()
  {
    ActiveByHalf(cfg, now, batch, i);
    var c, e, n := cfg.Slots(), cfg.executionTimeout, cfg.batchSize;
    WaveTimeIs(n - 1, c, e);
    WaveTimeIs(n - 1 + c, c, e);
  }

  /* Ownership */

  /** Position i of batch b is queued or running. */
  ghost predicate Slot(s: State, b: nat, i: nat) {
    b < |s.batches| && s.batches[b].Active(i)
  }

  function Holds(s: State, b: nat, i: nat): Id
    requires b < |s.batches| && i < |s.batches[b].ids|
  {
    s.batches[b].ids[i]
  }

  /** The row of an active position is as the claim left it, and as its executor loaded it. */
  ghost predicate Kept(s: State, b: nat, i: nat)
    requires Slot(s, b, i)
  {
    var batch, x := s.batches[b], Holds(s, b, i);
    && (x in s.table || x in s.gone)
    && (x in s.table ==>
          && s.table[x].status == Running
          && s.table[x].updatedAt == batch.claimedAt
          && (i in batch.live ==> batch.live[i].snapshot == s.table[x]))
    && (i in batch.live ==> i < batch.next)
  }

  ghost predicate Owned(s: State) {
    && (forall b, i :: Slot(s, b, i) ==> Kept(s, b, i))
    && (forall b, i, c, j :: Slot(s, b, i) && Slot(s, c, j) && Holds(s, b, i) == Holds(s, c, j) ==> b == c && i == j)
  }

  /** The reap takes no row that an executor or a queue position holds. */
  ghost predicate SparesHeld(s: State, a: Action) {
    a.Reap? ==> forall b, i :: Slot(s, b, i) ==> Holds(s, b, i) !in a.ids
  }

  /** The claimed rows were pending, so no position held them. */
  lemma ClaimTakesFree(cfg: Settings, s: State, a: Action, b: nat, i: nat)
    requires Owned(s) && a.Claim? && Enabled(cfg, s, a) && Slot(s, b, i)
    ensures Holds(s, b, i) !in a.ids
  {
    assert Kept(s, b, i);
  }

  /** Slots after a claim: the old ones, and one for each claimed row in the batch it adds. */
  lemma SlotsAfterClaim(cfg: Settings, s: State, a: Action, b: nat, i: nat)
    requires a.Claim? && Enabled(cfg, s, a) && Slot(Apply(cfg, s, a), b, i)
    ensures if b < |s.batches| then Slot(s, b, i) && Holds(Apply(cfg, s, a), b, i) == Holds(s, b, i)
            else b == |s.batches| && i < |a.ids| && Holds(Apply(cfg, s, a), b, i) == a.ids[i]
  {
  }

  lemma KeptAfterClaim(cfg: Settings, s: State, a: Action, b: nat, i: nat)
    requires Owned(s) && a.Claim? && Enabled(cfg, s, a) && Slot(Apply(cfg, s, a), b, i)
    ensures Kept(Apply(cfg, s, a), b, i)
  {
    SlotsAfterClaim(cfg, s, a, b, i);
    if b < |s.batches| {
      ClaimTakesFree(cfg, s, a, b, i);
      assert Kept(s, b, i);
    }
  }

  lemma OwnedClaim(cfg: Settings, s: State, a: Action)
    requires Owned(s) && a.Claim? && Enabled(cfg, s, a)
    ensures Owned(Apply(cfg, s, a))
  {
    var t := Apply(cfg, s, a);
    forall b: nat, i: nat | Slot(t, b, i) ensures Kept(t, b, i) { KeptAfterClaim(cfg, s, a, b, i); }
    forall b: nat, i: nat, c: nat, j: nat | Slot(t, b, i) && Slot(t, c, j) && Holds(t, b, i) == Holds(t, c, j)
      ensures b == c && i == j
    {
      SlotsAfterClaim(cfg, s, a, b, i);
      SlotsAfterClaim(cfg, s, a, c, j);
      if b < |s.batches| { ClaimTakesFree(cfg, s, a, b, i); }
      if c < |s.batches| { ClaimTakesFree(cfg, s, a, c, j); }
    }
  }

  lemma OwnedDispatch(cfg: Settings, s: State, b: nat)
    requires Owned(s) && Enabled(cfg, s, Dispatch(b))
    ensures Owned(Apply(cfg, s, Dispatch(b)))
  {
    var t := Apply(cfg, s, Dispatch(b));
    ExecutorFrame(cfg, s, Dispatch(b));
    forall c: nat, j: nat | Slot(t, c, j)
      ensures Slot(s, c, j) && Holds(t, c, j) == Holds(s, c, j) && Kept(t, c, j)
    {
      assert Slot(s, c, j) && Kept(s, c, j);
    }
  }

  /** Steps that leave the batches alone and do not touch a held row. */
  lemma OwnedElsewhere(s: State, t: State)
    requires Owned(s) && t.batches == s.batches
    requires forall x :: x in s.table || x in s.gone ==> x in t.table || x in t.gone
    requires forall b: nat, i: nat :: Slot(s, b, i) && Holds(s, b, i) in t.table ==>
               Holds(s, b, i) in s.table && t.table[Holds(s, b, i)] == s.table[Holds(s, b, i)]
    ensures Owned(t)
  {
    assert forall b: nat, i: nat :: Slot(t, b, i) ==> Slot(s, b, i) && Holds(t, b, i) == Holds(s, b, i);
    forall b: nat, i: nat | Slot(t, b, i) ensures Kept(t, b, i) { assert Kept(s, b, i); }
  }

  /** Steps that only take positions out of a batch. */
  lemma OwnedFewer(s: State, t: State)
    requires Owned(s) && t.table == s.table && t.gone == s.gone && |t.batches| == |s.batches|
    requires forall b: nat :: b < |s.batches| ==>
               && t.batches[b].ids == s.batches[b].ids && t.batches[b].claimedAt == s.batches[b].claimedAt
               && (t.batches[b].next >= s.batches[b].next || t.batches[b].next >= |s.batches[b].ids|)
               && (forall i :: i in t.batches[b].live ==> i in s.batches[b].live && t.batches[b].live[i] == s.batches[b].live[i])
    ensures Owned(t)
  {
    assert forall b: nat, i: nat :: Slot(t, b, i) ==> Slot(s, b, i) && Holds(t, b, i) == Holds(s, b, i);
    forall b: nat, i: nat | Slot(t, b, i) ensures Kept(t, b, i) { assert Kept(s, b, i); }
  }

  lemma OwnedFinish(cfg: Settings, s: State, a: Action)
    requires Owned(s) && a.Finish? && Enabled(cfg, s, a)
    ensures Owned(Apply(cfg, s, a))
  {
    var t := Apply(cfg, s, a);
    ExecutorFrame(cfg, s, a);
    FinishFrame(cfg, s, a);
    assert Slot(s, a.b, a.i) && Kept(s, a.b, a.i);
    forall b: nat, i: nat | Slot(t, b, i)
      ensures Slot(s, b, i) && Holds(t, b, i) == Holds(s, b, i) && Kept(t, b, i)
    {
      assert Slot(s, b, i) && Kept(s, b, i);
      assert b != a.b || i != a.i;
    }
  }

  lemma OwnedReap(cfg: Settings, s: State, a: Action)
    requires Owned(s) && Enabled(cfg, s, a) && a.Reap? && SparesHeld(s, a)
    ensures Owned(Apply(cfg, s, a))
  {
    OwnedElsewhere(s, Apply(cfg, s, a));
  }

  /** Writes of the API: PATCH, delete and create. */
  lemma OwnedWrite(cfg: Settings, s: State, a: Action)
    requires Owned(s) && Enabled(cfg, s, a) && SparesRunning(s, a) && (a.Patch? || a.Delete? || a.Insert?)
    ensures Owned(Apply(cfg, s, a))
  {
    forall b: nat, i: nat | Slot(s, b, i) ensures Kept(s, b, i) {}
    OwnedElsewhere(s, Apply(cfg, s, a));
  }

  lemma OwnedLess(cfg: Settings, s: State, a: Action)
    requires Owned(s) && Enabled(cfg, s, a) && (a.Lose? || a.Crash?)
    ensures Owned(Apply(cfg, s, a))
  {
    ExecutorWritesNothing(cfg, s, a);
    ExecutorFrame(cfg, s, a);
    OwnedFewer(s, Apply(cfg, s, a));
  }

  lemma OwnedStep(cfg: Settings, s: State, a: Action)
    requires Owned(s) && Enabled(cfg, s, a) && SparesRunning(s, a) && SparesHeld(s, a)
    ensures Owned(Apply(cfg, s, a))
  {
    if a.Claim? {
      OwnedClaim(cfg, s, a);
    } else if a.Dispatch? {
      OwnedDispatch(cfg, s, a.b);
    } else if a.Finish? {
      OwnedFinish(cfg, s, a);
    } else if a.Lose? || a.Crash? {
      OwnedLess(cfg, s, a);
    } else if a.Reap? {
      OwnedReap(cfg, s, a);
    } else if a.Patch? || a.Delete? || a.Insert? {
      OwnedWrite(cfg, s, a);
    } else {
      TableFrame(cfg, s, a);
      BatchesFrame(cfg, s, a);
      OwnedElsewhere(s, Apply(cfg, s, a));
    }
  }

  lemma SlotsOfExecutors(cfg: Settings, s: State, a: Action)
    requires Owned(s) && Enabled(cfg, s, a) && Executes(a)
    ensures |Apply(cfg, s, a).batches| == |s.batches|
    ensures forall b: nat, i: nat :: Slot(Apply(cfg, s, a), b, i) ==> Slot(s, b, i) && Holds(Apply(cfg, s, a), b, i) == Holds(s, b, i)
  {
    ExecutorFrame(cfg, s, a);
    if a.Finish? { assert Slot(s, a.b, a.i) && Kept(s, a.b, a.i); }
  }

  /** Positions only become active by a claim, in the batch it adds. */
  lemma SlotsFromClaims(cfg: Settings, s: State, a: Action)
    requires Owned(s) && Enabled(cfg, s, a)
    ensures var t := Apply(cfg, s, a);
      && |t.batches| == |s.batches| + (if a.Claim? then 1 else 0)
      && forall b: nat, i: nat :: Slot(t, b, i) && b < |s.batches| ==> Slot(s, b, i) && Holds(t, b, i) == Holds(s, b, i)
  {
    if Executes(a) { SlotsOfExecutors(cfg, s, a); } else if !a.Claim? { BatchesFrame(cfg, s, a); }
  }

  /* Whole runs */

  /** Under the timing hypothesis the reaper takes orphans only. */
  lemma ReapTakesOrphans(cfg: Settings, s: State, a: Action)
    requires cfg.Exclusive() && AllTimely(cfg, s) && Owned(s) && Enabled(cfg, s, a)
    ensures SparesHeld(s, a)
  {
    if a.Reap? {
      forall b: nat, i: nat | Slot(s, b, i) ensures Holds(s, b, i) !in a.ids {
        assert Kept(s, b, i);
        ActiveInSpan(cfg, s.clock, s.batches[b], i);
      }
    }
  }

  /** What safe steps keep. */
  ghost predicate Safe(cfg: Settings, s: State) {
    cfg.Exclusive() && AllTimely(cfg, s) && Owned(s)
  }

  lemma SafeStep(cfg: Settings, s: State, a: Action)
    requires Safe(cfg, s) && Enabled(cfg, s, a) && SparesRunning(s, a)
    ensures Safe(cfg, Apply(cfg, s, a)) && SparesHeld(s, a)
  {
    TimelyStep(cfg, s, a);
    ReapTakesOrphans(cfg, s, a);
    OwnedStep(cfg, s, a);
  }

  lemma {:induction false} OwnershipRun(cfg: Settings, s: State, acts: seq<Action>)
    requires Safe(cfg, s) && Legal(cfg, s, acts) && Throughout(cfg, s, acts, SparesRunning)
    ensures Safe(cfg, After(cfg, s, acts))
    ensures Throughout(cfg, s, acts, SparesHeld)
    decreases |acts|
  {
    if acts != [] {
      SafeStep(cfg, s, acts[0]);
      OwnershipRun(cfg, Apply(cfg, s, acts[0]), acts[1..]);
    }
  }

  ghost predicate Executing(s: State, b: nat, i: nat) {
    b < |s.batches| && i < |s.batches[b].ids| && i in s.batches[b].live
  }

  /** No two executors work on one row. */
  ghost predicate OneExecutorPerRow(s: State) {
    forall b, i, c, j :: Executing(s, b, i) && Executing(s, c, j) && Holds(s, b, i) == Holds(s, c, j) ==> b == c && i == j
  }

  /** Each executor's row is exactly what the executor loaded, or has been deleted. */
  ghost predicate Intact(s: State) {
    forall b: nat, i: nat :: Executing(s, b, i) ==>
      var x := Holds(s, b, i);
      if x in s.table then s.table[x] == s.batches[b].live[i].snapshot else x in s.gone
  }

  lemma OwnedIsExclusive(s: State)
    requires Owned(s)
    ensures OneExecutorPerRow(s) && Intact(s)
  {
    assert forall b: nat, i: nat :: Executing(s, b, i) ==> Slot(s, b, i);
    assert forall b: nat, i: nat :: Slot(s, b, i) ==> Kept(s, b, i);
  }

  /** From the empty table, over every run of any number of workers with crashes, reaps, creates,
      deletes and PATCHes that spare running rows: one executor per row, every executor's row
      untouched since it loaded it, and no reap of a row that is executing or queued. */
  lemma ExclusiveOwnership(cfg: Settings, s: State, acts: seq<Action>)
    requires cfg.Exclusive() && Init(s) && Legal(cfg, s, acts) && Throughout(cfg, s, acts, SparesRunning)
    ensures OneExecutorPerRow(After(cfg, s, acts)) && Intact(After(cfg, s, acts))
    ensures Throughout(cfg, s, acts, SparesHeld)
  {
    OwnershipRun(cfg, s, acts);
    OwnedIsExclusive(After(cfg, s, acts));
  }

  /** No lost update: an executor's write leaves the row as its edits applied to the row that is
      in the table at that moment, which is running; a deleted row stays deleted. */
  lemma OutcomeIsNotStale(cfg: Settings, s: State, a: Action)
    requires Owned(s) && Enabled(cfg, s, a) && a.Finish?
    ensures var x, t := Holds(s, a.b, a.i), Apply(cfg, s, a);
      && (x in s.table ==>
            && s.table[x].status == Running
            && t.table == s.table[x := Edited(cfg, s.table[x], a.outcome, s.clock).(updatedAt := s.clock)])
      && (x !in s.table ==> t.table == s.table)
  {
    assert Slot(s, a.b, a.i) && Kept(s, a.b, a.i) && Executing(s, a.b, a.i);
    var x := Holds(s, a.b, a.i);
    if x in s.table {
      FlushCurrent(s.table[x], cfg, a.outcome, s.clock);
    }
  }
}
