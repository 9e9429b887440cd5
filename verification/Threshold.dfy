/** The timing hypothesis is exact: when the reaper's timeout does not outlast every executor, a run
    of one claim and one reap takes the row of a live executor. */
module Threshold {
  import opened Tasks
  import opened Retry
  import opened Protocol
  import opened Ownership

  /** A run from the empty table, with no PATCH on a running row, that ends in s. */
  ghost predicate Leads(cfg: Settings, s0: State, acts: seq<Action>, s: State) {
    Init(s0) && Legal(cfg, s0, acts) && Throughout(cfg, s0, acts, SparesRunning) && After(cfg, s0, acts) == s
  }

  ghost predicate Reachable(cfg: Settings, s: State) {
    exists s0, acts :: Leads(cfg, s0, acts, s)
  }

  /** The same by a run of so many claims and reaps. */
  ghost predicate ReachableBy(cfg: Settings, s: State, claims: nat, reaps: nat) {
    exists s0, acts :: Leads(cfg, s0, acts, s) && Claims(acts) == claims && Reaps(acts) == reaps
  }

  lemma ReachInit(cfg: Settings, s: State)
    requires Init(s)
    ensures ReachableBy(cfg, s, 0, 0)
  {
    var acts: seq<Action> := [];
    assert Leads(cfg, s, acts, s) && Claims(acts) == 0 && Reaps(acts) == 0;
  }

  lemma CountsExtend(acts: seq<Action>, a: Action)
    ensures Claims(acts + [a]) == Claims(acts) + if a.Claim? then 1 else 0
    ensures Reaps(acts + [a]) == Reaps(acts) + if a.Reap? then 1 else 0
  {
    assert (acts + [a])[..|acts|] == acts;
  }

  lemma Reach(cfg: Settings, s: State, claims: nat, reaps: nat, a: Action) returns (t: State)
    requires ReachableBy(cfg, s, claims, reaps) && Enabled(cfg, s, a) && SparesRunning(s, a)
    ensures t == Apply(cfg, s, a)
    ensures ReachableBy(cfg, t, claims + if a.Claim? then 1 else 0, reaps + if a.Reap? then 1 else 0)
  {
    t := Apply(cfg, s, a);
    var s0, acts :| Leads(cfg, s0, acts, s) && Claims(acts) == claims && Reaps(acts) == reaps;
    RunExtend(cfg, s0, acts, a, SparesRunning);
    CountsExtend(acts, a);
    assert Leads(cfg, s0, acts + [a], t);
  }

  /* One claim of n plain tasks, executed in whole waves. */

  ghost predicate Seeded(s: State, n: nat) {
    && s.clock == 0 && s.batches == []
    && s.table.Keys !! s.gone.Keys && s.gone == map[]
    && (forall x: nat :: x in s.table <==> x < n)
    && (forall x :: x in s.table ==> PlainPending(s.table[x]))
    && (forall c :: c in s.clients ==> c < n)
  }

  predicate PlainPending(row: Row) {
    row.status == Pending && row.scheduledAt == 0 && row.retryCount == 0 && !row.forceFail
  }

  /** As one claim at instant 0 leaves a plain task. */
  predicate Plain(row: Row) {
    row.status == Running && row.updatedAt == 0 && row.retryCount == 0 && !row.forceFail
  }

  lemma SeedOne(cfg: Settings, s: State, n: nat) returns (t: State)
    requires ReachableBy(cfg, s, 0, 0) && Seeded(s, n)
    ensures ReachableBy(cfg, t, 0, 0) && Seeded(t, n + 1)
  {
    var find := Find(n, Request(None, None, false));
    t := Reach(cfg, s, 0, 0, find);
    FindPlain(cfg, s, n);
    InsertPlain(cfg, t, n);
    t := Reach(cfg, t, 0, 0, Insert(n, n));
  }

  lemma FindPlain(cfg: Settings, s: State, n: nat)
    requires n !in s.clients
    ensures Apply(cfg, s, Find(n, Request(None, None, false))) == s.(clients := s.clients[n := Inserting(Request(None, None, false))])
  {
  }

  lemma InsertPlain(cfg: Settings, s: State, n: nat)
    requires n in s.clients && s.clients[n] == Inserting(Request(None, None, false)) && Seeded(s.(clients := s.clients - {n}), n)
    ensures Enabled(cfg, s, Insert(n, n)) && Seeded(Apply(cfg, s, Insert(n, n)), n + 1)
  {
    assert Apply(cfg, s, Insert(n, n)).table == s.table[n := NewRow(Request(None, None, false), 0)];
    assert forall c :: c in s.clients ==> c in s.clients - {n} || c == n;
  }

  lemma {:induction false} Seed(cfg: Settings, n: nat) returns (s: State)
    ensures ReachableBy(cfg, s, 0, 0) && Seeded(s, n)
  {
    if n == 0 {
      s := State(0, map[], map[], [], map[], ZERO, ZERO, map[]);
      ReachInit(cfg, s);
    } else {
      s := Seed(cfg, n - 1);
      s := SeedOne(cfg, s, n - 1);
    }
  }

  ghost predicate InTail(ids: seq<Id>, from: nat, x: Id) {
    exists i :: from <= i < |ids| && ids[i] == x
  }

  /** One batch of all tasks: positions below `from` are done, those from `from` to `to` have been
      executing since `since`, and the rest wait. The last position's row is `last`, the others from
      `from` on are as claimed, and every other row has succeeded. */
  ghost predicate Wave(cfg: Settings, s: State, from: nat, to: nat, since: Time, last: Row) {
    && |s.batches| == 1 && WaveBatch(cfg, s.batches[0], from, to, since)
    && WaveRows(s.table, s.batches[0].ids, from, last)
  }

  ghost predicate WaveBatch(cfg: Settings, batch: Batch, from: nat, to: nat, since: Time) {
    && from <= to <= |batch.ids| == cfg.batchSize && Distinct(batch.ids)
    && batch.claimedAt == 0 && batch.next == to
    && (forall i :: i in batch.live <==> from <= i < to)
    && (forall i :: i in batch.live ==>
          batch.live[i].start == since && !batch.live[i].snapshot.forceFail && batch.live[i].snapshot.status == Running)
  }

  ghost predicate WaveRows(t: Table, ids: seq<Id>, from: nat, last: Row) {
    && (forall i :: from <= i < |ids| ==> ids[i] in t && (if i == |ids| - 1 then t[ids[i]] == last else Plain(t[ids[i]])))
    && (forall x :: x in t ==> InTail(ids, from, x) || t[x].status == Succeeded)
  }

  lemma ClaimSeeded(cfg: Settings, s: State, ids: seq<Id>)
    requires cfg.Valid() && |ids| == cfg.batchSize && s.clock == cfg.overhead && s.batches == []
    requires (forall x :: 0 <= x < |ids| ==> ids[x] == x) && (forall x: nat :: x in s.table <==> x < |ids|)
    requires forall x :: x in s.table ==> PlainPending(s.table[x])
    ensures Enabled(cfg, s, Claim(0, {}, ids))
    ensures var t := Apply(cfg, s, Claim(0, {}, ids));
      && t.clock == s.clock && t.batches == [Batch(0, cfg.overhead, ids, 0, map[])] && t.table == ClaimRows(s.table, ids, 0)
  {
    forall x: nat | x in s.table ensures x in ids { assert ids[x] == x; }
    assert OldestDue(s.table, 0, {}, cfg.batchSize, ids);
  }

  lemma WaitSeeded(cfg: Settings, s: State, n: nat)
    requires Seeded(s, n)
    ensures Enabled(cfg, s, Wait(cfg.overhead)) && Apply(cfg, s, Wait(cfg.overhead)) == s.(clock := cfg.overhead)
  {
  }

  function FirstIds(n: nat): (ids: seq<Id>)
    ensures |ids| == n && forall x :: 0 <= x < n ==> ids[x] == x
  {
    if n == 0 then [] else FirstIds(n - 1) + [n - 1]
  }

  lemma WaitSeed(cfg: Settings) returns (s: State)
    ensures ReachableBy(cfg, s, 0, 0) && Seeded(s.(clock := 0), cfg.batchSize) && s.clock == cfg.overhead
  {
    s := Seed(cfg, cfg.batchSize);
    WaitSeeded(cfg, s, cfg.batchSize);
    s := Reach(cfg, s, 0, 0, Wait(cfg.overhead));
  }

  lemma ClaimAll(cfg: Settings) returns (s: State, last: Row)
    requires cfg.Valid()
    ensures ReachableBy(cfg, s, 1, 0) && Wave(cfg, s, 0, 0, s.clock, last) && Plain(last) && s.clock == cfg.overhead
  {
    var waited := WaitSeed(cfg);
    last := ClaimSeedWave(cfg, waited);
    s := Reach(cfg, waited, 0, 0, Claim(0, {}, FirstIds(cfg.batchSize)));
  }

  lemma ClaimSeedWave(cfg: Settings, s: State) returns (last: Row)
    requires cfg.Valid() && Seeded(s.(clock := 0), cfg.batchSize) && s.clock == cfg.overhead
    ensures var a := Claim(0, {}, FirstIds(cfg.batchSize));
      Enabled(cfg, s, a) && Apply(cfg, s, a).clock == s.clock && Wave(cfg, Apply(cfg, s, a), 0, 0, s.clock, last) && Plain(last)
  {
    var ids := FirstIds(cfg.batchSize);
    ClaimSeeded(cfg, s, ids);
    ClaimedWave(s.table, ClaimRows(s.table, ids, 0), ids);
    last := ClaimRows(s.table, ids, 0)[cfg.batchSize - 1];
  }

  lemma ClaimedWave(before: Table, after: Table, ids: seq<Id>)
    requires |ids| >= 1 && (forall x :: 0 <= x < |ids| ==> ids[x] == x)
    requires (forall x: nat :: x in before <==> x < |ids|) && forall x :: x in before ==> PlainPending(before[x])
    requires after == ClaimRows(before, ids, 0)
    ensures |ids| - 1 in after && Plain(after[|ids| - 1]) && WaveRows(after, ids, 0, after[|ids| - 1])
  {
    forall x: nat | x < |ids| ensures x in ids && InTail(ids, 0, x) { assert ids[x] == x; }
  }

  lemma {:induction false} IntervalSize(k: set<nat>, lo: nat, hi: nat)
    requires lo <= hi && forall x :: x in k <==> lo <= x < hi
    ensures |k| == hi - lo
    decreases hi
  {
    if lo == hi {
      assert k == {};
    } else {
      IntervalSize(k - {hi - 1}, lo, hi - 1);
      assert k == (k - {hi - 1}) + {hi - 1};
    }
  }

  lemma LiveSize(cfg: Settings, batch: Batch, from: nat, to: nat, since: Time)
    requires WaveBatch(cfg, batch, from, to, since)
    ensures |batch.live| == to - from
  {
    IntervalSize(batch.live.Keys, from, to);
    assert |batch.live| == |batch.live.Keys|;
  }

  /** The head of the queue gets a slot. */
  lemma DispatchOne(cfg: Settings, s: State, from: nat, to: nat, last: Row, reaps: nat) returns (t: State)
    requires ReachableBy(cfg, s, 1, reaps) && Wave(cfg, s, from, to, s.clock, last)
    requires to < cfg.batchSize && to - from < cfg.Slots() && (to == cfg.batchSize - 1 ==> Plain(last))
    ensures ReachableBy(cfg, t, 1, reaps) && t.clock == s.clock && Wave(cfg, t, from, to + 1, s.clock, last)
  {
    LiveSize(cfg, s.batches[0], from, to, s.clock);
    StartWave(cfg, s, from, to, last);
    t := Reach(cfg, s, 1, reaps, Dispatch(0));
    ExecutorFrame(cfg, s, Dispatch(0));
    ExecutorWritesNothing(cfg, s, Dispatch(0));
  }

  lemma StartWave(cfg: Settings, s: State, from: nat, to: nat, last: Row)
    requires Wave(cfg, s, from, to, s.clock, last) && to < cfg.batchSize && (to == cfg.batchSize - 1 ==> Plain(last))
    ensures WaveBatch(cfg, Start(s, 0), from, to + 1, s.clock) && Start(s, 0).ids == s.batches[0].ids
  {
    assert Plain(s.table[s.batches[0].ids[to]]);
  }

  lemma {:induction false} FillTo(cfg: Settings, s: State, from: nat, to: nat, top: nat, last: Row, reaps: nat) returns (t: State)
    requires ReachableBy(cfg, s, 1, reaps) && Wave(cfg, s, from, to, s.clock, last)
    requires to <= top <= cfg.batchSize && top - from <= cfg.Slots() && (top == cfg.batchSize ==> Plain(last))
    ensures ReachableBy(cfg, t, 1, reaps) && t.clock == s.clock && Wave(cfg, t, from, top, s.clock, last)
    decreases top - to
  {
    t := s;
    if to < top {
      t := DispatchOne(cfg, s, from, to, last, reaps);
      t := FillTo(cfg, t, from, to + 1, top, last, reaps);
    }
  }

  /** Time passes while the slots are full, or the queue is empty. */
  lemma Pass(cfg: Settings, s: State, from: nat, to: nat, since: Time, last: Row, reaps: nat, until: Time) returns (t: State)
    requires ReachableBy(cfg, s, 1, reaps) && Wave(cfg, s, from, to, since, last)
    requires to - from == cfg.Slots() || to == cfg.batchSize
    requires s.clock <= until <= since + cfg.executionTimeout
    ensures ReachableBy(cfg, t, 1, reaps) && t == s.(clock := until)
  {
    LiveSize(cfg, s.batches[0], from, to, since);
    t := Reach(cfg, s, 1, reaps, Wait(until));
  }

  lemma FinishedRows(t: Table, u: Table, ids: seq<Id>, from: nat, last: Row)
    requires WaveRows(t, ids, from, last) && Distinct(ids) && from < |ids| - 1
    requires ids[from] in u && u == t[ids[from] := u[ids[from]]] && u[ids[from]].status == Succeeded
    ensures WaveRows(u, ids, from + 1, last)
  {
    forall x | x in u ensures InTail(ids, from + 1, x) || u[x].status == Succeeded {
      if x != ids[from] && InTail(ids, from, x) {
        var i :| from <= i < |ids| && ids[i] == x;
        assert i != from;
      }
    }
  }

  lemma FinishOne(cfg: Settings, s: State, from: nat, to: nat, since: Time, last: Row, reaps: nat) returns (t: State)
    requires ReachableBy(cfg, s, 1, reaps) && Wave(cfg, s, from, to, since, last) && from < to < cfg.batchSize
    ensures ReachableBy(cfg, t, 1, reaps) && t.clock == s.clock && Wave(cfg, t, from + 1, to, since, last)
  {
    var a := Finish(0, from, Success);
    t := Reach(cfg, s, 1, reaps, a);
    ExecutorFrame(cfg, s, a);
    FinishFrame(cfg, s, a);
    FinishedRows(s.table, t.table, s.batches[0].ids, from, last);
  }

  /** All running executors succeed at once. */
  lemma {:induction false} FinishWave(cfg: Settings, s: State, from: nat, to: nat, since: Time, last: Row, reaps: nat) returns (t: State)
    requires ReachableBy(cfg, s, 1, reaps) && Wave(cfg, s, from, to, since, last) && to < cfg.batchSize
    ensures ReachableBy(cfg, t, 1, reaps) && t.clock == s.clock && Wave(cfg, t, to, to, t.clock, last)
    decreases if from <= to then to - from else 0
  {
    t := s;
    if from < to {
      t := FinishOne(cfg, s, from, to, since, last, reaps);
      t := FinishWave(cfg, t, from + 1, to, since, last, reaps);
    }
  }

  /** Fill the slots, let every executor use its full time, and finish. */
  lemma OneWave(cfg: Settings, s: State, from: nat, last: Row) returns (t: State)
    requires ReachableBy(cfg, s, 1, 0) && Wave(cfg, s, from, from, s.clock, last) && from + cfg.Slots() < cfg.batchSize
    ensures ReachableBy(cfg, t, 1, 0) && t.clock == s.clock + cfg.executionTimeout
    ensures Wave(cfg, t, from + cfg.Slots(), from + cfg.Slots(), t.clock, last)
  {
    t := FillTo(cfg, s, from, from, from + cfg.Slots(), last, 0);
    t := Pass(cfg, t, from, from + cfg.Slots(), s.clock, last, 0, s.clock + cfg.executionTimeout);
    t := FinishWave(cfg, t, from, from + cfg.Slots(), s.clock, last, 0);
  }

  /** A wave that reaches the end of the batch is the last one. */
  lemma LastWaveTime(cfg: Settings, from: nat)
    requires from < cfg.batchSize <= from + cfg.Slots()
    requires WaveTime(from + cfg.Slots() - 1, cfg.Slots(), cfg.executionTimeout) == WaveTime(from, cfg.Slots(), cfg.executionTimeout)
    ensures WaveTime(cfg.batchSize - 1, cfg.Slots(), cfg.executionTimeout) == WaveTime(from, cfg.Slots(), cfg.executionTimeout)
  {
    var c, e, n := cfg.Slots(), cfg.executionTimeout, cfg.batchSize;
    WaveMonotone(from, n - 1, c, e);
    WaveMonotone(n - 1, from + c - 1, c, e);
  }

  /** Whole waves of full length until the last one has its slots. */
  lemma {:induction false} ReachLastWave(cfg: Settings, s: State, from: nat, last: Row) returns (t: State, at: nat)
    requires ReachableBy(cfg, s, 1, 0) && Wave(cfg, s, from, from, s.clock, last) && from < cfg.batchSize && Plain(last)
    requires var c, e := cfg.Slots(), cfg.executionTimeout;
      s.clock == cfg.overhead + WaveTime(from, c, e) && WaveTime(from + c - 1, c, e) == WaveTime(from, c, e)
    ensures ReachableBy(cfg, t, 1, 0) && at < cfg.batchSize && Wave(cfg, t, at, cfg.batchSize, t.clock, last)
    ensures t.clock == cfg.overhead + WaveTime(cfg.batchSize - 1, cfg.Slots(), cfg.executionTimeout)
    decreases cfg.batchSize - from
  {
    if from + cfg.Slots() >= cfg.batchSize {
      LastWaveTime(cfg, from);
      at := from;
      t := FillTo(cfg, s, from, from, cfg.batchSize, last, 0);
    } else {
      t := OneWave(cfg, s, from, last);
      t, at := ReachLastWave(cfg, t, from + cfg.Slots(), last);
    }
  }

  /** At any instant of the last wave's execution. */
  lemma LastWaveAt(cfg: Settings, target: Time) returns (s: State, at: nat, last: Row)
    requires cfg.Valid() && cfg.overhead + cfg.QueueTime() <= target <= cfg.Span()
    ensures ReachableBy(cfg, s, 1, 0) && at < cfg.batchSize && Plain(last) && s.clock == target
    ensures Wave(cfg, s, at, cfg.batchSize, cfg.overhead + cfg.QueueTime(), last)
  {
    QueueTimeIs(cfg);
    s, last := ClaimAll(cfg);
    s, at := ReachLastWave(cfg, s, 0, last);
    s := Pass(cfg, s, at, cfg.batchSize, s.clock, last, 0, target);
  }

  /** The last wave's rows are taken from their executors by a reap, and nothing else is left. */
  ghost predicate Reaped(cfg: Settings, t: Table, ids: seq<Id>, at: nat, now: Time) {
    && (forall i :: at <= i < |ids| ==>
          && ids[i] in t && (t[ids[i]].status == Pending || t[ids[i]].status == Dead)
          && (cfg.maxRetries >= 1 ==> t[ids[i]].status == Pending && t[ids[i]].scheduledAt == now + cfg.backoffBase))
    && (forall x :: x in t ==> InTail(ids, at, x) || t[x].status == Succeeded)
  }

  lemma TailIsStale(cfg: Settings, s: State, at: nat, last: Row)
    requires |s.batches| == 1 && at < |s.batches[0].ids| == cfg.batchSize && Distinct(s.batches[0].ids)
    requires WaveRows(s.table, s.batches[0].ids, at, last) && Plain(last) && s.clock > cfg.staleTimeout
    ensures SomeStale(s.table, s.clock, cfg.staleTimeout, {}, cfg.batchSize, s.batches[0].ids[at..])
  {
    var ids := s.batches[0].ids;
    var tail := ids[at..];
    forall y | y in s.table && s.table[y].status == Running ensures y in tail {
      var j :| at <= j < |ids| && ids[j] == y;
      assert tail[j - at] == y;
    }
    forall i | 0 <= i < |tail| ensures tail[i] in s.table && Plain(s.table[tail[i]]) { assert tail[i] == ids[at + i]; }
  }

  lemma ReapShape(cfg: Settings, s: State, a: Action)
    requires Enabled(cfg, s, a) && a.Reap?
    ensures var t := Apply(cfg, s, a);
      t.clock == s.clock && t.batches == s.batches && t.table == ReapRows(cfg, s.table, a.ids, a.asOf, s.clock)
  {
  }

  /** Everything that runs is reaped once it is old enough. */
  lemma ReapWave(cfg: Settings, s: State, at: nat, since: Time, last: Row) returns (t: State)
    requires ReachableBy(cfg, s, 1, 0) && at < cfg.batchSize && Wave(cfg, s, at, cfg.batchSize, since, last) && Plain(last)
    requires s.clock > cfg.staleTimeout
    ensures ReachableBy(cfg, t, 1, 1) && t.clock == s.clock && t.batches == s.batches
    ensures Reaped(cfg, t.table, t.batches[0].ids, at, t.clock)
  {
    TailIsStale(cfg, s, at, last);
    var a := Reap(s.clock, {}, s.batches[0].ids[at..]);
    t := Reach(cfg, s, 1, 0, a);
    ReapShape(cfg, s, a);
    ReapedTail(cfg, s.table, s.batches[0].ids, at, s.clock, last);
  }

  lemma ReapedTail(cfg: Settings, t: Table, ids: seq<Id>, at: nat, now: Time, last: Row)
    requires at < |ids| && WaveRows(t, ids, at, last) && Plain(last) && Distinct(ids)
    ensures Reaped(cfg, ReapRows(cfg, t, ids[at..], now, now), ids, at, now)
  {
    var r := ReapRows(cfg, t, ids[at..], now, now);
    forall i | at <= i < |ids| ensures ids[i] in r && r[ids[i]] == FailedRow(cfg, t[ids[i]], STALLED, now).(updatedAt := now) {
      assert ids[at..][i - at] == ids[i];
    }
  }

  /** Whenever the timing hypothesis fails, one claim and one reap take the row of a live executor. */
  lemma BadRun(cfg: Settings) returns (s: State, b: nat, i: nat)
    requires cfg.Valid() && !cfg.Exclusive()
    ensures ReachableBy(cfg, s, 1, 1) && !Intact(s)
    ensures Executing(s, b, i) && Holds(s, b, i) in s.table && s.table[Holds(s, b, i)].status in {Pending, Dead}
  {
    QueueTimeIs(cfg);
    var turn := cfg.overhead + cfg.QueueTime();
    var target := if turn > cfg.staleTimeout then turn else cfg.staleTimeout + 1;
    var at, last;
    s, at, last := LastWaveAt(cfg, target);
    s := ReapWave(cfg, s, at, turn, last);
    b, i := 0, at;
    assert Executing(s, 0, at) && s.batches[0].live[at].snapshot.status == Running;
  }

  /** Executors keep their rows in every reachable state exactly when the longest span of a claim,
      overhead plus ceil(B / C) execution timeouts, does not exceed the reaper's timeout. */
  lemma OwnershipThreshold(cfg: Settings)
    requires cfg.Valid()
    ensures (forall s :: Reachable(cfg, s) ==> Intact(s)) <==> cfg.Exclusive()
  {
    if cfg.Exclusive() {
      forall s | Reachable(cfg, s) ensures Intact(s) {
        var s0, acts :| Leads(cfg, s0, acts, s);
        ExclusiveOwnership(cfg, s0, acts);
      }
    } else {
      var s, b, i := BadRun(cfg);
      assert Reachable(cfg, s);
    }
  }
}
