/** The gather of run_once on its own: n claimed tasks, any durations up to the execution timeout,
    dispatched first come first served onto C semaphore slots. */
module Semaphore {
  import opened Tasks
  import opened Ownership

  /** Task i runs on slot `slot[i]` from `start[i]` for `durations[i]`. */
  ghost predicate Schedule(c: nat, durations: seq<nat>, start: seq<Time>, slot: seq<nat>) {
    && |start| == |slot| == |durations|
    && (forall i :: 0 <= i < |slot| ==> slot[i] < c && 0 <= start[i])
    && (forall i, j :: 0 <= i < j < |slot| ==> start[i] <= start[j])
    && (forall i, j :: 0 <= i < j < |slot| && slot[i] == slot[j] ==> start[i] + durations[i] <= start[j])
  }

  /** Slot k has been given one of the first n tasks that ends at `end` or later. */
  ghost predicate BusyUntil(durations: seq<nat>, start: seq<Time>, slot: seq<nat>, n: nat, k: nat, end: Time)
    requires n <= |start| == |slot| == |durations|
  {
    exists j :: 0 <= j < n && slot[j] == k && start[j] + durations[j] >= end
  }

  /** No slot is idle while a task waits: when task i does not start at the beginning, every slot is
      busy with earlier tasks until it does. */
  ghost predicate Eager(c: nat, durations: seq<nat>, start: seq<Time>, slot: seq<nat>, i: nat)
    requires i < |start| == |slot| == |durations|
  {
    start[i] > 0 ==> forall k: nat :: k < c ==> BusyUntil(durations, start, slot, i, k, start[i])
  }

  ghost predicate AllEager(c: nat, durations: seq<nat>, start: seq<Time>, slot: seq<nat>)
    requires |start| == |slot| == |durations|
  {
    forall i: nat :: i < |start| ==> Eager(c, durations, start, slot, i)
  }

  ghost function Total(counts: seq<nat>): nat {
    if counts == [] then 0 else counts[0] + Total(counts[1..])
  }

  lemma {:induction false} TotalAtLeast(counts: seq<nat>, q: nat)
    requires forall k :: 0 <= k < |counts| ==> counts[k] >= q
    ensures Total(counts) >= |counts| * q
    decreases |counts|
  {
    if counts != [] {
      TotalAtLeast(counts[1..], q);
      assert |counts| * q == (|counts| - 1) * q + q;
    }
  }

  /** Some slot has had at most its share of the n tasks dispatched so far. */
  lemma FairShare(counts: seq<nat>, n: nat) returns (k: nat)
    requires |counts| >= 1 && Total(counts) == n
    ensures k < |counts| && counts[k] <= n / |counts|
  {
    var c := |counts|;
    if forall k :: 0 <= k < c ==> counts[k] >= n / c + 1 {
      TotalAtLeast(counts, n / c + 1);
      OverShare(n, c);
    }
    k :| 0 <= k < c && counts[k] <= n / c;
  }

  lemma OverShare(n: nat, c: nat)
    requires c >= 1
    ensures c * (n / c + 1) > n
  {
  }

  lemma {:induction false} TotalBump(counts: seq<nat>, k: nat)
    requires k < |counts|
    ensures Total(counts[k := counts[k] + 1]) == Total(counts) + 1
    decreases |counts|
  {
    var bumped := counts[k := counts[k] + 1];
    if k > 0 {
      TotalBump(counts[1..], k - 1);
      assert bumped[1..] == counts[1..][k - 1 := counts[1..][k - 1] + 1];
    } else {
      assert bumped[1..] == counts[1..];
    }
  }

  lemma {:induction false} TotalZero(counts: seq<nat>)
    requires forall k :: 0 <= k < |counts| ==> counts[k] == 0
    ensures Total(counts) == 0
    decreases |counts|
  {
    if counts != [] { TotalZero(counts[1..]); }
  }

  /** The slot that comes free first. */
  method FirstFree(free: array<Time>) returns (k: nat)
    requires free.Length >= 1
    ensures k < free.Length && forall m :: 0 <= m < free.Length ==> free[k] <= free[m]
  {
    k := 0;
    for m := 1 to free.Length
      invariant k < free.Length && forall i :: 0 <= i < m ==> free[k] <= free[i]
    {
      if free[m] < free[k] { k := m; }
    }
  }

  /** n times e, by recursion. */
  ghost function Busy(n: nat, e: nat): nat {
    if n == 0 then 0 else Busy(n - 1, e) + e
  }

  lemma {:induction false} BusyWithin(q: nat, n: nat, c: nat, e: nat)
    requires c >= 1 && q <= n / c
    ensures Busy(q, e) <= WaveTime(n, c, e)
    decreases q
  {
    if q > 0 {
      QuotientStep(n, c);
      BusyWithin(q - 1, n - c, c, e);
    }
  }

  /** Each slot has been busy at most e per task it was given, n in all. */
  ghost predicate Loaded(free: seq<Time>, counts: seq<nat>, e: nat, n: nat) {
    && |free| == |counts| && Total(counts) == n
    && (forall k :: 0 <= k < |free| ==> free[k] <= Busy(counts[k], e))
  }

  /** The next task starts within n / c executions of the beginning. */
  lemma NextStart(free: seq<Time>, counts: seq<nat>, e: nat, n: nat, first: nat)
    requires |free| >= 1 && Loaded(free, counts, e, n)
    requires first < |free| && forall k :: 0 <= k < |free| ==> free[first] <= free[k]
    ensures free[first] <= WaveTime(n, |free|, e)
  {
    var k := FairShare(counts, n);
    BusyWithin(counts[k], n, |free|, e);
  }

  lemma GiveTask(free: seq<Time>, counts: seq<nat>, e: nat, n: nat, k: nat, d: nat)
    requires Loaded(free, counts, e, n) && k < |free| && d <= e
    ensures Loaded(free[k := free[k] + d], counts[k := counts[k] + 1], e, n + 1)
  {
    TotalBump(counts, k);
  }

  /** No later task can start before an earlier one, or on a slot still taken. */
  ghost predicate Behind(c: nat, durations: seq<nat>, start: seq<Time>, slot: seq<nat>, free: seq<Time>) {
    && |free| == c && |start| == |slot| == |durations|
    && (forall k :: 0 <= k < c ==> free[k] >= 0)
    && (forall i, k :: 0 <= i < |start| && 0 <= k < c ==> start[i] <= free[k])
    && (forall i :: 0 <= i < |slot| ==> slot[i] < c && start[i] + durations[i] <= free[slot[i]])
    && (forall k: nat :: k < c && free[k] > 0 ==> BusyUntil(durations, start, slot, |slot|, k, free[k]))
  }

  /** The end of the last task to end, or the beginning if there is none. */
  ghost predicate LastEnd(durations: seq<nat>, start: seq<Time>, end: Time)
    requires |start| == |durations|
  {
    if start == [] then end == 0 else exists i :: 0 <= i < |start| && end == start[i] + durations[i]
  }

  lemma LastEndNext(durations: seq<nat>, n: nat, start: seq<Time>, s: Time, end: Time)
    requires n == |start| < |durations| && LastEnd(durations[..n], start, end) && s >= 0
    ensures var f := s + durations[n]; LastEnd(durations[..n + 1], start + [s], if end < f then f else end)
  {
    var starts := start + [s];
    assert starts[n] + durations[..n + 1][n] == s + durations[n];
    if start != [] {
      var i :| 0 <= i < n && end == start[i] + durations[..n][i];
      assert starts[i] + durations[..n + 1][i] == end;
    }
  }

  ghost predicate InTime(c: nat, e: nat, durations: seq<nat>, start: seq<Time>, end: Time)
    requires c >= 1 && |start| == |durations|
  {
    && (forall i :: 0 <= i < |start| ==> start[i] <= WaveTime(i, c, e) && start[i] + durations[i] <= end)
    && end <= WaveTime(|start| + c - 1, c, e)
  }

  /** What the loop knows after n dispatches. */
  ghost predicate Dispatched(c: nat, e: nat, durations: seq<nat>, n: nat, start: seq<Time>, slot: seq<nat>, free: seq<Time>, end: Time)
    requires c >= 1
  {
    && n <= |durations| && Schedule(c, durations[..n], start, slot)
    && Behind(c, durations[..n], start, slot, free) && InTime(c, e, durations[..n], start, end)
    && AllEager(c, durations[..n], start, slot)
  }

  lemma ScheduleNext(c: nat, done: seq<nat>, d: nat, start: seq<Time>, slot: seq<nat>, free: seq<Time>, k: nat)
    requires Schedule(c, done, start, slot) && Behind(c, done, start, slot, free) && k < c
    ensures Schedule(c, done + [d], start + [free[k]], slot + [k])
  {
  }

  /** What a slot is busy with stays so when one more task is dispatched. */
  lemma BusyStays(done: seq<nat>, d: nat, start: seq<Time>, slot: seq<nat>, s: Time, k: nat, n: nat, m: nat, end: Time)
    requires n <= |start| == |slot| == |done| && BusyUntil(done, start, slot, n, m, end)
    ensures BusyUntil(done + [d], start + [s], slot + [k], n, m, end)
  {
    var j :| 0 <= j < n && slot[j] == m && start[j] + done[j] >= end;
    assert (slot + [k])[j] == m && (start + [s])[j] + (done + [d])[j] >= end;
  }

  lemma BehindNext(c: nat, done: seq<nat>, d: nat, start: seq<Time>, slot: seq<nat>, free: seq<Time>, k: nat)
    requires Behind(c, done, start, slot, free) && k < c && forall m :: 0 <= m < c ==> free[k] <= free[m]
    ensures Behind(c, done + [d], start + [free[k]], slot + [k], free[k := free[k] + d])
  {
    var durations, starts, slots, after := done + [d], start + [free[k]], slot + [k], free[k := free[k] + d];
    forall m: nat | m < c && after[m] > 0 ensures BusyUntil(durations, starts, slots, |slots|, m, after[m]) {
      if m == k {
        assert slots[|slot|] == k && starts[|slot|] + durations[|slot|] == after[k];
      } else {
        BusyStays(done, d, start, slot, free[k], k, |slot|, m, free[m]);
      }
    }
  }

  /** The task that takes the slot free first starts at once. */
  lemma EagerNext(c: nat, done: seq<nat>, d: nat, start: seq<Time>, slot: seq<nat>, free: seq<Time>, k: nat)
    requires Behind(c, done, start, slot, free) && k < c && forall m :: 0 <= m < c ==> free[k] <= free[m]
    ensures Eager(c, done + [d], start + [free[k]], slot + [k], |start|)
  {
    if free[k] > 0 {
      forall m: nat | m < c ensures BusyUntil(done + [d], start + [free[k]], slot + [k], |start|, m, free[k]) {
        BusyStays(done, d, start, slot, free[k], k, |slot|, m, free[m]);
      }
    }
  }

  lemma EagerStays(c: nat, done: seq<nat>, d: nat, start: seq<Time>, slot: seq<nat>, s: Time, k: nat, i: nat)
    requires i < |start| == |slot| == |done| && Eager(c, done, start, slot, i)
    ensures Eager(c, done + [d], start + [s], slot + [k], i)
  {
    if start[i] > 0 {
      forall m: nat | m < c ensures BusyUntil(done + [d], start + [s], slot + [k], i, m, start[i]) {
        BusyStays(done, d, start, slot, s, k, i, m, start[i]);
      }
    }
  }

  lemma InTimeNext(c: nat, e: nat, done: seq<nat>, d: nat, start: seq<Time>, s: Time, end: Time)
    requires c >= 1 && |start| == |done| && InTime(c, e, done, start, end) && s <= WaveTime(|start|, c, e) && d <= e
    ensures InTime(c, e, done + [d], start + [s], if end < s + d then s + d else end)
  {
    var n := |start|;
    assert WaveTime(n + c, c, e) == WaveTime(n, c, e) + e;
    WaveMonotone(n + c - 1, n + c, c, e);
  }

  lemma AllEagerNext(c: nat, done: seq<nat>, d: nat, start: seq<Time>, slot: seq<nat>, free: seq<Time>, k: nat)
    requires Behind(c, done, start, slot, free) && k < c && forall m :: 0 <= m < c ==> free[k] <= free[m]
    requires AllEager(c, done, start, slot)
    ensures AllEager(c, done + [d], start + [free[k]], slot + [k])
  {
    forall i: nat | i < |start + [free[k]]| ensures Eager(c, done + [d], start + [free[k]], slot + [k], i) {
      if i < |start| { EagerStays(c, done, d, start, slot, free[k], k, i); } else { EagerNext(c, done, d, start, slot, free, k); }
    }
  }

  lemma DispatchNext(c: nat, e: nat, durations: seq<nat>, n: nat, start: seq<Time>, slot: seq<nat>, free: seq<Time>, end: Time, k: nat)
    requires c >= 1 && Dispatched(c, e, durations, n, start, slot, free, end) && n < |durations| && durations[n] <= e
    requires k < c && forall m :: 0 <= m < c ==> free[k] <= free[m]
    requires free[k] <= WaveTime(n, c, e)
    ensures var f := free[k] + durations[n];
      Dispatched(c, e, durations, n + 1, start + [free[k]], slot + [k], free[k := f], if end < f then f else end)
  {
    var done, d := durations[..n], durations[n];
    assert durations[..n + 1] == done + [d];
    ScheduleNext(c, done, d, start, slot, free, k);
    BehindNext(c, done, d, start, slot, free, k);
    AllEagerNext(c, done, d, start, slot, free, k);
    InTimeNext(c, e, done, d, start, free[k], end);
  }

  lemma TakeFirst(c: nat, e: nat, durations: seq<nat>, n: nat, start: seq<Time>, slot: seq<nat>, free: seq<Time>, end: Time,
                  counts: seq<nat>, k: nat, s: Time, f: Time, last: Time)
    requires c >= 1 && n < |durations| && durations[n] <= e
    requires Loaded(free, counts, e, n) && Dispatched(c, e, durations, n, start, slot, free, end)
    requires k < |free| && forall m :: 0 <= m < |free| ==> free[k] <= free[m]
    requires s == free[k] && f == s + durations[n] && last == if end < f then f else end
    ensures Loaded(free[k := f], counts[k := counts[k] + 1], e, n + 1)
    ensures Dispatched(c, e, durations, n + 1, start + [s], slot + [k], free[k := f], last)
  {
    NextStart(free, counts, e, n, k);
    DispatchNext(c, e, durations, n, start, slot, free, end, k);
    GiveTask(free, counts, e, n, k, durations[n]);
  }

  /** The head of the queue takes the slot that comes free first. */
  method DispatchOne(c: nat, e: nat, durations: seq<nat>, n: nat, start: seq<Time>, slot: seq<nat>, free: array<Time>, end: Time,
                     ghost counts: seq<nat>)
    returns (starts: seq<Time>, slots: seq<nat>, last: Time, ghost counted: seq<nat>)
    requires c >= 1 && n < |durations| && durations[n] <= e
    requires Loaded(free[..], counts, e, n) && Dispatched(c, e, durations, n, start, slot, free[..], end)
    requires LastEnd(durations[..n], start, end)
    modifies free
    ensures Loaded(free[..], counted, e, n + 1) && Dispatched(c, e, durations, n + 1, starts, slots, free[..], last)
    ensures LastEnd(durations[..n + 1], starts, last)
  {
    var k := FirstFree(free);
    var s := free[k];
    var f := s + durations[n];
    starts, slots, last := start + [s], slot + [k], if end < f then f else end;
    counted := counts[k := counts[k] + 1];
    ghost var before := free[..];
    TakeFirst(c, e, durations, n, start, slot, before, end, counts, k, s, f, last);
    LastEndNext(durations, n, start, s, end);
    free[k] := f;
    assert free[..] == before[k := f];
  }

  /** The dispatch loop, with its bounds by recursion. */
  method DispatchAll(c: nat, e: nat, durations: seq<nat>) returns (start: seq<Time>, slot: seq<nat>, end: Time)
    requires c >= 1 && forall i :: 0 <= i < |durations| ==> durations[i] <= e
    ensures Schedule(c, durations, start, slot)
    ensures forall i :: 0 <= i < |durations| ==> start[i] <= WaveTime(i, c, e) && start[i] + durations[i] <= end
    ensures end <= WaveTime(|durations| + c - 1, c, e)
    ensures AllEager(c, durations, start, slot) && LastEnd(durations, start, end)
  {
    var free := new Time[c](_ => 0);
    ghost var counts: seq<nat> := seq(c, _ => 0);
    TotalZero(counts);
    start, slot, end := [], [], 0;
    for n := 0 to |durations|
      invariant Loaded(free[..], counts, e, n)
      invariant Dispatched(c, e, durations, n, start, slot, free[..], end) && LastEnd(durations[..n], start, end)
    {
      start, slot, end, counts := DispatchOne(c, e, durations, n, start, slot, free, end, counts);
    }
    AllDispatched(c, e, durations, start, slot, free[..], end);
    assert durations[..|durations|] == durations;
  }

  lemma AllDispatched(c: nat, e: nat, durations: seq<nat>, start: seq<Time>, slot: seq<nat>, free: seq<Time>, end: Time)
    requires c >= 1 && Dispatched(c, e, durations, |durations|, start, slot, free, end)
    ensures Schedule(c, durations, start, slot) && AllEager(c, durations, start, slot)
    ensures forall i :: 0 <= i < |durations| ==> start[i] <= WaveTime(i, c, e) && start[i] + durations[i] <= end
    ensures end <= WaveTime(|durations| + c - 1, c, e)
  {
    assert durations[..|durations|] == durations;
  }

  /** The tasks that run at an instant. */
  ghost function RunningAt(durations: seq<nat>, start: seq<Time>, now: Time): set<nat>
    requires |start| == |durations|
  {
    set i: nat | i < |start| && start[i] <= now < start[i] + durations[i]
  }

  /** Run all tasks of a tick, in order, never more than max(1, concurrency) at once and never fewer than
      that while one waits. Task i starts by (i / C) * E and all end by ceil(n / C) * E. */
  method Gather(cfg: Settings, durations: seq<nat>) returns (start: seq<Time>, slot: seq<nat>, end: Time)
    requires forall i :: 0 <= i < |durations| ==> durations[i] <= cfg.executionTimeout
    ensures Schedule(cfg.Slots(), durations, start, slot)
    ensures forall i, j :: 0 <= i < j < |durations| ==> start[i] <= start[j]
    ensures forall now :: |RunningAt(durations, start, now)| <= if cfg.concurrency < 1 then 1 else cfg.concurrency
    ensures forall i :: 0 <= i < |durations| ==> Eager(cfg.Slots(), durations, start, slot, i)
    ensures forall i :: 0 <= i < |durations| ==> start[i] <= (i / cfg.Slots()) * cfg.executionTimeout
    ensures forall i :: 0 <= i < |durations| ==> start[i] + durations[i] <= end
    ensures if durations == [] then end == 0 else exists i :: 0 <= i < |durations| && end == start[i] + durations[i]
    ensures end <= cfg.Waves(|durations|) * cfg.executionTimeout
  {
    start, slot, end := DispatchAll(cfg.Slots(), cfg.executionTimeout, durations);
    SlotTimes(cfg, start);
    SpanOf(cfg, |durations|);
    forall now ensures |RunningAt(durations, start, now)| <= cfg.Slots() {
      AtMostCAtOnce(cfg.Slots(), durations, start, slot, now, RunningAt(durations, start, now));
    }
  }

  lemma SpanOf(cfg: Settings, n: nat)
    ensures WaveTime(n + cfg.Slots() - 1, cfg.Slots(), cfg.executionTimeout) == cfg.Waves(n) * cfg.executionTimeout
  {
    WaveTimeIs(n + cfg.Slots() - 1, cfg.Slots(), cfg.executionTimeout);
  }

  lemma SlotTimes(cfg: Settings, start: seq<Time>)
    requires forall i :: 0 <= i < |start| ==> start[i] <= WaveTime(i, cfg.Slots(), cfg.executionTimeout)
    ensures forall i :: 0 <= i < |start| ==> start[i] <= (i / cfg.Slots()) * cfg.executionTimeout
  {
    forall i | 0 <= i < |start| ensures start[i] <= (i / cfg.Slots()) * cfg.executionTimeout {
      WaveTimeIs(i, cfg.Slots(), cfg.executionTimeout);
    }
  }

  /** At no instant do more than C tasks run. */
  lemma AtMostCAtOnce(c: nat, durations: seq<nat>, start: seq<Time>, slot: seq<nat>, now: Time, running: set<nat>)
    requires Schedule(c, durations, start, slot)
    requires forall i :: i in running ==> i < |slot| && start[i] <= now < start[i] + durations[i]
    ensures |running| <= c
  {
    var used := set i | i in running :: slot[i];
    ImageSize(running, slot);
    BelowSize(used, 0, c);
  }

  lemma {:induction false} ImageSize(xs: set<nat>, f: seq<nat>)
    requires forall i :: i in xs ==> i < |f|
    requires forall i, j :: i in xs && j in xs && f[i] == f[j] ==> i == j
    ensures |set i | i in xs :: f[i]| == |xs|
    decreases |xs|
  {
    if xs != {} {
      var x :| x in xs;
      ImageSize(xs - {x}, f);
      var image := set i | i in xs - {x} :: f[i];
      assert (set i | i in xs :: f[i]) == image + {f[x]};
      assert f[x] !in image;
    }
  }
}
