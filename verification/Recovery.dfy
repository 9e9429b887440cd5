/** Crash recovery: rows whose executor is lost go back to work within ceil(n / B) reaper passes. */
module Recovery {
  import opened Tasks
  import opened Retry
  import opened Protocol
  import opened Ownership
  import opened Sums

  /** Running rows last written before `cutoff`. */
  ghost function Lost(t: Table, cutoff: Time): set<Id> {
    set x | x in t && t[x].status == Running && t[x].updatedAt < cutoff
  }

  /** A reap that sees every row older than the cutoff and skips none. */
  ghost predicate Pass(cfg: Settings, a: Action, cutoff: Time) {
    a.Reap? && a.locked == {} && a.asOf - cfg.staleTimeout >= cutoff
  }

  /** No reap has other stale rows to choose from than the lost ones. */
  ghost function OnlyLost(cfg: Settings, cutoff: Time): (State, Action) -> bool {
    (s: State, a: Action) =>
      && SparesRunning(s, a)
      && (a.Reap? ==> forall x :: x in s.table && Stale(s.table[x], a.asOf, cfg.staleTimeout) ==> x in Lost(s.table, cutoff))
  }

  ghost function Passes(cfg: Settings, acts: seq<Action>, cutoff: Time): nat {
    if acts == [] then 0 else (if Pass(cfg, acts[0], cutoff) then 1 else 0) + Passes(cfg, acts[1..], cutoff)
  }

  /** B rows for every pass, by recursion. */
  ghost function Capacity(cfg: Settings, acts: seq<Action>, cutoff: Time): nat {
    if acts == [] then 0 else
    (if Pass(cfg, acts[0], cutoff) then cfg.batchSize else 0) + Capacity(cfg, acts[1..], cutoff)
  }

  lemma {:induction false} CapacityIs(cfg: Settings, acts: seq<Action>, cutoff: Time)
    ensures Capacity(cfg, acts, cutoff) == Passes(cfg, acts, cutoff) * cfg.batchSize
    decreases |acts|
  {
    if acts != [] {
      CapacityIs(cfg, acts[1..], cutoff);
      var n := Passes(cfg, acts[1..], cutoff);
      assert (n + 1) * cfg.batchSize == n * cfg.batchSize + cfg.batchSize;
    }
  }

  /** Rows past the reaper's timeout have no executor, and no executor can take them. */
  lemma LostHaveNoExecutor(cfg: Settings, s: State, x: Id, b: nat, i: nat)
    requires Safe(cfg, s) && x in Lost(s.table, s.clock - cfg.staleTimeout) && Slot(s, b, i)
    ensures Holds(s, b, i) != x
  {
    assert Kept(s, b, i);
    ActiveInSpan(cfg, s.clock, s.batches[b], i);
  }

  /** How a lost row ceases to be one: it is deleted, or reaped and charged one failure. */
  ghost predicate Recovered(cfg: Settings, s: State, a: Action, x: Id)
    requires Enabled(cfg, s, a) && x in s.table
  {
    var t := Apply(cfg, s, a);
    || a == Delete(x)
    || (a.Reap? && x in a.ids && x in t.table
        && t.table[x] == FailedRow(cfg, s.table[x], STALLED, s.clock).(updatedAt := a.asOf)
        && t.table[x].status in {Pending, Dead}
        && (x in s.life ==> x in t.life && t.life[x].failures == s.life[x].failures + 1 && t.life[x].claims == s.life[x].claims))
  }

  lemma LostReap(cfg: Settings, s: State, a: Action, cutoff: Time)
    requires Enabled(cfg, s, a) && a.Reap?
    ensures Lost(Apply(cfg, s, a).table, cutoff) == Lost(s.table, cutoff) - Elements(a.ids)
    ensures forall x :: x in Lost(s.table, cutoff) && x in a.ids ==> Recovered(cfg, s, a, x)
  {
  }

  lemma LostFinish(cfg: Settings, s: State, a: Action, cutoff: Time)
    requires Safe(cfg, s) && Enabled(cfg, s, a) && a.Finish? && cutoff <= s.clock - cfg.staleTimeout
    ensures Lost(Apply(cfg, s, a).table, cutoff) == Lost(s.table, cutoff)
  {
    var x := Holds(s, a.b, a.i);
    OutcomeIsNotStale(cfg, s, a);
    assert Slot(s, a.b, a.i);
    if x in Lost(s.table, s.clock - cfg.staleTimeout) {
      LostHaveNoExecutor(cfg, s, x, a.b, a.i);
    }
    var t := Apply(cfg, s, a).table;
    assert x in t ==> t[x].status != Running;
    assert forall y :: y != x ==> (y in t <==> y in s.table) && (y in t ==> t[y] == s.table[y]);
  }

  lemma LostWrite(cfg: Settings, s: State, a: Action, cutoff: Time)
    requires Enabled(cfg, s, a) && SparesRunning(s, a) && cutoff <= s.clock && (a.Patch? || a.Delete? || a.Insert?)
    ensures Lost(Apply(cfg, s, a).table, cutoff) <= Lost(s.table, cutoff)
    ensures a.Delete? || Lost(Apply(cfg, s, a).table, cutoff) == Lost(s.table, cutoff)
    ensures forall x :: x in Lost(s.table, cutoff) && x !in Lost(Apply(cfg, s, a).table, cutoff) ==> a == Delete(x)
  {
  }

  lemma LostClaim(cfg: Settings, s: State, a: Action, cutoff: Time)
    requires cfg.Exclusive() && Enabled(cfg, s, a) && a.Claim? && cutoff <= s.clock - cfg.staleTimeout
    ensures Lost(Apply(cfg, s, a).table, cutoff) == Lost(s.table, cutoff)
  {
  }

  /** No step adds a lost row; a step that takes one out reaps it, charging one failure, or
      deletes it. */
  lemma LostStep(cfg: Settings, s: State, a: Action, cutoff: Time)
    requires Safe(cfg, s) && Enabled(cfg, s, a) && cutoff <= s.clock - cfg.staleTimeout
    requires SparesRunning(s, a)
    ensures var t := Apply(cfg, s, a);
      && s.clock <= t.clock
      && Lost(t.table, cutoff) <= Lost(s.table, cutoff)
      && (a.Reap? ==> Lost(t.table, cutoff) == Lost(s.table, cutoff) - Elements(a.ids))
      && (forall x :: x in Lost(s.table, cutoff) && x !in Lost(t.table, cutoff) ==> Recovered(cfg, s, a, x))
  {
    ClockMovesOn(cfg, s, a);
    if a.Finish? {
      LostFinish(cfg, s, a, cutoff);
    } else if a.Reap? {
      LostReap(cfg, s, a, cutoff);
    } else if a.Claim? {
      LostClaim(cfg, s, a, cutoff);
    } else if a.Patch? || a.Delete? || a.Insert? {
      LostWrite(cfg, s, a, cutoff);
    } else if Executes(a) {
      ExecutorWritesNothing(cfg, s, a);
    } else {
      TableFrame(cfg, s, a);
    }
  }

  lemma PassTakes(cfg: Settings, s: State, a: Action, cutoff: Time)
    requires Enabled(cfg, s, a) && Pass(cfg, a, cutoff)
    requires OnlyLost(cfg, cutoff)(s, a)
    ensures Elements(a.ids) <= Lost(s.table, cutoff)
    ensures |Elements(a.ids)| == cfg.batchSize || Elements(a.ids) == Lost(s.table, cutoff)
  {
    DistinctSize(a.ids);
    forall x | x in a.ids ensures x in Lost(s.table, cutoff) {
      assert Stale(s.table[x], a.asOf, cfg.staleTimeout);
    }
    if |a.ids| < cfg.batchSize {
      assert forall x :: x in Lost(s.table, cutoff) ==> Stale(s.table[x], a.asOf, cfg.staleTimeout);
    }
  }

  lemma {:induction false} RecoveryRun(cfg: Settings, s: State, acts: seq<Action>, cutoff: Time)
    requires cfg.Valid() && Safe(cfg, s) && cutoff <= s.clock - cfg.staleTimeout
    requires Legal(cfg, s, acts) && Throughout(cfg, s, acts, OnlyLost(cfg, cutoff))
    ensures Lost(After(cfg, s, acts).table, cutoff) <= Lost(s.table, cutoff)
    ensures var left := Lost(After(cfg, s, acts).table, cutoff);
      (left == {} || |left| + Capacity(cfg, acts, cutoff) <= |Lost(s.table, cutoff)|)
      && (Capacity(cfg, acts, cutoff) >= |Lost(s.table, cutoff)| ==> left == {})
    decreases |acts|
  {
    if acts != [] {
      var a, t := acts[0], Apply(cfg, s, acts[0]);
      assert OnlyLost(cfg, cutoff)(s, a);
      SafeStep(cfg, s, a);
      LostStep(cfg, s, a, cutoff);
      RecoveryRun(cfg, t, acts[1..], cutoff);
      var before, after := Lost(s.table, cutoff), Lost(t.table, cutoff);
      SubsetSize(after, before);
      SubsetSize(Lost(After(cfg, s, acts).table, cutoff), after);
      if Pass(cfg, a, cutoff) {
        PassTakes(cfg, s, a, cutoff);
        assert |after| == |before| - |Elements(a.ids)|;
      }
    }
  }

  /** n over b, rounded up. */
  function Ceil(n: nat, b: nat): nat
    requires b >= 1
  {
    (n + b - 1) / b
  }

  lemma EnoughPasses(cfg: Settings, acts: seq<Action>, cutoff: Time, n: nat)
    requires cfg.Valid() && Passes(cfg, acts, cutoff) >= Ceil(n, cfg.batchSize)
    ensures Capacity(cfg, acts, cutoff) >= n
  {
    var b, q := cfg.batchSize, Ceil(n, cfg.batchSize);
    CapacityIs(cfg, acts, cutoff);
    CeilCovers(n, b);
    ScaleMonotone(b, q, Passes(cfg, acts, cutoff));
  }

  /** So many groups of b cover n, and no fewer do. */
  lemma CeilCovers(n: nat, b: nat)
    requires b >= 1
    ensures b * Ceil(n, b) >= n
    ensures b * Ceil(n, b) < n + b
  {
    var q := Ceil(n, b);
    assert n + b - 1 < b * q + b;
  }

  /** Every running row was last written at `cutoff` or later. */
  ghost predicate NoRunnerBefore(t: Table, cutoff: Time) {
    forall x :: x in t && t[x].status == Running ==> t[x].updatedAt >= cutoff
  }

  lemma NoneLost(t: Table, cutoff: Time)
    requires Lost(t, cutoff) == {}
    ensures NoRunnerBefore(t, cutoff)
  {
    forall x | x in t && t[x].status == Running ensures t[x].updatedAt >= cutoff {
      assert x !in Lost(t, cutoff);
    }
  }

  /** n lost rows are all out of `running` after ceil(n / B) passes over no other stale rows. */
  lemma CrashRecovery(cfg: Settings, s: State, acts: seq<Action>)
    requires cfg.Valid() && Safe(cfg, s)
    requires var cutoff := s.clock - cfg.staleTimeout;
      && Legal(cfg, s, acts) && Throughout(cfg, s, acts, OnlyLost(cfg, cutoff))
      && Passes(cfg, acts, cutoff) >= Ceil(|Lost(s.table, cutoff)|, cfg.batchSize)
    ensures NoRunnerBefore(After(cfg, s, acts).table, s.clock - cfg.staleTimeout)
  {
    var cutoff := s.clock - cfg.staleTimeout;
    EnoughPasses(cfg, acts, cutoff, |Lost(s.table, cutoff)|);
    RecoveryRun(cfg, s, acts, cutoff);
    NoneLost(After(cfg, s, acts).table, cutoff);
  }
}
