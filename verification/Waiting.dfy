/** No starvation: how many claims a due task can wait for. */
module Waiting {
  import opened Tasks
  import opened Retry
  import opened Protocol
  import opened Ownership
  import opened Sums

  /** The pending rows at or ahead of x in claim order. */
  ghost function Ahead(t: Table, x: Id): set<Id>
    requires x in t
  {
    set y | y in t && y != x && t[y].status == Pending && t[y].scheduledAt <= t[x].scheduledAt
  }

  /** No create and no PATCH puts a pending row at or ahead of `limit`, and x is neither deleted
      nor PATCHed. */
  ghost predicate NoCutIn(s: State, a: Action, x: Id, limit: Time) {
    && a != Delete(x)
    && (a.Patch? ==> a.target != Pending && a.id != x)
    && (a.Insert? && a.client in s.clients && s.clients[a.client].Inserting? ==>
          NewRow(s.clients[a.client].req, s.clock).scheduledAt > limit)
  }

  ghost function Orderly(x: Id, limit: Time): (State, Action) -> bool {
    (s: State, a: Action) => SparesRunning(s, a) && NoCutIn(s, a, x, limit)
  }

  /** A claim that could take x: it reads the clock no earlier than x is due, and x is not locked. */
  predicate Turn(a: Action, x: Id, limit: Time) {
    a.Claim? && limit <= a.asOf && x !in a.locked
  }

  function Turns(acts: seq<Action>, x: Id, limit: Time): nat {
    if acts == [] then 0 else (if Turn(acts[0], x, limit) then 1 else 0) + Turns(acts[1..], x, limit)
  }

  /** B rows for every turn, by recursion. */
  function Served(cfg: Settings, acts: seq<Action>, x: Id, limit: Time): nat {
    if acts == [] then 0 else (if Turn(acts[0], x, limit) then cfg.batchSize else 0) + Served(cfg, acts[1..], x, limit)
  }

  lemma {:induction false} ServedIs(cfg: Settings, acts: seq<Action>, x: Id, limit: Time)
    ensures Served(cfg, acts, x, limit) == Turns(acts, x, limit) * cfg.batchSize
    decreases |acts|
  {
    if acts != [] {
      ServedIs(cfg, acts[1..], x, limit);
      var n := Turns(acts[1..], x, limit);
      assert (n + 1) * cfg.batchSize == n * cfg.batchSize + cfg.batchSize;
    }
  }

  predicate Picked(acts: seq<Action>, x: Id) {
    exists i :: 0 <= i < |acts| && acts[i].Claim? && x in acts[i].ids
  }

  /** A claim with its turn for x that passes x over is full, and full of rows ahead of x. */
  lemma TurnServesAhead(cfg: Settings, s: State, a: Action, x: Id)
    requires Enabled(cfg, s, a) && x in s.table && s.table[x].status == Pending
    requires Turn(a, x, s.table[x].scheduledAt) && x !in a.ids
    ensures |a.ids| == cfg.batchSize && Elements(a.ids) <= Ahead(s.table, x)
    ensures |Elements(a.ids)| == cfg.batchSize
  {
    assert Due(s.table[x], a.asOf);
    DistinctSize(a.ids);
  }

  lemma FinishLandsBehind(cfg: Settings, s: State, a: Action, x: Id)
    requires cfg.Valid() && Owned(s) && Enabled(cfg, s, a) && a.Finish?
    requires x in s.table && s.table[x].status == Pending && s.table[x].scheduledAt <= s.clock
    ensures var t := Apply(cfg, s, a); x in t.table && t.table[x] == s.table[x] && Ahead(t.table, x) <= Ahead(s.table, x)
  {
    OutcomeIsNotStale(cfg, s, a);
    var z := Holds(s, a.b, a.i);
    if z in s.table && a.outcome.Failure? {
      FailureOutcomes(cfg, s.table[z], a.outcome.error, s.clock);
    }
  }

  lemma ReapLandsBehind(cfg: Settings, s: State, a: Action, x: Id)
    requires cfg.Valid() && Enabled(cfg, s, a) && a.Reap?
    requires x in s.table && s.table[x].status == Pending && s.table[x].scheduledAt <= s.clock
    ensures var t := Apply(cfg, s, a); x in t.table && t.table[x] == s.table[x] && Ahead(t.table, x) <= Ahead(s.table, x)
  {
    forall z | z in s.table && z in a.ids
      ensures FailedRow(cfg, s.table[z], STALLED, s.clock).status == Pending ==>
                FailedRow(cfg, s.table[z], STALLED, s.clock).scheduledAt > s.clock
    {
      FailureOutcomes(cfg, s.table[z], STALLED, s.clock);
    }
  }

  lemma WriteStaysOff(cfg: Settings, s: State, a: Action, x: Id)
    requires Enabled(cfg, s, a) && (a.Patch? || a.Delete? || a.Insert?)
    requires x in s.table && s.table[x].status == Pending && Orderly(x, s.table[x].scheduledAt)(s, a)
    ensures var t := Apply(cfg, s, a); x in t.table && t.table[x] == s.table[x] && Ahead(t.table, x) <= Ahead(s.table, x)
  {
  }

  /** Rows come back into the queue strictly behind a due row: a retry or a reap never gets ahead. */
  lemma AheadOnlyShrinks(cfg: Settings, s: State, a: Action, x: Id)
    requires cfg.Valid() && Owned(s) && Enabled(cfg, s, a)
    requires x in s.table && s.table[x].status == Pending && s.table[x].scheduledAt <= s.clock
    requires Orderly(x, s.table[x].scheduledAt)(s, a) && !(a.Claim? && x in a.ids)
    ensures var t := Apply(cfg, s, a);
      && x in t.table && t.table[x] == s.table[x]
      && Ahead(t.table, x) <= Ahead(s.table, x) - (if a.Claim? then Elements(a.ids) else {})
  {
    if a.Finish? {
      FinishLandsBehind(cfg, s, a, x);
    } else if a.Reap? {
      ReapLandsBehind(cfg, s, a, x);
    } else if a.Patch? || a.Delete? || a.Insert? {
      WriteStaysOff(cfg, s, a, x);
    } else if a.Dispatch? || a.Lose? || a.Crash? {
      ExecutorWritesNothing(cfg, s, a);
    } else if !a.Claim? {
      TableFrame(cfg, s, a);
    }
  }

  lemma {:induction false} WaitRun(cfg: Settings, s: State, acts: seq<Action>, x: Id)
    requires cfg.Valid() && Safe(cfg, s)
    requires x in s.table && s.table[x].status == Pending && s.table[x].scheduledAt <= s.clock
    requires Legal(cfg, s, acts) && Throughout(cfg, s, acts, Orderly(x, s.table[x].scheduledAt))
    requires !Picked(acts, x)
    ensures Served(cfg, acts, x, s.table[x].scheduledAt) <= |Ahead(s.table, x)|
    decreases |acts|
  {
    if acts != [] {
      var a, t, limit := acts[0], Apply(cfg, s, acts[0]), s.table[x].scheduledAt;
      assert Orderly(x, limit)(s, a);
      assert !(a.Claim? && x in a.ids);
      forall i | 0 <= i < |acts[1..]| && acts[1..][i].Claim? ensures x !in acts[1..][i].ids {
        assert acts[i + 1] == acts[1..][i];
      }
      SafeStep(cfg, s, a);
      AheadOnlyShrinks(cfg, s, a, x);
      ClockMovesOn(cfg, s, a);
      WaitRun(cfg, t, acts[1..], x);
      var before, after := Ahead(s.table, x), Ahead(t.table, x);
      if Turn(a, x, limit) {
        TurnServesAhead(cfg, s, a, x);
        SubsetSize(after, before - Elements(a.ids));
      } else {
        SubsetSize(after, before);
      }
    }
  }

  /** A due pending row with k pending rows at or ahead of it is claimed within k / B + 1 claims
      that do not find it locked, in every orderly run from every safe state. */
  lemma BoundedWait(cfg: Settings, s: State, acts: seq<Action>, x: Id)
    requires cfg.Valid() && Safe(cfg, s)
    requires x in s.table && s.table[x].status == Pending && s.table[x].scheduledAt <= s.clock
    requires Legal(cfg, s, acts) && Throughout(cfg, s, acts, Orderly(x, s.table[x].scheduledAt))
    requires Turns(acts, x, s.table[x].scheduledAt) >= |Ahead(s.table, x)| / cfg.batchSize + 1
    ensures exists i :: 0 <= i < |acts| && acts[i].Claim? && x in acts[i].ids
  {
    if !Picked(acts, x) {
      WaitRun(cfg, s, acts, x);
      ServedIs(cfg, acts, x, s.table[x].scheduledAt);
      QuotientBound(Turns(acts, x, s.table[x].scheduledAt), |Ahead(s.table, x)|, cfg.batchSize);
    }
  }

  lemma QuotientBound(n: nat, k: nat, b: nat)
    requires b >= 1 && n * b <= k
    ensures n <= k / b
  {
    var q := k / b;
    assert k < b * q + b;
    if n > q {
      ScaleMonotone(b, q + 1, n);
    }
  }
}
