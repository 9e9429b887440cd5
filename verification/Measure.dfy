/** The termination measure of the worker: what is left to do on each row. */
module Measure {
  import opened Tasks
  import opened Retry
  import opened Protocol
  import opened Ownership
  import opened Refinement
  import opened Sums

  function Left(cfg: Settings, row: Row): nat {
    if row.retryCount < cfg.maxRetries then cfg.maxRetries - row.retryCount else 0
  }

  function Weight(cfg: Settings, row: Row): nat {
    match row.status
    case Pending => 2 * Left(cfg, row) + 2
    case Running => 2 * Left(cfg, row) + 1
    case _ => 0
  }

  function Weights(cfg: Settings, t: Table): map<Id, nat> {
    map x | x in t :: Weight(cfg, t[x])
  }

  ghost function WorkLeft(cfg: Settings, s: State): nat { Sum(Weights(cfg, s.table)) }

  /** Rows the worker moves in one step. */
  ghost function Moved(s: State, a: Action): nat {
    match a
    case Claim(_, _, ids) => |ids|
    case Reap(_, _, ids) => |ids|
    case Finish(b, i, _) =>
      if b < |s.batches| && i < |s.batches[b].ids| && Holds(s, b, i) in s.table then 1 else 0
    case _ => 0
  }

  /** A failed run lowers the weight of a running row, an ended retry budget to zero. */
  lemma FailureWeighsLess(cfg: Settings, row: Row, error: string, now: Time, stamp: Time)
    requires row.status == Running
    ensures Weight(cfg, FailedRow(cfg, row, error, now).(updatedAt := stamp)) < Weight(cfg, row)
  {
  }

  lemma BulkMove(cfg: Settings, s: State, t: State, ids: seq<Id>)
    requires Distinct(ids) && t.table.Keys == s.table.Keys
    requires forall x :: x in ids ==> x in s.table
    requires forall x :: x in s.table ==>
               if x in ids then Weight(cfg, t.table[x]) < Weight(cfg, s.table[x]) else t.table[x] == s.table[x]
    ensures WorkLeft(cfg, t) + |ids| <= WorkLeft(cfg, s)
  {
    DistinctSize(ids);
    SumFall(Weights(cfg, t.table), Weights(cfg, s.table), Elements(ids));
  }

  lemma ReapMoves(cfg: Settings, s: State, a: Action)
    requires Enabled(cfg, s, a) && a.Reap?
    ensures WorkLeft(cfg, Apply(cfg, s, a)) + |a.ids| <= WorkLeft(cfg, s)
  {
    forall x | x in s.table && x in a.ids
      ensures Weight(cfg, Apply(cfg, s, a).table[x]) < Weight(cfg, s.table[x])
    {
      FailureWeighsLess(cfg, s.table[x], STALLED, s.clock, a.asOf);
    }
    BulkMove(cfg, s, Apply(cfg, s, a), a.ids);
  }

  lemma ClaimMoves(cfg: Settings, s: State, a: Action)
    requires Enabled(cfg, s, a) && a.Claim?
    ensures WorkLeft(cfg, Apply(cfg, s, a)) + |a.ids| <= WorkLeft(cfg, s)
  {
    BulkMove(cfg, s, Apply(cfg, s, a), a.ids);
  }

  lemma FinishMoves(cfg: Settings, s: State, a: Action)
    requires Owned(s) && Enabled(cfg, s, a) && a.Finish?
    ensures WorkLeft(cfg, Apply(cfg, s, a)) + Moved(s, a) <= WorkLeft(cfg, s)
  {
    OutcomeIsNotStale(cfg, s, a);
    var x, t := Holds(s, a.b, a.i), Apply(cfg, s, a);
    if x in s.table {
      var v := Weight(cfg, t.table[x]);
      assert v < Weight(cfg, s.table[x]);
      SumPut(Weights(cfg, s.table), x, v);
      assert Weights(cfg, t.table) == Weights(cfg, s.table)[x := v];
    }
  }

  ghost predicate Creates(s: State, a: Action) {
    a.Insert? && a.client in s.clients && s.clients[a.client].Inserting? && !HasKey(s.table, s.clients[a.client].req.key)
  }

  lemma DeleteMoves(cfg: Settings, s: State, a: Action)
    requires Enabled(cfg, s, a) && a.Delete?
    ensures WorkLeft(cfg, Apply(cfg, s, a)) <= WorkLeft(cfg, s)
  {
    SumRemove(Weights(cfg, s.table), a.id);
    assert Weights(cfg, s.table - {a.id}) == Weights(cfg, s.table) - {a.id};
  }

  lemma InsertMoves(cfg: Settings, s: State, a: Action)
    requires Enabled(cfg, s, a) && a.Insert?
    ensures WorkLeft(cfg, Apply(cfg, s, a)) <= WorkLeft(cfg, s) + if Creates(s, a) then 2 * cfg.maxRetries + 2 else 0
  {
    if Creates(s, a) {
      var row := NewRow(s.clients[a.client].req, s.clock);
      SumPut(Weights(cfg, s.table), a.id, 2 * cfg.maxRetries + 2);
      assert Weights(cfg, s.table[a.id := row]) == Weights(cfg, s.table)[a.id := 2 * cfg.maxRetries + 2];
    }
  }

  /** A new task brings 2M + 2 units of work; every row a worker moves takes at least one away. */
  lemma StepWork(cfg: Settings, s: State, a: Action)
    requires Owned(s) && Enabled(cfg, s, a) && NoPatch(s, a)
    ensures WorkLeft(cfg, Apply(cfg, s, a)) + Moved(s, a)
            <= WorkLeft(cfg, s) + if Creates(s, a) then 2 * cfg.maxRetries + 2 else 0
  {
    if a.Claim? {
      ClaimMoves(cfg, s, a);
    } else if a.Reap? {
      ReapMoves(cfg, s, a);
    } else if a.Finish? {
      FinishMoves(cfg, s, a);
    } else if a.Insert? {
      InsertMoves(cfg, s, a);
    } else if a.Delete? {
      DeleteMoves(cfg, s, a);
    } else if a.Dispatch? || a.Lose? || a.Crash? {
      ExecutorWritesNothing(cfg, s, a);
    } else {
      TableFrame(cfg, s, a);
    }
  }

  /** How many rows there ever were. */
  function RowsEver(s: State): nat { |s.table| + |s.gone| }

  lemma PutSize(t: Table, x: Id, row: Row)
    ensures |t[x := row]| == |t| + if x in t then 0 else 1
  {
  }

  lemma SameSize(m: Table, n: Table)
    requires m.Keys == n.Keys
    ensures |m| == |n|
  {
  }

  lemma DeleteSize(t: Table, x: Id)
    requires x in t
    ensures |t - {x}| + 1 == |t|
  {
    assert (t - {x}).Keys == t.Keys - {x};
    assert |t - {x}| == |(t - {x}).Keys| && |t| == |t.Keys|;
  }

  lemma KeysFrame(cfg: Settings, s: State, a: Action)
    requires Enabled(cfg, s, a) && !a.Delete? && !a.Insert?
    ensures Apply(cfg, s, a).table.Keys == s.table.Keys && Apply(cfg, s, a).gone == s.gone
  {
    if a.Dispatch? || a.Lose? || a.Crash? {
      ExecutorWritesNothing(cfg, s, a);
    } else if a.Finish? {
      FinishFrame(cfg, s, a);
    }
  }

  lemma RowsEverStep(cfg: Settings, s: State, a: Action)
    requires Apart(s) && Enabled(cfg, s, a)
    ensures RowsEver(Apply(cfg, s, a)) == RowsEver(s) + if Creates(s, a) then 1 else 0
  {
    if a.Insert? {
      if Creates(s, a) { PutSize(s.table, a.id, NewRow(s.clients[a.client].req, s.clock)); }
    } else if a.Delete? {
      PutSize(s.gone, a.id, s.table[a.id]);
      DeleteSize(s.table, a.id);
    } else {
      KeysFrame(cfg, s, a);
      SameSize(s.table, Apply(cfg, s, a).table);
    }
  }

  /** A reap counts each of its rows once as reclaimed and once as retried or dead. */
  lemma {:induction false} CountersReaped(cfg: Settings, c: Counters, t: Table, ids: seq<Id>)
    requires forall i :: 0 <= i < |ids| ==> ids[i] in t
    ensures var d := CountReaped(cfg, c, t, ids);
      && d.created == c.created && d.claimed == c.claimed && d.succeeded == c.succeeded
      && d.reclaimed == c.reclaimed + |ids|
      && d.retried + d.dead == c.retried + c.dead + |ids|
      && d.retried >= c.retried
    decreases |ids|
  {
    if ids != [] { CountersReaped(cfg, c, t, ids[..|ids| - 1]); }
  }

  ghost function MovedInRun(cfg: Settings, s: State, acts: seq<Action>): nat
    requires Legal(cfg, s, acts)
    decreases |acts|
  {
    if acts == [] then 0 else Moved(s, acts[0]) + MovedInRun(cfg, Apply(cfg, s, acts[0]), acts[1..])
  }

  ghost function Granted(cfg: Settings, s: State, acts: seq<Action>): nat
    requires Legal(cfg, s, acts)
    decreases |acts|
  {
    if acts == [] then 0 else
    (if Creates(s, acts[0]) then 2 * cfg.maxRetries + 2 else 0) + Granted(cfg, Apply(cfg, s, acts[0]), acts[1..])
  }

  lemma {:induction false} WorkRun(cfg: Settings, s: State, acts: seq<Action>)
    requires Safe(cfg, s) && Legal(cfg, s, acts) && Throughout(cfg, s, acts, NoPatch)
    ensures MovedInRun(cfg, s, acts) + WorkLeft(cfg, After(cfg, s, acts)) <= WorkLeft(cfg, s) + Granted(cfg, s, acts)
    decreases |acts|
  {
    if acts != [] {
      SafeStep(cfg, s, acts[0]);
      StepWork(cfg, s, acts[0]);
      WorkRun(cfg, Apply(cfg, s, acts[0]), acts[1..]);
    }
  }

  ghost function CreatesIn(cfg: Settings, s: State, acts: seq<Action>): nat
    requires Legal(cfg, s, acts)
    decreases |acts|
  {
    if acts == [] then 0 else
    (if Creates(s, acts[0]) then 1 else 0) + CreatesIn(cfg, Apply(cfg, s, acts[0]), acts[1..])
  }

  /** 2M + 2 units of work for each of n tasks. */
  function Allowance(cfg: Settings, n: nat): nat { (2 * cfg.maxRetries + 2) * n }

  lemma AllowanceGrows(cfg: Settings, n: nat)
    ensures Allowance(cfg, n + 1) == 2 * cfg.maxRetries + 2 + Allowance(cfg, n) && Allowance(cfg, 0) == 0
  {
    OneTaskMore(2 * cfg.maxRetries + 2, n);
  }

  lemma {:induction false} GrantedIs(cfg: Settings, s: State, acts: seq<Action>)
    requires Legal(cfg, s, acts)
    ensures Granted(cfg, s, acts) == Allowance(cfg, CreatesIn(cfg, s, acts))
    decreases |acts|
  {
    if acts != [] {
      var t := Apply(cfg, s, acts[0]);
      GrantedIs(cfg, t, acts[1..]);
      AllowanceGrows(cfg, CreatesIn(cfg, t, acts[1..]));
    }
  }

  lemma {:induction false} CreatesAddRows(cfg: Settings, s: State, acts: seq<Action>)
    requires Apart(s) && Legal(cfg, s, acts)
    ensures RowsEver(After(cfg, s, acts)) == RowsEver(s) + CreatesIn(cfg, s, acts)
    decreases |acts|
  {
    if acts != [] {
      RowsEverStep(cfg, s, acts[0]);
      ApartStep(cfg, s, acts[0]);
      CreatesAddRows(cfg, Apply(cfg, s, acts[0]), acts[1..]);
    }
  }

  lemma OneTaskMore(k: nat, n: nat)
    ensures k * (n + 1) == k + k * n
  {
  }

  lemma EmptyWork(cfg: Settings, s: State)
    requires cfg.Exclusive() && Init(s)
    ensures Safe(cfg, s) && Apart(s) && WorkLeft(cfg, s) == 0 && RowsEver(s) == 0
  {
    assert Weights(cfg, s.table) == map[];
  }

  lemma WorkFrom(cfg: Settings, s: State, acts: seq<Action>)
    requires Safe(cfg, s) && Apart(s) && WorkLeft(cfg, s) == 0 && RowsEver(s) == 0
    requires Legal(cfg, s, acts) && Throughout(cfg, s, acts, NoPatch)
    ensures MovedInRun(cfg, s, acts) <= Allowance(cfg, RowsEver(After(cfg, s, acts)))
  {
    WorkRun(cfg, s, acts);
    assert MovedInRun(cfg, s, acts) <= Granted(cfg, s, acts);
    GrantedIs(cfg, s, acts);
    CreatesAddRows(cfg, s, acts);
  }

  lemma WorkAllowed(cfg: Settings, s: State, acts: seq<Action>)
    requires cfg.Exclusive() && Init(s) && Legal(cfg, s, acts) && Throughout(cfg, s, acts, NoPatch)
    ensures MovedInRun(cfg, s, acts) <= Allowance(cfg, RowsEver(After(cfg, s, acts)))
  {
    EmptyWork(cfg, s);
    WorkFrom(cfg, s, acts);
  }

  /** From the empty table, over any PATCH-free run, the workers move at most 2(M + 1) rows for each
      task ever created. */
  lemma WorkIsBounded(cfg: Settings, s: State, acts: seq<Action>)
    requires cfg.Exclusive() && Init(s) && Legal(cfg, s, acts) && Throughout(cfg, s, acts, NoPatch)
    ensures var t := After(cfg, s, acts); MovedInRun(cfg, s, acts) <= (2 * cfg.maxRetries + 2) * (|t.table| + |t.gone|)
  {
    WorkAllowed(cfg, s, acts);
  }

  /** The work left on a table is at most 2M + 2 units for each row, whatever the rows. */
  lemma {:induction false} WorkAtMost(cfg: Settings, t: Table)
    ensures Sum(Weights(cfg, t)) <= Allowance(cfg, |t|)
    decreases |t|
  {
    if t == map[] {
      assert Weights(cfg, t) == map[];
      AllowanceGrows(cfg, 0);
    } else {
      var x :| x in t;
      var rest := t - {x};
      DeleteSize(t, x);
      WorkAtMost(cfg, rest);
      SumRemove(Weights(cfg, t), x);
      assert Weights(cfg, t) - {x} == Weights(cfg, rest);
      AllowanceGrows(cfg, |rest|);
    }
  }

  /** A row that still weighs something is pending or running. */
  lemma UnfinishedWeighs(cfg: Settings, s: State, x: Id)
    requires x in s.table && s.table[x].status in {Pending, Running}
    ensures WorkLeft(cfg, s) >= 1
  {
    SumRemove(Weights(cfg, s.table), x);
  }
}
