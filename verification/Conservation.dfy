/** The counters add up: every claim is accounted for, and every retry is on some row. */
module Conservation {
  import opened Tasks
  import opened Retry
  import opened Protocol
  import opened Ownership
  import opened Refinement
  import opened Measure
  import opened Sums

  ghost function RunningRows(t: Table): set<Id> { set x | x in t && t[x].status == Running }

  function Retries(t: Table): map<Id, nat> { map x | x in t :: t[x].retryCount }

  /* What table operations do to the two sums */

  ghost function Retryable(cfg: Settings, t: Table, ids: seq<Id>): set<Id> {
    set x | x in Elements(ids) && x in t && t[x].retryCount < cfg.maxRetries
  }

  lemma ClaimTotals(t: Table, ids: seq<Id>, asOf: Time)
    requires Distinct(ids) && forall x :: x in ids ==> x in t && t[x].status == Pending
    ensures |RunningRows(ClaimRows(t, ids, asOf))| == |RunningRows(t)| + |ids|
    ensures Retries(ClaimRows(t, ids, asOf)) == Retries(t)
  {
    DistinctSize(ids);
    assert RunningRows(ClaimRows(t, ids, asOf)) == RunningRows(t) + Elements(ids);
    assert RunningRows(t) !! Elements(ids);
  }

  lemma ReapTotals(cfg: Settings, t: Table, ids: seq<Id>, asOf: Time, now: Time)
    requires Distinct(ids) && forall x :: x in ids ==> x in t && t[x].status == Running
    ensures |RunningRows(ReapRows(cfg, t, ids, asOf, now))| + |ids| == |RunningRows(t)|
    ensures Sum(Retries(ReapRows(cfg, t, ids, asOf, now))) == Sum(Retries(t)) + |Retryable(cfg, t, ids)|
  {
    DistinctSize(ids);
    var r := ReapRows(cfg, t, ids, asOf, now);
    assert RunningRows(r) == RunningRows(t) - Elements(ids);
    assert Elements(ids) <= RunningRows(t);
    SumRaise(Retries(t), Retries(r), Retryable(cfg, t, ids));
  }

  lemma PutRetries(t: Table, x: Id, row: Row)
    ensures Sum(Retries(t[x := row])) + (if x in t then t[x].retryCount else 0) == Sum(Retries(t)) + row.retryCount
  {
    SumPut(Retries(t), x, row.retryCount);
    assert Retries(t[x := row]) == Retries(t)[x := row.retryCount];
  }

  lemma PutRunning(t: Table, x: Id, row: Row)
    requires row.status != Running
    ensures |RunningRows(t[x := row])| + (if x in RunningRows(t) then 1 else 0) == |RunningRows(t)|
  {
    assert RunningRows(t[x := row]) == RunningRows(t) - {x};
  }

  lemma RetryableGrows(cfg: Settings, t: Table, ids: seq<Id>, x: Id)
    requires Distinct(ids + [x]) && x in t
    ensures |Retryable(cfg, t, ids + [x])| == |Retryable(cfg, t, ids)| + if t[x].retryCount < cfg.maxRetries then 1 else 0
  {
    var r := Retryable(cfg, t, ids);
    assert (ids + [x])[|ids|] == x && forall i :: 0 <= i < |ids| ==> (ids + [x])[i] == ids[i];
    assert x !in Elements(ids);
    assert Elements(ids + [x]) == Elements(ids) + {x};
    assert Retryable(cfg, t, ids + [x]) == if t[x].retryCount < cfg.maxRetries then r + {x} else r;
  }

  lemma {:induction false} ReapedCounters(cfg: Settings, c: Counters, t: Table, ids: seq<Id>)
    requires Distinct(ids) && forall i :: 0 <= i < |ids| ==> ids[i] in t
    ensures var d := CountReaped(cfg, c, t, ids);
      d.retried == c.retried + |Retryable(cfg, t, ids)| && d.succeeded == c.succeeded && d.claimed == c.claimed
    decreases |ids|
  {
    if ids != [] {
      var n := |ids| - 1;
      ReapedCounters(cfg, c, t, ids[..n]);
      assert ids == ids[..n] + [ids[n]];
      RetryableGrows(cfg, t, ids[..n], ids[n]);
    }
  }

  /** A deleted row keeps its place in the two sums, among the rows that are gone. */
  lemma DeleteRetries(t: Table, gone: Table, x: Id)
    requires x in t && x !in gone
    ensures Sum(Retries(t - {x})) + Sum(Retries(gone[x := t[x]])) == Sum(Retries(t)) + Sum(Retries(gone))
  {
    SumRemove(Retries(t), x);
    assert Retries(t - {x}) == Retries(t) - {x};
    PutRetries(gone, x, t[x]);
  }

  lemma DeleteRunning(t: Table, gone: Table, x: Id)
    requires x in t && x !in gone
    ensures |RunningRows(t - {x})| + |RunningRows(gone[x := t[x]])| == |RunningRows(t)| + |RunningRows(gone)|
    ensures t[x].status != Running ==> RunningRows(gone[x := t[x]]) == RunningRows(gone)
  {
    GoneRunning(gone, x, t[x]);
    assert RunningRows(t - {x}) == RunningRows(t) - {x};
  }

  lemma GoneRunning(gone: Table, x: Id, row: Row)
    requires x !in gone
    ensures RunningRows(gone[x := row]) == if row.status == Running then RunningRows(gone) + {x} else RunningRows(gone)
    ensures x !in RunningRows(gone)
  {
  }

  /* The books */

  /** Claims and spurious failures are the sum of the succeeded, retried and dead outcomes and the
      rows running now or deleted while running; the retry counts of all rows ever created and the
      spurious retries add up to the retried outcomes; no more rows were counted as reclaimed than as
      retried or dead. */
  ghost predicate Books(t: Table, gone: Table, c: Counters, spurious: Counters) {
    && c.claimed + spurious.retried + spurious.dead
       == c.succeeded + c.retried + c.dead + |RunningRows(t)| + |RunningRows(gone)|
    && Sum(Retries(t)) + Sum(Retries(gone)) + spurious.retried == c.retried
    && c.reclaimed <= c.retried + c.dead
  }

  ghost predicate Balanced(s: State) {
    Apart(s) && Books(s.table, s.gone, s.counters, s.spurious)
  }

  lemma ClaimBooks(cfg: Settings, s: State, a: Action)
    requires Balanced(s) && Enabled(cfg, s, a) && a.Claim?
    ensures var t := Apply(cfg, s, a); Books(t.table, t.gone, t.counters, t.spurious)
  {
    ClaimTotals(s.table, a.ids, a.asOf);
  }

  lemma ReapBooks(cfg: Settings, s: State, a: Action)
    requires Balanced(s) && Enabled(cfg, s, a) && a.Reap?
    ensures var t := Apply(cfg, s, a); Books(t.table, t.gone, t.counters, t.spurious)
  {
    ReapTotals(cfg, s.table, a.ids, a.asOf, s.clock);
    ReapedCounters(cfg, s.counters, s.table, a.ids);
    CountersReaped(cfg, s.counters, s.table, a.ids);
  }

  /** A reap that fails to commit counts every failure twice over: as done, and as spurious. */
  lemma VoidReapBooks(cfg: Settings, s: State, a: Action)
    requires Balanced(s) && Enabled(cfg, s, a) && a.VoidReap?
    ensures var t := Apply(cfg, s, a); Books(t.table, t.gone, t.counters, t.spurious)
  {
    TableFrame(cfg, s, a);
    ReapedCounters(cfg, s.counters, s.table, a.ids);
    CountersReaped(cfg, s.counters, s.table, a.ids);
    ReapedCounters(cfg, s.spurious, s.table, a.ids);
    CountersReaped(cfg, s.spurious, s.table, a.ids);
  }

  /** It counts each of its rows as reclaimed and as retried or dead, among the metrics and among what
      was counted in vain, by the retries the row had left. */
  lemma VoidReapCounts(cfg: Settings, s: State, a: Action)
    requires Enabled(cfg, s, a) && a.VoidReap?
    ensures var t, n, m := Apply(cfg, s, a), |a.ids|, |Retryable(cfg, s.table, a.ids)|;
      && t.counters.reclaimed == s.counters.reclaimed + n && t.spurious.reclaimed == s.spurious.reclaimed + n
      && t.counters.retried == s.counters.retried + m && t.spurious.retried == s.spurious.retried + m
      && t.counters.retried + t.counters.dead == s.counters.retried + s.counters.dead + n
      && t.spurious.retried + t.spurious.dead == s.spurious.retried + s.spurious.dead + n
  {
    ReapedCounters(cfg, s.counters, s.table, a.ids);
    CountersReaped(cfg, s.counters, s.table, a.ids);
    ReapedCounters(cfg, s.spurious, s.table, a.ids);
    CountersReaped(cfg, s.spurious, s.table, a.ids);
  }

  /** What an outcome does to the counters. */
  lemma FinishCounters(cfg: Settings, s: State, a: Action)
    requires Owned(s) && Enabled(cfg, s, a) && a.Finish?
    ensures var t, x, loaded := Apply(cfg, s, a), Holds(s, a.b, a.i), s.batches[a.b].live[a.i].snapshot;
      && (x in s.table ==> loaded == s.table[x] && t.spurious == s.spurious)
      && t.counters == (if a.outcome.Failure? then Count(cfg, s.counters, loaded)
                        else if x in s.table then s.counters.(succeeded := s.counters.succeeded + 1)
                        else s.counters)
      && (x !in s.table ==> t.spurious == if a.outcome.Failure? then Count(cfg, s.spurious, loaded) else s.spurious)
  {
    assert Slot(s, a.b, a.i) && Kept(s, a.b, a.i);
  }

  /** A recorded outcome takes a row out of `running` and is counted once. */
  lemma RecordedBooks(cfg: Settings, s: State, x: Id, outcome: Outcome)
    requires Balanced(s) && x in s.table && s.table[x].status == Running
    ensures var row := Edited(cfg, s.table[x], outcome, s.clock).(updatedAt := s.clock);
      var c := if outcome.Failure? then Count(cfg, s.counters, s.table[x])
               else s.counters.(succeeded := s.counters.succeeded + 1);
      Books(s.table[x := row], s.gone, c, s.spurious)
  {
    var row := Edited(cfg, s.table[x], outcome, s.clock).(updatedAt := s.clock);
    PutRunning(s.table, x, row);
    PutRetries(s.table, x, row);
  }

  lemma FinishBooks(cfg: Settings, s: State, a: Action)
    requires Balanced(s) && Owned(s) && Enabled(cfg, s, a) && a.Finish?
    ensures var t := Apply(cfg, s, a); Books(t.table, t.gone, t.counters, t.spurious)
  {
    var x := Holds(s, a.b, a.i);
    OutcomeIsNotStale(cfg, s, a);
    FinishCounters(cfg, s, a);
    FinishFrame(cfg, s, a);
    if x in s.table {
      RecordedBooks(cfg, s, x, a.outcome);
    } else if a.outcome.Failure? {
      CountBoth(cfg, s.table, s.gone, s.counters, s.spurious, s.batches[a.b].live[a.i].snapshot);
    }
  }

  lemma LoseCounters(cfg: Settings, s: State, a: Action)
    requires Enabled(cfg, s, a) && a.Lose?
    ensures var t := Apply(cfg, s, a); var loaded := s.batches[a.b].live[a.i].snapshot;
      && t.counters == (if a.counted then Count(cfg, s.counters, loaded) else s.counters)
      && t.spurious == (if a.counted then Count(cfg, s.spurious, loaded) else s.spurious)
  {
  }

  /** A failure counted on both sides keeps the books. */
  lemma CountBoth(cfg: Settings, t: Table, gone: Table, c: Counters, spurious: Counters, row: Row)
    requires Books(t, gone, c, spurious)
    ensures Books(t, gone, Count(cfg, c, row), Count(cfg, spurious, row))
  {
  }

  lemma LoseBooks(cfg: Settings, s: State, a: Action)
    requires Balanced(s) && Enabled(cfg, s, a) && a.Lose?
    ensures var t := Apply(cfg, s, a); Books(t.table, t.gone, t.counters, t.spurious)
  {
    ExecutorWritesNothing(cfg, s, a);
    LoseCounters(cfg, s, a);
    CountBoth(cfg, s.table, s.gone, s.counters, s.spurious, s.batches[a.b].live[a.i].snapshot);
  }

  lemma InsertBooks(cfg: Settings, s: State, a: Action)
    requires Balanced(s) && Enabled(cfg, s, a) && a.Insert?
    ensures var t := Apply(cfg, s, a); Books(t.table, t.gone, t.counters, t.spurious)
  {
    if Creates(s, a) {
      var row := NewRow(s.clients[a.client].req, s.clock);
      PutRunning(s.table, a.id, row);
      PutRetries(s.table, a.id, row);
    }
  }

  lemma DeleteBooks(cfg: Settings, s: State, a: Action)
    requires Balanced(s) && Enabled(cfg, s, a) && a.Delete?
    ensures var t := Apply(cfg, s, a); Books(t.table, t.gone, t.counters, t.spurious)
  {
    DeleteRetries(s.table, s.gone, a.id);
    DeleteRunning(s.table, s.gone, a.id);
  }

  /** The remaining steps touch neither a row nor a counter of the books. */
  lemma OtherBooks(cfg: Settings, s: State, a: Action)
    requires Enabled(cfg, s, a) && (a.Wait? || a.Dispatch? || a.Crash? || a.Find? || a.Refresh? || a.Refind?)
    ensures var t := Apply(cfg, s, a);
      && t.table == s.table && t.gone == s.gone && t.spurious == s.spurious
      && t.counters == s.counters.(created := t.counters.created)
  {
    if Executes(a) { ExecutorWritesNothing(cfg, s, a); } else { TableFrame(cfg, s, a); }
  }

  lemma BalancedStep(cfg: Settings, s: State, a: Action)
    requires Balanced(s) && Owned(s) && Enabled(cfg, s, a) && NoPatch(s, a)
    ensures Balanced(Apply(cfg, s, a))
  {
    ApartStep(cfg, s, a);
    if a.Claim? {
      ClaimBooks(cfg, s, a);
    } else if a.Reap? {
      ReapBooks(cfg, s, a);
    } else if a.VoidReap? {
      VoidReapBooks(cfg, s, a);
    } else if a.Finish? {
      FinishBooks(cfg, s, a);
    } else if a.Lose? {
      LoseBooks(cfg, s, a);
    } else if a.Insert? {
      InsertBooks(cfg, s, a);
    } else if a.Delete? {
      DeleteBooks(cfg, s, a);
    } else {
      OtherBooks(cfg, s, a);
    }
  }

  lemma {:induction false} BalancedRun(cfg: Settings, s: State, acts: seq<Action>)
    requires Safe(cfg, s) && Balanced(s) && Legal(cfg, s, acts) && Throughout(cfg, s, acts, NoPatch)
    ensures Balanced(After(cfg, s, acts))
    decreases |acts|
  {
    if acts != [] {
      SafeStep(cfg, s, acts[0]);
      BalancedStep(cfg, s, acts[0]);
      BalancedRun(cfg, Apply(cfg, s, acts[0]), acts[1..]);
    }
  }

  lemma EmptyBalanced(cfg: Settings, s: State)
    requires cfg.Exclusive() && Init(s)
    ensures Safe(cfg, s) && Balanced(s)
  {
    assert RunningRows(map[]) == {} && Retries(map[]) == map[];
  }

  /** From the empty table, over every PATCH-free run, failed commits and deletes of running rows
      included, the books balance. */
  lemma CountersConserved(cfg: Settings, s: State, acts: seq<Action>)
    requires cfg.Exclusive() && Init(s) && Legal(cfg, s, acts) && Throughout(cfg, s, acts, NoPatch)
    ensures Balanced(After(cfg, s, acts))
  {
    EmptyBalanced(cfg, s);
    BalancedRun(cfg, s, acts);
  }

  /* Runs in which the metrics alone balance */

  /** No PATCH, no running row is deleted, and no failure is counted whose commit then fails. */
  ghost predicate Calm(s: State, a: Action) {
    && NoPatch(s, a) && !a.VoidReap? && !(a.Lose? && a.counted)
    && (a.Delete? && a.id in s.table ==> s.table[a.id].status != Running)
  }

  /** The row of every queue position and executor exists. */
  ghost predicate Present(s: State) {
    forall b, i :: Slot(s, b, i) ==> Holds(s, b, i) in s.table
  }

  lemma RowStays(cfg: Settings, s: State, a: Action, x: Id)
    requires Enabled(cfg, s, a) && x in s.table && a != Delete(x)
    ensures x in Apply(cfg, s, a).table
  {
    if !a.Delete? && !a.Insert? { KeysFrame(cfg, s, a); }
  }

  lemma PresentStep(cfg: Settings, s: State, a: Action)
    requires Owned(s) && Present(s) && Enabled(cfg, s, a) && Calm(s, a)
    ensures Present(Apply(cfg, s, a))
  {
    var t := Apply(cfg, s, a);
    SlotsFromClaims(cfg, s, a);
    forall b: nat, i: nat | Slot(t, b, i) ensures Holds(t, b, i) in t.table {
      if a.Claim? { SlotsAfterClaim(cfg, s, a, b, i); }
      if b < |s.batches| {
        assert Slot(s, b, i) && Kept(s, b, i);
        RowStays(cfg, s, a, Holds(s, b, i));
      }
    }
  }

  lemma NothingSpurious(cfg: Settings, s: State, a: Action)
    requires Owned(s) && Apart(s) && Present(s) && Enabled(cfg, s, a) && Calm(s, a)
    ensures Apply(cfg, s, a).spurious == s.spurious
    ensures RunningRows(Apply(cfg, s, a).gone) == RunningRows(s.gone)
  {
    if a.Finish? {
      assert Slot(s, a.b, a.i);
      FinishCounters(cfg, s, a);
      FinishFrame(cfg, s, a);
    } else if a.Delete? {
      DeleteRunning(s.table, s.gone, a.id);
    } else if !a.Insert? {
      KeysFrame(cfg, s, a);
    }
  }

  lemma {:induction false} CalmRun(cfg: Settings, s: State, acts: seq<Action>)
    requires Safe(cfg, s) && Apart(s) && Present(s) && Legal(cfg, s, acts) && Throughout(cfg, s, acts, Calm)
    ensures Throughout(cfg, s, acts, NoPatch)
    ensures After(cfg, s, acts).spurious == s.spurious && RunningRows(After(cfg, s, acts).gone) == RunningRows(s.gone)
    decreases |acts|
  {
    if acts != [] {
      SafeStep(cfg, s, acts[0]);
      PresentStep(cfg, s, acts[0]);
      ApartStep(cfg, s, acts[0]);
      NothingSpurious(cfg, s, acts[0]);
      CalmRun(cfg, Apply(cfg, s, acts[0]), acts[1..]);
    }
  }

  /** What a calm run starts from. */
  ghost predicate Unspoilt(cfg: Settings, s: State) {
    && Safe(cfg, s) && Balanced(s) && Present(s)
    && RunningRows(s.gone) == {} && s.spurious.retried == s.spurious.dead == 0
  }

  lemma EmptyUnspoilt(cfg: Settings, s: State)
    requires cfg.Exclusive() && Init(s)
    ensures Unspoilt(cfg, s)
  {
    EmptyBalanced(cfg, s);
  }

  /** The metrics alone: claims are the sum of the succeeded, retried and dead outcomes and the rows
      now running, and the retry counts of all rows ever created add up to the retried outcomes. */
  ghost predicate MetricsBalance(s: State) {
    var c := s.counters;
    && c.claimed == c.succeeded + c.retried + c.dead + |RunningRows(s.table)|
    && Sum(Retries(s.table)) + Sum(Retries(s.gone)) == c.retried
    && c.reclaimed <= c.retried + c.dead
  }

  lemma CalmBooks(cfg: Settings, s: State, acts: seq<Action>)
    requires Unspoilt(cfg, s) && Legal(cfg, s, acts) && Throughout(cfg, s, acts, Calm)
    ensures MetricsBalance(After(cfg, s, acts))
  {
    CalmRun(cfg, s, acts);
    BalancedRun(cfg, s, acts);
  }

  /** No retry was counted in vain, and the dead letters counted in vain make up for the rows deleted
      while they were running. */
  ghost predicate SpuriousOffset(s: State) {
    s.spurious.retried == 0 && s.spurious.dead == |RunningRows(s.gone)|
  }

  lemma BalanceDecided(cfg: Settings, s: State, acts: seq<Action>)
    requires Safe(cfg, s) && Balanced(s) && Legal(cfg, s, acts) && Throughout(cfg, s, acts, NoPatch)
    ensures MetricsBalance(After(cfg, s, acts)) <==> SpuriousOffset(After(cfg, s, acts))
  {
    BalancedRun(cfg, s, acts);
  }

  /** Exactly when the metrics alone balance, in any PATCH-free run. */
  lemma MetricsBalanceExactlyWhen(cfg: Settings, s: State, acts: seq<Action>)
    requires cfg.Exclusive() && Init(s) && Legal(cfg, s, acts) && Throughout(cfg, s, acts, NoPatch)
    ensures MetricsBalance(After(cfg, s, acts)) <==> SpuriousOffset(After(cfg, s, acts))
  {
    EmptyBalanced(cfg, s);
    BalanceDecided(cfg, s, acts);
  }

  /** When nothing is miscounted and no running row is deleted, the metrics balance by themselves. */
  lemma CalmRunsBalance(cfg: Settings, s: State, acts: seq<Action>)
    requires cfg.Exclusive() && Init(s) && Legal(cfg, s, acts) && Throughout(cfg, s, acts, Calm)
    ensures MetricsBalance(After(cfg, s, acts))
  {
    EmptyUnspoilt(cfg, s);
    CalmBooks(cfg, s, acts);
  }
}
