/** The protocol with a worker that keeps polling, and how long a due task waits for its claim. */
module Pacing {
  import opened Tasks
  import opened Protocol
  import opened Ownership
  import opened Waiting
  import opened Sums

  /** A poll is a claim or a reap of the worker that is paced; everything else, other workers' claims
      and reaps included, is just done. */
  datatype Move = Do(a: Action) | Poll(a: Action)

  /** The protocol with polling: `reapBy` and `claimBy` are when the next reap and the next claim are
      due, one polling period after the last ones. `owed` are the rows that a poll skipped because
      another transaction had locked them, with the time by which that one will have moved them. */
  datatype Paced = Paced(s: State, reapBy: Time, claimBy: Time, owed: map<Id, Time>)

  ghost predicate May(cfg: Settings, p: Paced, m: Move) {
    && Enabled(cfg, p.s, m.a)
    && (m.Poll? ==> m.a.Claim? || m.a.Reap?)
    && (m.a.Wait? ==>
          && m.a.until <= p.reapBy && m.a.until <= p.claimBy
          && forall x :: x in p.owed ==> m.a.until <= p.owed[x])
  }

  function Later(x: Time, y: Time): Time { if x < y then y else x }

  /** The rows a poll wanted and found locked. */
  function Skips(cfg: Settings, s: State, a: Action): set<Id>
    requires a.Claim? || a.Reap?
  {
    set x | x in s.table && x in a.locked
            && if a.Claim? then Due(s.table[x], a.asOf) else Stale(s.table[x], a.asOf, cfg.staleTimeout)
  }

  /** What is still owed once the table has become t: the rows that have not moved. */
  function StillOwed(owed: map<Id, Time>, before: Table, after: Table): map<Id, Time> {
    map x | x in owed && x in before && x in after && after[x] == before[x] :: owed[x]
  }

  /** A poll adds the rows it skips: the transactions that hold them end within the overhead. */
  ghost function OwedAfterPoll(cfg: Settings, owed: map<Id, Time>, s: State, a: Action): map<Id, Time>
    requires Enabled(cfg, s, a) && (a.Claim? || a.Reap?)
  {
    (map x | x in Skips(cfg, s, a) :: s.clock + cfg.overhead) + StillOwed(owed, s.table, Apply(cfg, s, a).table)
  }

  ghost function Step(cfg: Settings, period: nat, p: Paced, m: Move): Paced
    requires May(cfg, p, m)
  {
    var t := Apply(cfg, p.s, m.a);
    if m.Do? then
      Paced(t, p.reapBy, p.claimBy, StillOwed(p.owed, p.s.table, t.table))
    else
      Paced(t,
            if m.a.Reap? then Later(p.reapBy, m.a.asOf + period) else p.reapBy,
            if m.a.Claim? then Later(p.claimBy, m.a.asOf + period) else p.claimBy,
            OwedAfterPoll(cfg, p.owed, p.s, m.a))
  }

  ghost predicate OnTime(cfg: Settings, period: nat, p: Paced) {
    && p.s.clock <= p.reapBy <= p.s.clock + period && p.s.clock <= p.claimBy <= p.s.clock + period
    && (forall x :: x in p.owed ==>
          p.s.clock <= p.owed[x] <= p.s.clock + cfg.overhead && x in p.s.table && Wanted(cfg, p.s.table[x], p.s.clock))
  }

  /** A row that some poll would take. */
  predicate Wanted(cfg: Settings, row: Row, now: Time) {
    Due(row, now) || Stale(row, now, cfg.staleTimeout)
  }

  ghost predicate LegalPaced(cfg: Settings, period: nat, p: Paced, ms: seq<Move>)
    decreases |ms|
  {
    ms == [] || (May(cfg, p, ms[0]) && LegalPaced(cfg, period, Step(cfg, period, p, ms[0]), ms[1..]))
  }

  ghost function AfterPaced(cfg: Settings, period: nat, p: Paced, ms: seq<Move>): Paced
    requires LegalPaced(cfg, period, p, ms)
    decreases |ms|
  {
    if ms == [] then p else AfterPaced(cfg, period, Step(cfg, period, p, ms[0]), ms[1..])
  }

  function Actions(ms: seq<Move>): seq<Action> {
    seq(|ms|, i requires 0 <= i < |ms| => ms[i].a)
  }

  /** Polling only restricts when time may pass: a paced run is a run. */
  lemma {:induction false} PacedIsLegal(cfg: Settings, period: nat, p: Paced, ms: seq<Move>)
    requires LegalPaced(cfg, period, p, ms)
    ensures Legal(cfg, p.s, Actions(ms)) && After(cfg, p.s, Actions(ms)) == AfterPaced(cfg, period, p, ms).s
    decreases |ms|
  {
    if ms != [] {
      PacedIsLegal(cfg, period, Step(cfg, period, p, ms[0]), ms[1..]);
      assert Actions(ms)[1..] == Actions(ms[1..]);
    }
  }

  /** Deadlines are kept. */
  lemma OnTimeStep(cfg: Settings, period: nat, p: Paced, m: Move)
    requires OnTime(cfg, period, p) && May(cfg, p, m)
    ensures OnTime(cfg, period, Step(cfg, period, p, m))
  {
    ClockMovesOn(cfg, p.s, m.a);
    OwedStays(cfg, p, m);
    if m.Poll? { PollOnTime(cfg, period, p, m); }
  }

  lemma PollOnTime(cfg: Settings, period: nat, p: Paced, m: Move)
    requires OnTime(cfg, period, p) && May(cfg, p, m) && m.Poll? && Apply(cfg, p.s, m.a).clock == p.s.clock
    requires var t := Apply(cfg, p.s, m.a);
      forall x :: x in StillOwed(p.owed, p.s.table, t.table) ==> x in t.table && Wanted(cfg, t.table[x], t.clock)
    ensures OnTime(cfg, period, Step(cfg, period, p, m))
  {
    SkippedStay(cfg, p.s, m.a);
    var q := Step(cfg, period, p, m);
    forall x | x in q.owed
      ensures q.s.clock <= q.owed[x] <= q.s.clock + cfg.overhead && x in q.s.table && Wanted(cfg, q.s.table[x], q.s.clock)
    {
      if x !in StillOwed(p.owed, p.s.table, q.s.table) { assert x in Skips(cfg, p.s, m.a); }
    }
  }

  /** Until a row moves, what is owed of it stays so. */
  lemma OwedStays(cfg: Settings, p: Paced, m: Move)
    requires May(cfg, p, m) && p.s.clock <= Apply(cfg, p.s, m.a).clock
    requires forall x :: x in p.owed ==> x in p.s.table && Wanted(cfg, p.s.table[x], p.s.clock)
    ensures var t := Apply(cfg, p.s, m.a);
      forall x :: x in StillOwed(p.owed, p.s.table, t.table) ==> x in t.table && Wanted(cfg, t.table[x], t.clock)
  {
  }

  /** A poll makes a debt of exactly the rows it wanted and found locked, to be moved within the overhead;
      older debts stay until their row moves. */
  lemma DebtsOfPoll(cfg: Settings, owed: map<Id, Time>, s: State, a: Action, x: Id)
    requires Enabled(cfg, s, a) && (a.Claim? || a.Reap?)
    ensures var debts, t := OwedAfterPoll(cfg, owed, s, a), Apply(cfg, s, a).table;
      var older, wanted := x in owed && x in s.table && x in t && t[x] == s.table[x],
                         x in s.table && x in a.locked && (if a.Claim? then s.table[x].status == Pending && s.table[x].scheduledAt <= a.asOf
                                                           else s.table[x].status == Running && s.table[x].updatedAt < a.asOf - cfg.staleTimeout);
      (x in debts <==> older || wanted) && (x in debts ==> debts[x] == if older then owed[x] else s.clock + cfg.overhead)
  {
  }

  lemma SkippedStay(cfg: Settings, s: State, a: Action)
    requires Enabled(cfg, s, a) && (a.Claim? || a.Reap?)
    ensures forall x :: x in Skips(cfg, s, a) ==>
              x in Apply(cfg, s, a).table && Apply(cfg, s, a).table[x] == s.table[x] && Wanted(cfg, s.table[x], s.clock)
  {
  }

  /* Claim latency */

  /** The claim of x is near: some other claim has it in hand, or it is served within `bound`. */
  ghost predicate Near(cfg: Settings, period: nat, p: Paced, x: Id, bound: Time)
    requires x in p.s.table
  {
    || (x in p.owed && p.owed[x] <= bound + cfg.overhead)
    || (var w := WaveTime(|Ahead(p.s.table, x)|, if cfg.batchSize >= 1 then cfg.batchSize else 1, period);
        p.claimBy + w <= bound && p.s.table[x].scheduledAt + period + w <= bound)
  }

  ghost predicate Waits(p: Paced, x: Id) {
    x in p.s.table && p.s.table[x].status == Pending && p.s.table[x].scheduledAt <= p.s.clock
  }

  /** A poll in which x has its turn serves B rows ahead of it. */
  lemma TurnNear(cfg: Settings, period: nat, p: Paced, m: Move, x: Id, bound: Time)
    requires cfg.Valid() && Owned(p.s) && OnTime(cfg, period, p) && May(cfg, p, m) && Waits(p, x)
    requires m.Poll? && Turn(m.a, x, p.s.table[x].scheduledAt) && x !in m.a.ids
    requires x !in p.owed && Near(cfg, period, p, x, bound)
    requires Orderly(x, p.s.table[x].scheduledAt)(p.s, m.a)
    ensures Waits(Step(cfg, period, p, m), x) && Near(cfg, period, Step(cfg, period, p, m), x, bound)
  {
    AheadOnlyShrinks(cfg, p.s, m.a, x);
    TurnServesAhead(cfg, p.s, m.a, x);
    ClockMovesOn(cfg, p.s, m.a);
    var before, after := Ahead(p.s.table, x), Ahead(Apply(cfg, p.s, m.a).table, x);
    SubsetSize(after, before - Elements(m.a.ids));
    WaveAfter(|after|, |before|, cfg.batchSize, period);
  }

  /** Any other step leaves the queue before x no longer. */
  lemma OtherNear(cfg: Settings, period: nat, p: Paced, m: Move, x: Id, bound: Time)
    requires cfg.Valid() && Owned(p.s) && OnTime(cfg, period, p) && May(cfg, p, m) && Waits(p, x)
    requires !(m.Poll? && Turn(m.a, x, p.s.table[x].scheduledAt)) && !(m.a.Claim? && x in m.a.ids)
    requires x !in p.owed && Near(cfg, period, p, x, bound)
    requires Orderly(x, p.s.table[x].scheduledAt)(p.s, m.a)
    ensures Waits(Step(cfg, period, p, m), x) && Near(cfg, period, Step(cfg, period, p, m), x, bound)
  {
    AheadOnlyShrinks(cfg, p.s, m.a, x);
    ClockMovesOn(cfg, p.s, m.a);
    var before, after := Ahead(p.s.table, x), Ahead(Apply(cfg, p.s, m.a).table, x);
    SubsetSize(after, before);
    WaveMonotone(|after|, |before|, cfg.batchSize, period);
  }

  /** What is owed stays owed until it moves. */
  lemma OwedNear(cfg: Settings, period: nat, p: Paced, m: Move, x: Id)
    requires cfg.Valid() && Owned(p.s) && OnTime(cfg, period, p) && May(cfg, p, m) && Waits(p, x)
    requires x in p.owed && !(m.a.Claim? && x in m.a.ids) && Orderly(x, p.s.table[x].scheduledAt)(p.s, m.a)
    ensures var q := Step(cfg, period, p, m); Waits(q, x) && x in q.owed && q.owed[x] == p.owed[x]
  {
    AheadOnlyShrinks(cfg, p.s, m.a, x);
    ClockMovesOn(cfg, p.s, m.a);
  }

  lemma LatencyStep(cfg: Settings, period: nat, p: Paced, m: Move, x: Id, bound: Time)
    requires cfg.Valid() && Safe(cfg, p.s) && OnTime(cfg, period, p) && May(cfg, p, m)
    requires Waits(p, x) && Near(cfg, period, p, x, bound)
    requires Orderly(x, p.s.table[x].scheduledAt)(p.s, m.a) && !(m.a.Claim? && x in m.a.ids)
    ensures var q := Step(cfg, period, p, m);
      && Safe(cfg, q.s) && OnTime(cfg, period, q) && Waits(q, x) && Near(cfg, period, q, x, bound)
      && q.s.table[x] == p.s.table[x]
  {
    SafeStep(cfg, p.s, m.a);
    OnTimeStep(cfg, period, p, m);
    AheadOnlyShrinks(cfg, p.s, m.a, x);
    if x in p.owed {
      OwedNear(cfg, period, p, m, x);
      if !(p.owed[x] <= bound + cfg.overhead) { OwedIsSoon(cfg, period, p, x, bound); }
    } else if m.Poll? && Turn(m.a, x, p.s.table[x].scheduledAt) {
      TurnNear(cfg, period, p, m, x, bound);
    } else {
      OtherNear(cfg, period, p, m, x, bound);
    }
  }

  /** Whatever is owed is owed within the overhead from now. */
  lemma OwedIsSoon(cfg: Settings, period: nat, p: Paced, x: Id, bound: Time)
    requires OnTime(cfg, period, p) && Waits(p, x) && Near(cfg, period, p, x, bound) && x in p.owed
    ensures p.owed[x] <= bound + cfg.overhead
  {
  }

  /** Along the actions of a paced run. */
  ghost predicate ThroughoutPaced(cfg: Settings, period: nat, p: Paced, ms: seq<Move>, f: (State, Action) -> bool)
    requires LegalPaced(cfg, period, p, ms)
    decreases |ms|
  {
    ms == [] || (f(p.s, ms[0].a) && ThroughoutPaced(cfg, period, Step(cfg, period, p, ms[0]), ms[1..], f))
  }

  predicate PickedBy(ms: seq<Move>, x: Id) {
    exists i :: 0 <= i < |ms| && ms[i].a.Claim? && x in ms[i].a.ids
  }

  lemma NotPickedLater(ms: seq<Move>, x: Id)
    requires ms != [] && !PickedBy(ms, x)
    ensures !(ms[0].a.Claim? && x in ms[0].a.ids) && !PickedBy(ms[1..], x)
  {
    forall i | 0 <= i < |ms[1..]| && ms[1..][i].a.Claim? ensures x !in ms[1..][i].a.ids {
      assert ms[i + 1] == ms[1..][i];
    }
  }

  lemma {:induction false} LatencyRun(cfg: Settings, period: nat, p: Paced, ms: seq<Move>, x: Id, bound: Time)
    requires cfg.Valid() && Safe(cfg, p.s) && OnTime(cfg, period, p) && Waits(p, x) && Near(cfg, period, p, x, bound)
    requires LegalPaced(cfg, period, p, ms) && !PickedBy(ms, x)
    requires ThroughoutPaced(cfg, period, p, ms, Orderly(x, p.s.table[x].scheduledAt))
    ensures AfterPaced(cfg, period, p, ms).s.clock <= bound + cfg.overhead
    decreases |ms|
  {
    if ms == [] {
      if x in p.owed { OwedIsSoon(cfg, period, p, x, bound); }
    } else {
      NotPickedLater(ms, x);
      assert Orderly(x, p.s.table[x].scheduledAt)(p.s, ms[0].a);
      LatencyStep(cfg, period, p, ms[0], x, bound);
      LatencyRun(cfg, period, Step(cfg, period, p, ms[0]), ms[1..], x, bound);
    }
  }

  lemma LateIsPicked(cfg: Settings, period: nat, p: Paced, ms: seq<Move>, x: Id)
    requires cfg.Valid() && Safe(cfg, p.s) && OnTime(cfg, period, p) && Waits(p, x)
    requires LegalPaced(cfg, period, p, ms)
    requires ThroughoutPaced(cfg, period, p, ms, Orderly(x, p.s.table[x].scheduledAt))
    requires AfterPaced(cfg, period, p, ms).s.clock
             > p.s.clock + period + WaveTime(|Ahead(p.s.table, x)|, cfg.batchSize, period) + cfg.overhead
    ensures PickedBy(ms, x)
  {
    if !PickedBy(ms, x) {
      LatencyRun(cfg, period, p, ms, x, p.s.clock + period + WaveTime(|Ahead(p.s.table, x)|, cfg.batchSize, period));
    }
  }

  /** (k / B + 1) periods: how long k rows ahead can take, B at a time. */
  function Patience(cfg: Settings, period: nat, k: nat): nat
    requires cfg.Valid()
  {
    (k / cfg.batchSize + 1) * period
  }

  lemma PatienceIs(cfg: Settings, period: nat, k: nat)
    requires cfg.Valid()
    ensures Patience(cfg, period, k) == period + WaveTime(k, cfg.batchSize, period)
  {
    WavesAndOne(k, cfg.batchSize, period);
  }

  /** Wall-clock latency: with a claim at least every `period`, and rows locked by others moved within
      the overhead, a due task with k pending rows at or ahead of it has been claimed once
      (k / B + 1) periods and an overhead have passed. */
  lemma ClaimLatency(cfg: Settings, period: nat, p: Paced, ms: seq<Move>, x: Id)
    requires cfg.Valid() && Safe(cfg, p.s) && OnTime(cfg, period, p) && Waits(p, x)
    requires LegalPaced(cfg, period, p, ms)
    requires ThroughoutPaced(cfg, period, p, ms, Orderly(x, p.s.table[x].scheduledAt))
    requires AfterPaced(cfg, period, p, ms).s.clock > p.s.clock + Patience(cfg, period, |Ahead(p.s.table, x)|) + cfg.overhead
    ensures exists i :: 0 <= i < |ms| && ms[i].a.Claim? && x in ms[i].a.ids
  {
    PatienceIs(cfg, period, |Ahead(p.s.table, x)|);
    LateIsPicked(cfg, period, p, ms, x);
  }
}
