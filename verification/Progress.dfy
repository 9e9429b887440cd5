/** The deadlines of executors, polls and locked rows never stop the clock: from every state a paced
    run goes on to any instant. */
module Progress {
  import opened Tasks
  import opened Retry
  import opened Protocol
  import opened Ownership
  import opened Measure
  import opened Pacing
  import opened Drain

  /** The worker's own steps take p to q. */
  ghost predicate Leads(cfg: Settings, period: nat, p: Paced, ms: seq<Move>, q: Paced) {
    LegalPaced(cfg, period, p, ms) && AfterPaced(cfg, period, p, ms) == q && WorkersOnly(ms)
  }

  lemma LeadsNowhere(cfg: Settings, period: nat, p: Paced)
    ensures Leads(cfg, period, p, [], p)
  {
  }

  lemma LeadsOn(cfg: Settings, period: nat, p: Paced, m: Move, ms: seq<Move>, q: Paced) returns (all: seq<Move>)
    requires May(cfg, p, m) && WorkerOrDelete(m.a) && Leads(cfg, period, Step(cfg, period, p, m), ms, q)
    ensures all == [m] + ms && Leads(cfg, period, p, all, q)
  {
    all := [m] + ms;
    assert all[1..] == ms;
  }

  lemma PacedUnfolds(cfg: Settings, period: nat, p: Paced, ms: seq<Move>, rest: seq<Move>)
    requires ms != [] && ms[1..] == rest && May(cfg, p, ms[0]) && LegalPaced(cfg, period, Step(cfg, period, p, ms[0]), rest)
    ensures LegalPaced(cfg, period, p, ms)
    ensures AfterPaced(cfg, period, p, ms) == AfterPaced(cfg, period, Step(cfg, period, p, ms[0]), rest)
  {
  }

  lemma TailOfJoin(ms: seq<Move>, ns: seq<Move>)
    requires ms != []
    ensures ms + ns != [] && (ms + ns)[0] == ms[0] && (ms + ns)[1..] == ms[1..] + ns
  {
  }

  lemma {:induction false} PacedJoins(cfg: Settings, period: nat, p: Paced, ms: seq<Move>, q: Paced, ns: seq<Move>)
    requires LegalPaced(cfg, period, p, ms) && AfterPaced(cfg, period, p, ms) == q && LegalPaced(cfg, period, q, ns)
    ensures LegalPaced(cfg, period, p, ms + ns)
    ensures AfterPaced(cfg, period, p, ms + ns) == AfterPaced(cfg, period, q, ns)
    decreases |ms|
  {
    if ms == [] {
      assert ms + ns == ns;
    } else {
      PacedJoins(cfg, period, Step(cfg, period, p, ms[0]), ms[1..], q, ns);
      TailOfJoin(ms, ns);
      PacedUnfolds(cfg, period, p, ms + ns, ms[1..] + ns);
    }
  }

  lemma LeadsJoin(cfg: Settings, period: nat, p: Paced, ms: seq<Move>, q: Paced, ns: seq<Move>, r: Paced)
    returns (all: seq<Move>)
    requires Leads(cfg, period, p, ms, q) && Leads(cfg, period, q, ns, r)
    ensures all == ms + ns && Leads(cfg, period, p, all, r)
  {
    all := ms + ns;
    PacedJoins(cfg, period, p, ms, q, ns);
  }

  /** Nothing but steps of others, and no waiting. */
  predicate DoOnly(ms: seq<Move>) { forall m :: m in ms ==> m.Do? && !m.a.Wait? }

  ghost predicate Steady(cfg: Settings, period: nat, p: Paced) {
    AllTimely(cfg, p.s) && OnTime(cfg, period, p)
  }

  lemma SteadyStep(cfg: Settings, period: nat, p: Paced, m: Move)
    requires Steady(cfg, period, p) && May(cfg, p, m)
    ensures Steady(cfg, period, Step(cfg, period, p, m))
  {
    TimelyStep(cfg, p.s, m.a);
    OnTimeStep(cfg, period, p, m);
  }

  /* Polls that skip nothing */

  lemma ClaimNow(cfg: Settings, s: State) returns (a: Action)
    ensures Enabled(cfg, s, a) && a.Claim? && a.asOf == s.clock && a.locked == {}
  {
    var ids := OldestDueExists(s.table, s.clock, cfg.batchSize);
    a := Claim(s.clock, {}, ids);
  }

  lemma ReapNow(cfg: Settings, s: State) returns (a: Action)
    ensures Enabled(cfg, s, a) && a.Reap? && a.asOf == s.clock && a.locked == {}
  {
    var ids := SomeStaleExists(s.table, s.clock, cfg.staleTimeout, cfg.batchSize);
    a := Reap(s.clock, {}, ids);
  }

  /** Such a poll adds no debt, and the next one of its kind is a period away. */
  lemma PollShape(cfg: Settings, period: nat, p: Paced, m: Move)
    requires Steady(cfg, period, p) && May(cfg, p, m) && m.Poll? && m.a.locked == {} && m.a.asOf == p.s.clock
    ensures var q := Step(cfg, period, p, m);
      && q.s.clock == p.s.clock && q.owed.Keys <= p.owed.Keys
      && (if m.a.Claim? then q.claimBy == p.s.clock + period && q.reapBy == p.reapBy
          else q.reapBy == p.s.clock + period && q.claimBy == p.claimBy)
  {
    ClockMovesOn(cfg, p.s, m.a);
    assert Skips(cfg, p.s, m.a) == {};
  }

  /** A claim or reap for a row that is wanted takes some row. */
  lemma WantedIsTaken(cfg: Settings, s: State, a: Action, x: Id)
    requires cfg.Valid() && Enabled(cfg, s, a) && (a.Claim? || a.Reap?) && a.locked == {} && a.asOf == s.clock && x in s.table
    requires if a.Claim? then Due(s.table[x], s.clock) else Stale(s.table[x], s.clock, cfg.staleTimeout)
    ensures WorkLeft(cfg, Apply(cfg, s, a)) < WorkLeft(cfg, s)
  {
    assert |a.ids| >= 1 by { if x in a.ids { assert a.ids != []; } }
    if a.Claim? { ClaimMoves(cfg, s, a); } else { ReapMoves(cfg, s, a); }
  }

  /** What is owed can be moved at once, by other workers. */
  lemma {:induction false} PayOwed(cfg: Settings, period: nat, p: Paced) returns (ms: seq<Move>, q: Paced)
    requires cfg.Valid() && Steady(cfg, period, p)
    ensures Leads(cfg, period, p, ms, q) && DoOnly(ms) && Steady(cfg, period, q) && q.s.clock == p.s.clock && q.owed == map[]
    ensures |q.s.batches| >= |p.s.batches|
    decreases WorkLeft(cfg, p.s)
  {
    if p.owed == map[] {
      ms, q := [], p;
    } else {
      var x :| x in p.owed;
      var a;
      if Due(p.s.table[x], p.s.clock) { a := ClaimNow(cfg, p.s); } else { a := ReapNow(cfg, p.s); }
      SteadyStep(cfg, period, p, Do(a));
      ClockMovesOn(cfg, p.s, a);
      WantedIsTaken(cfg, p.s, a, x);
      ms, q := PayOwed(cfg, period, Step(cfg, period, p, Do(a)));
      ms := LeadsOn(cfg, period, p, Do(a), ms, q);
    }
  }

  /** Reap and claim now, so that the next polls are a whole period away. */
  lemma PollBoth(cfg: Settings, period: nat, p: Paced) returns (ms: seq<Move>, q: Paced)
    requires Steady(cfg, period, p) && p.owed == map[]
    ensures Leads(cfg, period, p, ms, q) && Steady(cfg, period, q) && q.owed == map[]
    ensures q.s.clock == p.s.clock && q.reapBy == q.claimBy == p.s.clock + period
  {
    var a := ReapNow(cfg, p.s);
    var reap := Poll(a);
    SteadyStep(cfg, period, p, reap);
    PollShape(cfg, period, p, reap);
    var r := Step(cfg, period, p, reap);
    var b := ClaimNow(cfg, r.s);
    var claim := Poll(b);
    SteadyStep(cfg, period, r, claim);
    PollShape(cfg, period, r, claim);
    q := Step(cfg, period, r, claim);
    LeadsNowhere(cfg, period, q);
    ms := LeadsOn(cfg, period, r, claim, [], q);
    ms := LeadsOn(cfg, period, p, reap, ms, q);
  }

  /* Executors that are due */

  /** The step a batch needs before time may pass. */
  lemma Urgent(cfg: Settings, s: State, b: nat, until: Time) returns (a: Action)
    requires AllTimely(cfg, s) && b < |s.batches| && !MayWait(cfg, s.batches[b], until)
    ensures Enabled(cfg, s, a) && (a.Dispatch? || a.Finish?) && a.b == b
  {
    var batch := s.batches[b];
    assert Timely(cfg, s.clock, batch);
    if batch.next < |batch.ids| && |batch.live| < cfg.Slots() {
      a := Dispatch(b);
    } else {
      var i :| i in batch.live && until > batch.live[i].start + cfg.executionTimeout;
      a := Finish(b, i, Failure("timeout"));
    }
  }

  /** Dispatches and outcomes left in a batch. */
  function Left(batch: Batch): nat {
    2 * (if batch.next <= |batch.ids| then |batch.ids| - batch.next else 0) + |batch.live|
  }

  lemma UrgentServes(cfg: Settings, s: State, a: Action)
    requires AllTimely(cfg, s) && Enabled(cfg, s, a) && (a.Dispatch? || a.Finish?)
    ensures var t := Apply(cfg, s, a);
      && |t.batches| == |s.batches| && Left(t.batches[a.b]) < Left(s.batches[a.b])
      && forall c :: 0 <= c < |s.batches| && c != a.b ==> t.batches[c] == s.batches[c]
  {
    ExecutorFrame(cfg, s, a);
    var batch, after := s.batches[a.b], Apply(cfg, s, a).batches[a.b];
    assert |after.live| == |after.live.Keys| && |batch.live| == |batch.live.Keys|;
    if a.Dispatch? {
      assert after.live.Keys <= batch.live.Keys + {batch.next};
      SubsetSize(after.live.Keys, batch.live.Keys + {batch.next});
    } else {
      assert after.live.Keys == batch.live.Keys - {a.i};
    }
  }

  /** Batch b is served until it lets time pass; the polls and the other batches are as before. */
  lemma {:induction false} Settle(cfg: Settings, period: nat, p: Paced, b: nat, until: Time) returns (ms: seq<Move>, q: Paced)
    requires Steady(cfg, period, p) && p.owed == map[] && b < |p.s.batches|
    ensures Leads(cfg, period, p, ms, q) && DoOnly(ms) && Steady(cfg, period, q) && q.owed == map[]
    ensures q.s.clock == p.s.clock && q.reapBy == p.reapBy && q.claimBy == p.claimBy
    ensures |q.s.batches| == |p.s.batches| && MayWait(cfg, q.s.batches[b], until)
    ensures forall c :: 0 <= c < |p.s.batches| && c != b ==> q.s.batches[c] == p.s.batches[c]
    decreases Left(p.s.batches[b])
  {
    ms, q := [], p;
    if !MayWait(cfg, p.s.batches[b], until) {
      var a := Urgent(cfg, p.s, b, until);
      SteadyStep(cfg, period, p, Do(a));
      UrgentServes(cfg, p.s, a);
      ClockMovesOn(cfg, p.s, a);
      ms, q := Settle(cfg, period, Step(cfg, period, p, Do(a)), b, until);
      ms := LeadsOn(cfg, period, p, Do(a), ms, q);
    }
  }

  lemma {:induction false} SettleFrom(cfg: Settings, period: nat, p: Paced, b: nat, until: Time) returns (ms: seq<Move>, q: Paced)
    requires Steady(cfg, period, p) && p.owed == map[] && b <= |p.s.batches|
    requires forall c :: 0 <= c < b ==> MayWait(cfg, p.s.batches[c], until)
    ensures Leads(cfg, period, p, ms, q) && DoOnly(ms) && Steady(cfg, period, q) && q.owed == map[]
    ensures q.s.clock == p.s.clock && q.reapBy == p.reapBy && q.claimBy == p.claimBy
    ensures |q.s.batches| == |p.s.batches|
    ensures forall c :: 0 <= c < |q.s.batches| ==> MayWait(cfg, q.s.batches[c], until)
    decreases |p.s.batches| - b
  {
    ms, q := [], p;
    if b < |p.s.batches| {
      var r, ns;
      ms, r := Settle(cfg, period, p, b, until);
      ns, q := SettleFrom(cfg, period, r, b + 1, until);
      ms := LeadsJoin(cfg, period, p, ms, r, ns, q);
    }
  }

  /* Time passes */

  lemma TimePasses(cfg: Settings, period: nat, p: Paced) returns (ms: seq<Move>, q: Paced)
    requires Steady(cfg, period, p) && p.owed == map[] && p.reapBy > p.s.clock && p.claimBy > p.s.clock
    requires forall c :: 0 <= c < |p.s.batches| ==> MayWait(cfg, p.s.batches[c], p.s.clock + 1)
    ensures Leads(cfg, period, p, ms, q) && Steady(cfg, period, q) && q.s.clock == p.s.clock + 1
  {
    var m := Do(Wait(p.s.clock + 1));
    SteadyStep(cfg, period, p, m);
    q := Step(cfg, period, p, m);
    LeadsNowhere(cfg, period, q);
    ms := LeadsOn(cfg, period, p, m, [], q);
  }

  lemma TickOn(cfg: Settings, period: nat, p: Paced) returns (ms: seq<Move>, q: Paced)
    requires cfg.Valid() && period >= 1 && Steady(cfg, period, p)
    ensures Leads(cfg, period, p, ms, q) && Steady(cfg, period, q) && q.s.clock == p.s.clock + 1
  {
    var paid, ns;
    ms, paid := PayOwed(cfg, period, p);
    var polled, settled;
    ns, polled := PollBoth(cfg, period, paid);
    ms := LeadsJoin(cfg, period, p, ms, paid, ns, polled);
    ns, settled := SettleFrom(cfg, period, polled, 0, polled.s.clock + 1);
    ms := LeadsJoin(cfg, period, p, ms, polled, ns, settled);
    ns, q := TimePasses(cfg, period, settled);
    ms := LeadsJoin(cfg, period, p, ms, settled, ns, q);
  }

  /** Time is never blocked: from every state on time, a paced run in which workers act alone reaches
      any instant. */
  lemma {:induction false} AnyInstantIsReached(cfg: Settings, period: nat, p: Paced, end: Time) returns (ms: seq<Move>)
    requires cfg.Valid() && period >= 1 && AllTimely(cfg, p.s) && OnTime(cfg, period, p)
    ensures LegalPaced(cfg, period, p, ms) && WorkersOnly(ms) && AfterPaced(cfg, period, p, ms).s.clock >= end
    decreases end - p.s.clock
  {
    if p.s.clock >= end {
      ms := [];
    } else {
      var first, q := TickOn(cfg, period, p);
      var rest := AnyInstantIsReached(cfg, period, q, end);
      ms := LeadsJoin(cfg, period, p, first, q, rest, AfterPaced(cfg, period, q, rest));
    }
  }

  /** With no polling period at all, time cannot pass. */
  lemma {:induction false} NoPeriodNoTime(cfg: Settings, p: Paced, ms: seq<Move>)
    requires OnTime(cfg, 0, p) && LegalPaced(cfg, 0, p, ms)
    ensures AfterPaced(cfg, 0, p, ms).s.clock == p.s.clock
    decreases |ms|
  {
    if ms != [] {
      OnTimeStep(cfg, 0, p, ms[0]);
      ClockMovesOn(cfg, p.s, ms[0].a);
      NoPeriodNoTime(cfg, Step(cfg, 0, p, ms[0]), ms[1..]);
    }
  }

  /** So the drain comes about: the workers alone can bring every task to its end. */
  lemma TasksDoEnd(cfg: Settings, period: nat, p: Paced, t0: Time) returns (ms: seq<Move>)
    requires cfg.Valid() && period >= 1 && DrainsFrom(cfg, period, p, t0)
    ensures LegalPaced(cfg, period, p, ms) && WorkersOnly(ms)
    ensures var t := AfterPaced(cfg, period, p, ms).s.table;
      forall x :: x in t ==> t[x].status == Succeeded || t[x].status == Dead
  {
    ms := AnyInstantIsReached(cfg, period, p, DrainedBy(cfg, period, p.s, t0) + 1);
    EveryTaskEnds(cfg, period, p, ms, t0);
  }
}
