/** The polling loop inside the protocol: run_loop's ticks, each a reap, a claim and a gather, amid
    other workers and clients. It polls at least every so often, by the settings alone. */
module Polling {
  import opened Tasks
  import opened Retry
  import opened Protocol
  import opened Ownership
  import opened Measure
  import opened Waiting
  import P = Pacing
  import D = Drain
  import R = Runner

  /** Where the loop stands: asleep, before its reap, between reap and claim, or in its gather. */
  datatype Stage = Asleep | Reaping | Claiming | Gathering(b: nat)

  /** `start` is when the present or last tick began, `next` when the next one is due, `mark` when the
      tick last committed, `misses` how many ticks failed in a row, and `since` when the last tick that
      claimed began. `ticks` are the finished ticks, `owed` the rows that a poll found locked. */
  datatype Loop = Loop(
    s: State, stage: Stage, start: Time, next: Time, mark: Time, misses: nat, since: Time,
    ticks: seq<R.Tick>, owed: map<Id, Time>)

  /** `Own` is the loop's reap or claim, `Other` a step of anyone else, of its executors, or of time.
      `Join` ends the gather, by its return or by an exception from a task; `Fail` ends a tick whose
      reap or claim raises. */
  datatype Beat = Begin | Own(a: Action) | Other(a: Action) | Join | Fail

  /** The order of things in run_loop and run_once. */
  ghost predicate Flow(cfg: Settings, l: Loop, m: Beat) {
    match m
    case Begin => l.stage.Asleep? && l.next <= l.s.clock
    case Own(a) =>
      && Enabled(cfg, l.s, a) && ((a.Reap? && l.stage.Reaping?) || (a.Claim? && l.stage.Claiming?))
      && l.mark <= a.asOf
    case Other(a) => Enabled(cfg, l.s, a)
    case Join => l.stage.Gathering?
    case Fail => l.stage.Reaping? || l.stage.Claiming?
  }

  function Duration(l: Loop): nat { if l.start <= l.s.clock then l.s.clock - l.start else 0 }

  function Sleep(interval: int, l: Loop, fails: bool): Loop {
    l.(stage := Asleep, next := R.NextStart(l.start, interval, l.s.clock), ticks := l.ticks + [R.Tick(Duration(l), fails)],
       misses := if l.stage.Gathering? then 0 else l.misses + 1)
  }

  ghost function Step(cfg: Settings, interval: int, l: Loop, m: Beat): Loop
    requires Flow(cfg, l, m)
  {
    match m
    case Begin => l.(stage := Reaping, start := l.s.clock, mark := l.s.clock)
    case Own(a) =>
      var t := Apply(cfg, l.s, a);
      var owed := P.OwedAfterPoll(cfg, l.owed, l.s, a);
      if a.Reap? then l.(s := t, stage := Claiming, mark := l.s.clock, owed := owed)
      else l.(s := t, stage := Gathering(|l.s.batches|), mark := l.s.clock, misses := 0, since := l.start, owed := owed)
    case Other(a) =>
      var t := Apply(cfg, l.s, a);
      l.(s := t, owed := P.StillOwed(l.owed, l.s.table, t.table))
    case Join => Sleep(interval, l, false)
    case Fail => Sleep(interval, l, true)
  }

  /** How long time may pass: the loop wakes when the next tick is due, its transactions take at most
      the overhead, its gather lasts as long as its tasks, and what it skipped is moved in time. */
  ghost predicate InTime(cfg: Settings, l: Loop, until: Time) {
    && (match l.stage
        case Asleep => until <= l.next
        case Reaping => until <= l.start + cfg.overhead
        case Claiming => until <= l.mark + cfg.overhead
        case Gathering(b) => exists i :: Slot(l.s, b, i))
    && (forall x :: x in l.owed ==> until <= l.owed[x])
  }

  /** No more than so many ticks in a row fail before they have claimed. */
  ghost function Prompt(cfg: Settings, faults: nat): (Loop, Beat) -> bool {
    (l: Loop, m: Beat) =>
      && (m.Other? && m.a.Wait? ==> InTime(cfg, l, m.a.until))
      && (m.Fail? ==> l.misses < faults)
  }

  ghost predicate LegalLoop(cfg: Settings, interval: int, l: Loop, ms: seq<Beat>)
    decreases |ms|
  {
    ms == [] || (Flow(cfg, l, ms[0]) && LegalLoop(cfg, interval, Step(cfg, interval, l, ms[0]), ms[1..]))
  }

  ghost function AfterLoop(cfg: Settings, interval: int, l: Loop, ms: seq<Beat>): Loop
    requires LegalLoop(cfg, interval, l, ms)
    decreases |ms|
  {
    if ms == [] then l else AfterLoop(cfg, interval, Step(cfg, interval, l, ms[0]), ms[1..])
  }

  ghost predicate ThroughoutLoop(cfg: Settings, interval: int, l: Loop, ms: seq<Beat>, f: (Loop, Beat) -> bool)
    requires LegalLoop(cfg, interval, l, ms)
    decreases |ms|
  {
    ms == [] || (f(l, ms[0]) && ThroughoutLoop(cfg, interval, Step(cfg, interval, l, ms[0]), ms[1..], f))
  }

  /* How long a tick takes, and how far polls are apart: by the settings alone. */

  /** A tick is a reap, a claim, and ceil(B / C) executions. */
  function TickTime(cfg: Settings): (time: nat)
    ensures time >= 2 * cfg.overhead
  {
    2 * cfg.overhead + cfg.Waves(cfg.batchSize) * cfg.executionTimeout
  }

  /** From one tick to the next: max(interval, longest tick). */
  function Pause(cfg: Settings, interval: int): nat {
    if interval < TickTime(cfg) then TickTime(cfg) else interval
  }

  /** n pauses, by recursion. */
  function Pauses(n: nat, pause: nat): nat {
    if n == 0 then 0 else Pauses(n - 1, pause) + pause
  }

  lemma {:induction false} PausesIs(n: nat, pause: nat)
    ensures Pauses(n, pause) == n * pause
    decreases n
  {
    if n > 0 {
      PausesIs(n - 1, pause);
      assert (n - 1) * pause + pause == n * pause;
    }
  }

  lemma {:induction false} PausesMonotone(m: nat, n: nat, pause: nat)
    requires m <= n
    ensures Pauses(m, pause) <= Pauses(n, pause)
    decreases n
  {
    if m < n { PausesMonotone(m, n - 1, pause); }
  }

  /** From one claim to the next, with at most so many failed ticks in between: one pause each, and the
      two transactions of the tick that claims. */
  function Period(cfg: Settings, interval: int, faults: nat): nat {
    Pauses(faults + 1, Pause(cfg, interval)) + 2 * cfg.overhead
  }

  lemma PeriodIs(cfg: Settings, interval: int, faults: nat)
    ensures Period(cfg, interval, faults) == (faults + 1) * Pause(cfg, interval) + 2 * cfg.overhead
  {
    PausesIs(faults + 1, Pause(cfg, interval));
  }

  /* Invariant of a loop in time */

  ghost predicate InStage(cfg: Settings, interval: int, l: Loop) {
    var now, due := l.s.clock, l.since + Pauses(l.misses + 1, Pause(cfg, interval));
    match l.stage
    case Asleep => now <= l.next <= due
    case Reaping => l.start == l.mark <= now <= l.start + cfg.overhead && l.start <= due
    case Claiming => l.start <= l.mark <= now <= l.mark + cfg.overhead && l.mark <= l.start + cfg.overhead && l.start <= due
    case Gathering(b) =>
      && l.start == l.since && l.misses == 0 && l.start <= now <= l.start + TickTime(cfg)
      && b < |l.s.batches| && l.s.batches[b].formedAt <= l.start + 2 * cfg.overhead
  }

  /** What is owed stays within the overhead, and of rows that are wanted. */
  ghost predicate OwedOk(cfg: Settings, l: Loop) {
    forall x :: x in l.owed ==>
      l.s.clock <= l.owed[x] <= l.s.clock + cfg.overhead && x in l.s.table && P.Wanted(cfg, l.s.table[x], l.s.clock)
  }

  ghost predicate LoopOk(cfg: Settings, interval: int, faults: nat, l: Loop) {
    && AllTimely(cfg, l.s) && l.misses <= faults && l.since <= l.start <= l.s.clock && InStage(cfg, interval, l) && OwedOk(cfg, l)
  }

  /** The clock is never further than a period from the start of the last tick that claimed. */
  lemma LoopInPeriod(cfg: Settings, interval: int, faults: nat, l: Loop)
    requires LoopOk(cfg, interval, faults, l)
    ensures l.s.clock <= l.since + Period(cfg, interval, faults)
    ensures l.s.clock <= l.start + Period(cfg, interval, faults) || !l.stage.Claiming?
  {
    PausesMonotone(l.misses + 1, faults + 1, Pause(cfg, interval));
    PausesMonotone(1, faults + 1, Pause(cfg, interval));
  }

  lemma BeginOk(cfg: Settings, interval: int, faults: nat, l: Loop)
    requires LoopOk(cfg, interval, faults, l) && Flow(cfg, l, Begin)
    ensures LoopOk(cfg, interval, faults, Step(cfg, interval, l, Begin))
    ensures l.s.clock == l.next
  {
  }

  lemma JoinOk(cfg: Settings, interval: int, faults: nat, l: Loop)
    requires LoopOk(cfg, interval, faults, l) && Flow(cfg, l, Join)
    ensures LoopOk(cfg, interval, faults, Step(cfg, interval, l, Join))
  {
    assert Pauses(1, Pause(cfg, interval)) == Pause(cfg, interval);
  }

  lemma OnePauseMore(n: nat, pause: nat)
    ensures Pauses(n + 1, pause) == Pauses(n, pause) + pause
  {
  }

  lemma FailOk(cfg: Settings, interval: int, faults: nat, l: Loop)
    requires LoopOk(cfg, interval, faults, l) && Flow(cfg, l, Fail) && l.misses < faults
    ensures LoopOk(cfg, interval, faults, Step(cfg, interval, l, Fail))
  {
    OnePauseMore(l.misses + 1, Pause(cfg, interval));
  }

  lemma OwnOwed(cfg: Settings, interval: int, l: Loop, a: Action)
    requires OwedOk(cfg, l) && Flow(cfg, l, Own(a))
    ensures OwedOk(cfg, Step(cfg, interval, l, Own(a)))
  {
    ClockMovesOn(cfg, l.s, a);
    P.SkippedStay(cfg, l.s, a);
  }

  lemma ReapInStage(cfg: Settings, interval: int, l: Loop, a: Action)
    requires InStage(cfg, interval, l) && l.since <= l.start <= l.s.clock && Flow(cfg, l, Own(a)) && a.Reap?
    ensures InStage(cfg, interval, Step(cfg, interval, l, Own(a)))
  {
    ClockMovesOn(cfg, l.s, a);
  }

  lemma ClaimFormsBatch(cfg: Settings, s: State, a: Action)
    requires Enabled(cfg, s, a) && a.Claim?
    ensures var t := Apply(cfg, s, a);
      t.clock == s.clock && |t.batches| == |s.batches| + 1 && t.batches[|s.batches|].formedAt == s.clock
  {
  }

  lemma OwnClaimShape(cfg: Settings, interval: int, l: Loop, a: Action)
    requires Flow(cfg, l, Own(a)) && a.Claim?
    ensures var k := Step(cfg, interval, l, Own(a));
      && k.stage == Gathering(|l.s.batches|) && k.s == Apply(cfg, l.s, a)
      && k.start == k.since == l.start && k.misses == 0
  {
  }

  lemma ClaimInStage(cfg: Settings, interval: int, l: Loop, a: Action)
    requires InStage(cfg, interval, l) && l.since <= l.start <= l.s.clock && Flow(cfg, l, Own(a)) && a.Claim?
    ensures InStage(cfg, interval, Step(cfg, interval, l, Own(a)))
  {
    assert l.stage == Claiming && l.s.clock <= l.start + 2 * cfg.overhead;
    OwnClaimShape(cfg, interval, l, a);
    ClaimFormsBatch(cfg, l.s, a);
  }

  lemma OwnOk(cfg: Settings, interval: int, faults: nat, l: Loop, a: Action)
    requires LoopOk(cfg, interval, faults, l) && Flow(cfg, l, Own(a))
    ensures LoopOk(cfg, interval, faults, Step(cfg, interval, l, Own(a)))
  {
    TimelyStep(cfg, l.s, a);
    ClockMovesOn(cfg, l.s, a);
    OwnOwed(cfg, interval, l, a);
    if a.Reap? { ReapInStage(cfg, interval, l, a); } else { ClaimInStage(cfg, interval, l, a); }
  }

  /** Steps of others keep the gathered batch, and time passes only while one of its tasks is active. */
  lemma OtherInStage(cfg: Settings, interval: int, l: Loop, a: Action)
    requires AllTimely(cfg, l.s) && InStage(cfg, interval, l) && l.start <= l.s.clock && Enabled(cfg, l.s, a)
    requires a.Wait? ==> InTime(cfg, l, a.until)
    ensures InStage(cfg, interval, Step(cfg, interval, l, Other(a)))
  {
    ClockMovesOn(cfg, l.s, a);
    if l.stage.Gathering? {
      var t := Apply(cfg, l.s, a);
      BatchStays(cfg, l.s, a, l.stage.b);
      if a.Wait? {
        var i :| Slot(l.s, l.stage.b, i);
        TimelyStep(cfg, l.s, a);
        assert Slot(t, l.stage.b, i) && Timely(cfg, t.clock, t.batches[l.stage.b]);
        ActiveInSpan(cfg, t.clock, t.batches[l.stage.b], i);
      }
    }
  }

  lemma BatchStays(cfg: Settings, s: State, a: Action, b: nat)
    requires Enabled(cfg, s, a) && b < |s.batches|
    ensures var t := Apply(cfg, s, a);
      && b < |t.batches| && t.batches[b].formedAt == s.batches[b].formedAt
      && (a.Wait? ==> t.batches == s.batches)
  {
    if Executes(a) { ExecutorFrame(cfg, s, a); } else if !a.Claim? { BatchesFrame(cfg, s, a); }
  }

  lemma OtherOk(cfg: Settings, interval: int, faults: nat, l: Loop, a: Action)
    requires LoopOk(cfg, interval, faults, l) && Flow(cfg, l, Other(a)) && Prompt(cfg, faults)(l, Other(a))
    ensures LoopOk(cfg, interval, faults, Step(cfg, interval, l, Other(a)))
  {
    TimelyStep(cfg, l.s, a);
    ClockMovesOn(cfg, l.s, a);
    OtherInStage(cfg, interval, l, a);
  }

  lemma LoopStep(cfg: Settings, interval: int, faults: nat, l: Loop, m: Beat)
    requires LoopOk(cfg, interval, faults, l) && Flow(cfg, l, m) && Prompt(cfg, faults)(l, m)
    ensures LoopOk(cfg, interval, faults, Step(cfg, interval, l, m))
  {
    match m
    case Begin => BeginOk(cfg, interval, faults, l);
    case Own(a) => OwnOk(cfg, interval, faults, l, a);
    case Other(a) => OtherOk(cfg, interval, faults, l, a);
    case Join => JoinOk(cfg, interval, faults, l);
    case Fail => FailOk(cfg, interval, faults, l);
  }

  /* A loop in time is a paced run */

  /** The steps of the protocol: the loop's own are the polls. */
  function Moves(ms: seq<Beat>): seq<P.Move> {
    if ms == [] then [] else
    (match ms[0]
     case Own(a) => [P.Poll(a)]
     case Other(a) => [P.Do(a)]
     case _ => [])
    + Moves(ms[1..])
  }

  ghost predicate Follows(cfg: Settings, period: nat, l: Loop, p: P.Paced) {
    && p.s == l.s && p.owed == l.owed && P.OnTime(cfg, period, p)
    && p.reapBy >= l.since + period && p.claimBy >= l.since + period
    && (l.stage.Claiming? ==> p.reapBy >= l.start + period)
  }

  /** The paced state a loop stands for. */
  function PacedOf(cfg: Settings, interval: int, faults: nat, l: Loop): P.Paced {
    var period := Period(cfg, interval, faults);
    P.Paced(l.s, (if l.stage.Claiming? then l.start else l.since) + period, l.since + period, l.owed)
  }

  lemma PacedOfFollows(cfg: Settings, interval: int, faults: nat, l: Loop)
    requires LoopOk(cfg, interval, faults, l)
    ensures Follows(cfg, Period(cfg, interval, faults), l, PacedOf(cfg, interval, faults, l))
  {
    LoopInPeriod(cfg, interval, faults, l);
  }

  lemma OwnFollows(cfg: Settings, interval: int, faults: nat, l: Loop, p: P.Paced, a: Action)
    requires LoopOk(cfg, interval, faults, l) && Flow(cfg, l, Own(a)) && Follows(cfg, Period(cfg, interval, faults), l, p)
    ensures P.May(cfg, p, P.Poll(a))
    ensures var period := Period(cfg, interval, faults);
      Follows(cfg, period, Step(cfg, interval, l, Own(a)), P.Step(cfg, period, p, P.Poll(a)))
  {
    P.OnTimeStep(cfg, Period(cfg, interval, faults), p, P.Poll(a));
  }

  lemma OtherFollows(cfg: Settings, interval: int, faults: nat, l: Loop, p: P.Paced, a: Action)
    requires LoopOk(cfg, interval, faults, l) && Flow(cfg, l, Other(a)) && Prompt(cfg, faults)(l, Other(a))
    requires Follows(cfg, Period(cfg, interval, faults), l, p)
    ensures P.May(cfg, p, P.Do(a))
    ensures var period := Period(cfg, interval, faults);
      Follows(cfg, period, Step(cfg, interval, l, Other(a)), P.Step(cfg, period, p, P.Do(a)))
  {
    OtherOk(cfg, interval, faults, l, a);
    LoopInPeriod(cfg, interval, faults, Step(cfg, interval, l, Other(a)));
    ClockMovesOn(cfg, l.s, a);
    P.OnTimeStep(cfg, Period(cfg, interval, faults), p, P.Do(a));
  }

  /** One beat, seen as no move or one. */
  lemma BeatFollows(cfg: Settings, interval: int, faults: nat, l: Loop, p: P.Paced, m: Beat)
    requires LoopOk(cfg, interval, faults, l) && Flow(cfg, l, m) && Prompt(cfg, faults)(l, m)
    requires Follows(cfg, Period(cfg, interval, faults), l, p)
    ensures var period := Period(cfg, interval, faults); var k := Step(cfg, interval, l, m);
      match m
      case Own(a) => P.May(cfg, p, P.Poll(a)) && Follows(cfg, period, k, P.Step(cfg, period, p, P.Poll(a)))
      case Other(a) => P.May(cfg, p, P.Do(a)) && Follows(cfg, period, k, P.Step(cfg, period, p, P.Do(a)))
      case _ => Follows(cfg, period, k, p)
  {
    match m
    case Own(a) => OwnFollows(cfg, interval, faults, l, p, a);
    case Other(a) => OtherFollows(cfg, interval, faults, l, p, a);
    case _ =>
  }

  /** A run of the loop, in which at most `faults` ticks in a row fail, is a run paced by a period made
      of the settings. */
  lemma {:induction false} LoopIsPaced(cfg: Settings, interval: int, faults: nat, l: Loop, ms: seq<Beat>, p: P.Paced)
    requires LoopOk(cfg, interval, faults, l) && Follows(cfg, Period(cfg, interval, faults), l, p)
    requires LegalLoop(cfg, interval, l, ms) && ThroughoutLoop(cfg, interval, l, ms, Prompt(cfg, faults))
    ensures var period := Period(cfg, interval, faults);
      && P.LegalPaced(cfg, period, p, Moves(ms))
      && P.AfterPaced(cfg, period, p, Moves(ms)).s == AfterLoop(cfg, interval, l, ms).s
    ensures LoopOk(cfg, interval, faults, AfterLoop(cfg, interval, l, ms))
    decreases |ms|
  {
    if ms != [] {
      var k, m := Step(cfg, interval, l, ms[0]), ms[0];
      LoopStep(cfg, interval, faults, l, m);
      BeatFollows(cfg, interval, faults, l, p, m);
      var q := if m.Own? then P.Step(cfg, Period(cfg, interval, faults), p, P.Poll(m.a))
               else if m.Other? then P.Step(cfg, Period(cfg, interval, faults), p, P.Do(m.a))
               else p;
      LoopIsPaced(cfg, interval, faults, k, ms[1..], q);
      MovesUnfold(cfg, interval, faults, p, ms);
    }
  }

  lemma MovesUnfold(cfg: Settings, interval: int, faults: nat, p: P.Paced, ms: seq<Beat>)
    requires ms != []
    ensures match ms[0]
            case Own(a) => Moves(ms)[0] == P.Poll(a) && Moves(ms)[1..] == Moves(ms[1..])
            case Other(a) => Moves(ms)[0] == P.Do(a) && Moves(ms)[1..] == Moves(ms[1..])
            case _ => Moves(ms) == Moves(ms[1..])
  {
  }

  /* What the settings promise */

  /** The actions of a run satisfy f. */
  ghost function Acts(f: (State, Action) -> bool): (Loop, Beat) -> bool {
    (l: Loop, m: Beat) => m.Own? || m.Other? ==> f(l.s, m.a)
  }

  lemma {:induction false} ActsPaced(cfg: Settings, interval: int, faults: nat, l: Loop, ms: seq<Beat>, p: P.Paced, f: (State, Action) -> bool)
    requires LoopOk(cfg, interval, faults, l) && Follows(cfg, Period(cfg, interval, faults), l, p)
    requires LegalLoop(cfg, interval, l, ms) && ThroughoutLoop(cfg, interval, l, ms, Prompt(cfg, faults))
    requires ThroughoutLoop(cfg, interval, l, ms, Acts(f)) && P.LegalPaced(cfg, Period(cfg, interval, faults), p, Moves(ms))
    ensures P.ThroughoutPaced(cfg, Period(cfg, interval, faults), p, Moves(ms), f)
    decreases |ms|
  {
    if ms != [] {
      var k, m := Step(cfg, interval, l, ms[0]), ms[0];
      LoopStep(cfg, interval, faults, l, m);
      BeatFollows(cfg, interval, faults, l, p, m);
      MovesUnfold(cfg, interval, faults, p, ms);
      assert Acts(f)(l, m);
      var q := if m.Own? then P.Step(cfg, Period(cfg, interval, faults), p, P.Poll(m.a))
               else if m.Other? then P.Step(cfg, Period(cfg, interval, faults), p, P.Do(m.a))
               else p;
      ActsPaced(cfg, interval, faults, k, ms[1..], q, f);
    }
  }

  /** (k / B + 1) periods and an overhead from now, for the k pending rows at or ahead of x. */
  ghost function ClaimedBy(cfg: Settings, interval: int, faults: nat, s: State, x: Id): Time
    requires cfg.Valid() && x in s.table
  {
    s.clock + P.Patience(cfg, Period(cfg, interval, faults), |Ahead(s.table, x)|) + cfg.overhead
  }

  /** Wall-clock latency of a claim, from the settings: in a run of the loop amid any other workers, in
      which at most `faults` ticks in a row fail, a due task with k pending rows at or ahead of it has
      been claimed by some worker once (k / B + 1) periods and an overhead have passed. */
  lemma LoopClaimLatency(cfg: Settings, interval: int, faults: nat, l: Loop, ms: seq<Beat>, x: Id)
    requires cfg.Valid() && Safe(cfg, l.s) && LoopOk(cfg, interval, faults, l)
    requires x in l.s.table && l.s.table[x].status == Pending && l.s.table[x].scheduledAt <= l.s.clock
    requires LegalLoop(cfg, interval, l, ms) && ThroughoutLoop(cfg, interval, l, ms, Prompt(cfg, faults))
    requires ThroughoutLoop(cfg, interval, l, ms, Acts(Orderly(x, l.s.table[x].scheduledAt)))
    requires AfterLoop(cfg, interval, l, ms).s.clock > ClaimedBy(cfg, interval, faults, l.s, x)
    ensures exists i :: 0 <= i < |Moves(ms)| && Moves(ms)[i].a.Claim? && x in Moves(ms)[i].a.ids
  {
    var p := PacedOf(cfg, interval, faults, l);
    PacedOfFollows(cfg, interval, faults, l);
    LoopIsPaced(cfg, interval, faults, l, ms, p);
    ActsPaced(cfg, interval, faults, l, ms, p, Orderly(x, l.s.table[x].scheduledAt));
    P.ClaimLatency(cfg, Period(cfg, interval, faults), p, Moves(ms), x);
  }

  /** Without overhead and failed ticks the bound is (k / B + 1) * max(interval, longest tick). */
  lemma LatencyIs(cfg: Settings, interval: int, k: nat)
    requires cfg.Valid() && cfg.overhead == 0
    ensures P.Patience(cfg, Period(cfg, interval, 0), k) == (k / cfg.batchSize + 1) * Pause(cfg, interval)
  {
    PeriodIs(cfg, interval, 0);
  }

  ghost predicate NoCreateNoPatch(s: State, a: Action) { D.WorkerOrDelete(a) }

  lemma {:induction false} MovesAreWorkers(cfg: Settings, interval: int, l: Loop, ms: seq<Beat>)
    requires LegalLoop(cfg, interval, l, ms) && ThroughoutLoop(cfg, interval, l, ms, Acts(NoCreateNoPatch))
    ensures D.WorkersOnly(Moves(ms))
    decreases |ms|
  {
    if ms != [] {
      assert Acts(NoCreateNoPatch)(l, ms[0]);
      MovesAreWorkers(cfg, interval, Step(cfg, interval, l, ms[0]), ms[1..]);
    }
  }

  /** Where a drain may begin: nothing `failed`, and t0 no earlier than now, than any task's scheduled
      time and than the last change of any row. */
  ghost predicate LoopDrainsFrom(cfg: Settings, interval: int, faults: nat, l: Loop, t0: Time) {
    && Safe(cfg, l.s) && LoopOk(cfg, interval, faults, l) && l.s.clock <= t0
    && forall x :: x in l.s.table ==>
         l.s.table[x].status != Failed && l.s.table[x].updatedAt <= t0 && l.s.table[x].scheduledAt <= t0
  }

  ghost function LoopDrainedBy(cfg: Settings, interval: int, faults: nat, s: State, t0: Time): Time {
    D.DrainedBy(cfg, Period(cfg, interval, faults), s, t0)
  }

  /** No job is silently lost, from the settings: in a run of the loop without creates and PATCHes, with
      crashes, lost executors, deletes and other workers, and at most `faults` failed ticks in a row,
      every row that is not deleted is succeeded or dead once the clock is past
      t0 + (work left) * (period + overhead + max(longest backoff, stale timeout)). */
  lemma LoopEndsEveryTask(cfg: Settings, interval: int, faults: nat, l: Loop, ms: seq<Beat>, t0: Time)
    requires cfg.Valid() && LoopDrainsFrom(cfg, interval, faults, l, t0)
    requires LegalLoop(cfg, interval, l, ms) && ThroughoutLoop(cfg, interval, l, ms, Prompt(cfg, faults))
    requires ThroughoutLoop(cfg, interval, l, ms, Acts(NoCreateNoPatch))
    requires AfterLoop(cfg, interval, l, ms).s.clock > LoopDrainedBy(cfg, interval, faults, l.s, t0)
    ensures var t := AfterLoop(cfg, interval, l, ms).s.table;
      forall x :: x in t ==> t[x].status == Succeeded || t[x].status == Dead
  {
    var p := PacedOf(cfg, interval, faults, l);
    PacedOfFollows(cfg, interval, faults, l);
    LoopIsPaced(cfg, interval, faults, l, ms, p);
    MovesAreWorkers(cfg, interval, l, ms);
    D.EveryTaskEnds(cfg, Period(cfg, interval, faults), p, Moves(ms), t0);
  }

  /** The period in the settings' own terms, with C = max(1, concurrency): with L the longest tick, two
      overheads and ceil(B / C) executions, it is (f + 1) * max(interval, L) and two overheads. */
  lemma PeriodInSettings(cfg: Settings, interval: int, faults: nat)
    requires cfg.Valid()
    ensures var c := if cfg.concurrency < 1 then 1 else cfg.concurrency;
      var longest := 2 * cfg.overhead + ((cfg.batchSize + c - 1) / c) * cfg.executionTimeout;
      Period(cfg, interval, faults) == (faults + 1) * (if interval < longest then longest else interval) + 2 * cfg.overhead
  {
    PeriodIs(cfg, interval, faults);
  }

  /** The claim's bound in the settings' terms. */
  lemma ClaimedByInSettings(cfg: Settings, interval: int, faults: nat, s: State, x: Id)
    requires cfg.Valid() && x in s.table
    ensures ClaimedBy(cfg, interval, faults, s, x)
            == s.clock + (|Ahead(s.table, x)| / cfg.batchSize + 1) * Period(cfg, interval, faults) + cfg.overhead
  {
  }

  /** A window of the drain in the settings' terms. */
  lemma WindowInSettings(cfg: Settings, interval: int, faults: nat)
    ensures var longest := if cfg.maxRetries == 0 then 0 else cfg.backoffBase * Pow2(cfg.maxRetries - 1);
      D.Window(cfg, Period(cfg, interval, faults))
      == Period(cfg, interval, faults) + cfg.overhead + if longest < cfg.staleTimeout then cfg.staleTimeout else longest
  {
    LongestBackoffIs(cfg);
  }

  /** The drain's bound counted in windows. */
  lemma DrainedByInWindows(cfg: Settings, interval: int, faults: nat, s: State, t0: Time)
    requires cfg.Valid()
    ensures var window := D.Window(cfg, Period(cfg, interval, faults));
      && LoopDrainedBy(cfg, interval, faults, s, t0) == t0 + D.Windows(WorkLeft(cfg, s), window)
      && LoopDrainedBy(cfg, interval, faults, s, t0) <= t0 + D.Windows(Allowance(cfg, |s.table|), window)
  {
    WorkAtMost(cfg, s.table);
    D.WindowsMonotone(WorkLeft(cfg, s), Allowance(cfg, |s.table|), D.Window(cfg, Period(cfg, interval, faults)));
  }

  /** The drain's bound in the settings' terms: every task has ended 2M + 2 windows for each row of the
      table after t0, a window being a period, an overhead and max(base * 2^(M - 1), R). */
  lemma DrainedByInSettings(cfg: Settings, interval: int, faults: nat, s: State, t0: Time)
    requires cfg.Valid()
    ensures var longest := if cfg.maxRetries == 0 then 0 else cfg.backoffBase * Pow2(cfg.maxRetries - 1);
      var window := Period(cfg, interval, faults) + cfg.overhead + if longest < cfg.staleTimeout then cfg.staleTimeout else longest;
      && LoopDrainedBy(cfg, interval, faults, s, t0) == t0 + WorkLeft(cfg, s) * window
      && LoopDrainedBy(cfg, interval, faults, s, t0) <= t0 + ((2 * cfg.maxRetries + 2) * |s.table|) * window
  {
    WindowInSettings(cfg, interval, faults);
    DrainedByInWindows(cfg, interval, faults, s, t0);
  }

  /* The ticks are run_loop's */

  /** The loop as it starts: a tick is due. */
  function StartLoop(s: State): Loop {
    Loop(s, Asleep, s.clock, s.clock, s.clock, 0, s.clock, [], map[])
  }

  lemma StartOk(cfg: Settings, interval: int, faults: nat, s: State)
    requires AllTimely(cfg, s)
    ensures LoopOk(cfg, interval, faults, StartLoop(s))
  {
  }

  /** The next tick is due when run_loop starts it after these ticks; none was longer than TickTime. */
  ghost predicate Cadence(cfg: Settings, interval: int, begin: Time, l: Loop) {
    && (if l.stage.Asleep? then l.next else l.start) == R.StartOf(begin, interval, l.ticks, |l.ticks|)
    && (forall k :: 0 <= k < |l.ticks| ==> l.ticks[k].duration <= TickTime(cfg))
  }

  lemma {:induction false} StartOfPrefix(begin: Time, interval: int, ticks: seq<R.Tick>, more: seq<R.Tick>, k: nat)
    requires k <= |ticks|
    ensures R.StartOf(begin, interval, ticks + more, k) == R.StartOf(begin, interval, ticks, k)
    decreases k
  {
    if k > 0 { StartOfPrefix(begin, interval, ticks, more, k - 1); }
  }

  lemma StartAfter(begin: Time, interval: int, ticks: seq<R.Tick>, tick: R.Tick)
    ensures R.StartOf(begin, interval, ticks + [tick], |ticks| + 1)
            == R.FollowingStart(R.StartOf(begin, interval, ticks, |ticks|), interval, tick)
  {
    StartOfPrefix(begin, interval, ticks, [tick], |ticks|);
    assert (ticks + [tick])[|ticks|] == tick;
  }

  lemma SleepShape(interval: int, l: Loop, fails: bool)
    requires l.start <= l.s.clock
    ensures var tick := R.Tick(l.s.clock - l.start, fails); var k := Sleep(interval, l, fails);
      k.stage == Asleep && k.ticks == l.ticks + [tick] && k.next == R.FollowingStart(l.start, interval, tick)
  {
  }

  lemma TickInTime(cfg: Settings, interval: int, faults: nat, l: Loop)
    requires LoopOk(cfg, interval, faults, l) && !l.stage.Asleep?
    ensures l.s.clock - l.start <= TickTime(cfg)
  {
  }

  lemma CadenceSleep(cfg: Settings, interval: int, faults: nat, begin: Time, l: Loop, m: Beat)
    requires LoopOk(cfg, interval, faults, l) && Cadence(cfg, interval, begin, l) && Flow(cfg, l, m) && (m.Join? || m.Fail?)
    ensures Cadence(cfg, interval, begin, Step(cfg, interval, l, m))
  {
    TickInTime(cfg, interval, faults, l);
    StartAfter(begin, interval, l.ticks, R.Tick(l.s.clock - l.start, m.Fail?));
    SleepShape(interval, l, m.Fail?);
  }

  /** The end of a tick records how long it took and whether it failed, and sets the next one to an
      interval after its start, or to now if that is past. */
  lemma TickRecorded(cfg: Settings, interval: int, l: Loop, m: Beat)
    requires Flow(cfg, l, m) && (m.Join? || m.Fail?) && l.start <= l.s.clock
    ensures var k := Step(cfg, interval, l, m);
      && k.s == l.s && k.stage == Asleep && k.ticks == l.ticks + [R.Tick(l.s.clock - l.start, m.Fail?)]
      && k.next == if l.start + interval < l.s.clock then l.s.clock else l.start + interval
  {
  }

  lemma CadenceStep(cfg: Settings, interval: int, faults: nat, begin: Time, l: Loop, m: Beat)
    requires LoopOk(cfg, interval, faults, l) && Cadence(cfg, interval, begin, l)
    requires Flow(cfg, l, m) && Prompt(cfg, faults)(l, m)
    ensures Cadence(cfg, interval, begin, Step(cfg, interval, l, m))
  {
    match m
    case Begin => BeginOk(cfg, interval, faults, l);
    case Join => CadenceSleep(cfg, interval, faults, begin, l, m);
    case Fail => CadenceSleep(cfg, interval, faults, begin, l, m);
    case _ =>
  }

  lemma {:induction false} CadenceRun(cfg: Settings, interval: int, faults: nat, begin: Time, l: Loop, ms: seq<Beat>)
    requires LoopOk(cfg, interval, faults, l) && Cadence(cfg, interval, begin, l)
    requires LegalLoop(cfg, interval, l, ms) && ThroughoutLoop(cfg, interval, l, ms, Prompt(cfg, faults))
    ensures Cadence(cfg, interval, begin, AfterLoop(cfg, interval, l, ms))
    decreases |ms|
  {
    if ms != [] {
      LoopStep(cfg, interval, faults, l, ms[0]);
      CadenceStep(cfg, interval, faults, begin, l, ms[0]);
      CadenceRun(cfg, interval, faults, begin, Step(cfg, interval, l, ms[0]), ms[1..]);
    }
  }

  /** The ticks of the loop in the protocol start when run_loop starts ticks of those durations, and
      none is longer than two overheads and ceil(B / C) executions. */
  lemma TicksAreRunLoops(cfg: Settings, interval: int, faults: nat, s: State, ms: seq<Beat>)
    requires AllTimely(cfg, s)
    requires LegalLoop(cfg, interval, StartLoop(s), ms) && ThroughoutLoop(cfg, interval, StartLoop(s), ms, Prompt(cfg, faults))
    ensures var l := AfterLoop(cfg, interval, StartLoop(s), ms);
      && (if l.stage.Asleep? then l.next else l.start) == R.StartOf(s.clock, interval, l.ticks, |l.ticks|)
      && (forall k :: 0 <= k < |l.ticks| ==> l.ticks[k].duration <= TickTime(cfg))
  {
    StartOk(cfg, interval, faults, s);
    CadenceRun(cfg, interval, faults, s.clock, StartLoop(s), ms);
  }
}
