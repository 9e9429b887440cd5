/** The polling loop never comes to a halt: from every state in time it goes on to any instant. */
module Heartbeat {
  import opened Tasks
  import opened Protocol
  import opened Ownership
  import opened Polling
  import G = Progress

  /** The loop and the workers alone take l to k. */
  ghost predicate Leads(cfg: Settings, interval: int, faults: nat, l: Loop, ms: seq<Beat>, k: Loop) {
    && LegalLoop(cfg, interval, l, ms) && AfterLoop(cfg, interval, l, ms) == k
    && ThroughoutLoop(cfg, interval, l, ms, Prompt(cfg, faults))
    && ThroughoutLoop(cfg, interval, l, ms, Acts(NoCreateNoPatch))
  }

  lemma LeadsNowhere(cfg: Settings, interval: int, faults: nat, l: Loop)
    ensures Leads(cfg, interval, faults, l, [], l)
  {
  }

  /** Neither a create nor a PATCH. */
  predicate Harmless(m: Beat) { m.Own? || m.Other? ==> D.WorkerOrDelete(m.a) }

  lemma LeadsOn(cfg: Settings, interval: int, faults: nat, l: Loop, m: Beat, ms: seq<Beat>, k: Loop) returns (all: seq<Beat>)
    requires Flow(cfg, l, m) && Prompt(cfg, faults)(l, m) && Harmless(m)
    requires Leads(cfg, interval, faults, Step(cfg, interval, l, m), ms, k)
    ensures Leads(cfg, interval, faults, l, all, k)
  {
    all := [m] + ms;
    assert all[0] == m && all[1..] == ms;
    assert m.Own? || m.Other? ==> NoCreateNoPatch(l.s, m.a);
  }

  lemma {:induction false} LeadsJoin(cfg: Settings, interval: int, faults: nat, l: Loop, ms: seq<Beat>, k: Loop, ns: seq<Beat>, j: Loop)
    returns (all: seq<Beat>)
    requires Leads(cfg, interval, faults, l, ms, k) && Leads(cfg, interval, faults, k, ns, j)
    ensures Leads(cfg, interval, faults, l, all, j)
    decreases |ms|
  {
    if ms == [] {
      all := ns;
    } else {
      assert Acts(NoCreateNoPatch)(l, ms[0]);
      all := LeadsJoin(cfg, interval, faults, Step(cfg, interval, l, ms[0]), ms[1..], k, ns, j);
      all := LeadsOn(cfg, interval, faults, l, ms[0], all, j);
    }
  }

  /** One beat that is in time. */
  lemma BeatOn(cfg: Settings, interval: int, faults: nat, l: Loop, m: Beat) returns (ms: seq<Beat>, k: Loop)
    requires LoopOk(cfg, interval, faults, l)
    requires Flow(cfg, l, m) && Prompt(cfg, faults)(l, m) && Harmless(m)
    ensures k == Step(cfg, interval, l, m) && Leads(cfg, interval, faults, l, ms, k) && LoopOk(cfg, interval, faults, k)
  {
    k := Step(cfg, interval, l, m);
    LoopStep(cfg, interval, faults, l, m);
    LeadsNowhere(cfg, interval, faults, k);
    ms := LeadsOn(cfg, interval, faults, l, m, [], k);
  }

  /** What others do at one instant, they can do amid the loop. */
  lemma {:induction false} Lift(cfg: Settings, interval: int, faults: nat, l: Loop, period: nat, p: P.Paced, acts: seq<P.Move>)
    returns (ms: seq<Beat>, k: Loop)
    requires LoopOk(cfg, interval, faults, l) && p.s == l.s && p.owed == l.owed
    requires P.LegalPaced(cfg, period, p, acts) && G.DoOnly(acts) && D.WorkersOnly(acts)
    ensures Leads(cfg, interval, faults, l, ms, k) && LoopOk(cfg, interval, faults, k)
    ensures var q := P.AfterPaced(cfg, period, p, acts); k == l.(s := q.s, owed := q.owed)
    decreases |acts|
  {
    if acts == [] {
      ms, k := [], l;
    } else {
      var a := acts[0].a;
      assert acts[0] in acts && acts[0] == P.Do(a) && forall m :: m in acts[1..] ==> m in acts;
      var first, next := BeatOn(cfg, interval, faults, l, Other(a));
      ms, k := Lift(cfg, interval, faults, next, period, P.Step(cfg, period, p, acts[0]), acts[1..]);
      ms := LeadsOn(cfg, interval, faults, l, Other(a), ms, k);
    }
  }

  /** Other workers move whatever the loop has found locked. */
  lemma Pay(cfg: Settings, interval: int, faults: nat, l: Loop) returns (ms: seq<Beat>, k: Loop)
    requires cfg.Valid() && LoopOk(cfg, interval, faults, l)
    ensures Leads(cfg, interval, faults, l, ms, k) && LoopOk(cfg, interval, faults, k)
    ensures k == l.(s := k.s, owed := map[]) && k.s.clock == l.s.clock
  {
    var period, p := Period(cfg, interval, faults), PacedOf(cfg, interval, faults, l);
    PacedOfFollows(cfg, interval, faults, l);
    var acts, q := G.PayOwed(cfg, period, p);
    ms, k := Lift(cfg, interval, faults, l, period, p, acts);
  }

  /** Executors and queues are served until they let a unit of time pass. */
  lemma Serve(cfg: Settings, interval: int, faults: nat, l: Loop) returns (ms: seq<Beat>, k: Loop)
    requires cfg.Valid() && LoopOk(cfg, interval, faults, l) && l.owed == map[]
    ensures Leads(cfg, interval, faults, l, ms, k) && LoopOk(cfg, interval, faults, k)
    ensures k == l.(s := k.s) && k.s.clock == l.s.clock
    ensures forall c :: 0 <= c < |k.s.batches| ==> MayWait(cfg, k.s.batches[c], k.s.clock + 1)
  {
    var period, p := Period(cfg, interval, faults), PacedOf(cfg, interval, faults, l);
    PacedOfFollows(cfg, interval, faults, l);
    var acts, q := G.SettleFrom(cfg, period, p, 0, l.s.clock + 1);
    ms, k := Lift(cfg, interval, faults, l, period, p, acts);
  }

  /** A reap or claim of the loop that skips nothing. */
  lemma OwnPoll(cfg: Settings, interval: int, faults: nat, l: Loop) returns (ms: seq<Beat>, k: Loop)
    requires LoopOk(cfg, interval, faults, l) && l.owed == map[] && (l.stage.Reaping? || l.stage.Claiming?)
    ensures Leads(cfg, interval, faults, l, ms, k) && LoopOk(cfg, interval, faults, k)
    ensures k.owed == map[] && k.s.clock == l.s.clock && k.start == l.start
    ensures if l.stage.Reaping? then k.stage.Claiming? else k.stage.Gathering?
  {
    var a;
    if l.stage.Reaping? { a := G.ReapNow(cfg, l.s); } else { a := G.ClaimNow(cfg, l.s); }
    ClockMovesOn(cfg, l.s, a);
    ms, k := BeatOn(cfg, interval, faults, l, Own(a));
    assert P.Skips(cfg, l.s, a) == {};
  }

  /** Bring a tick to its gather. */
  lemma ToGather(cfg: Settings, interval: int, faults: nat, l: Loop) returns (ms: seq<Beat>, k: Loop)
    requires LoopOk(cfg, interval, faults, l) && l.owed == map[] && (l.stage.Reaping? || l.stage.Claiming?)
    ensures Leads(cfg, interval, faults, l, ms, k) && LoopOk(cfg, interval, faults, k)
    ensures k.owed == map[] && k.s.clock == l.s.clock && k.start == l.start && k.stage.Gathering?
  {
    ms, k := OwnPoll(cfg, interval, faults, l);
    if l.stage.Reaping? {
      var ns, j := OwnPoll(cfg, interval, faults, k);
      ms := LeadsJoin(cfg, interval, faults, l, ms, k, ns, j);
      k := j;
    }
  }

  /** The loop waits: for its next tick, or for a task. */
  ghost predicate AtRest(cfg: Settings, l: Loop) {
    && l.owed == map[] && (forall c :: 0 <= c < |l.s.batches| ==> MayWait(cfg, l.s.batches[c], l.s.clock + 1))
    && (match l.stage
        case Asleep => l.next > l.s.clock
        case Gathering(b) => exists i :: Slot(l.s, b, i)
        case _ => false)
  }

  /** Serve the executors; if that leaves the gather with nothing, join. */
  lemma Gather(cfg: Settings, interval: int, faults: nat, l: Loop) returns (ms: seq<Beat>, k: Loop)
    requires cfg.Valid() && LoopOk(cfg, interval, faults, l) && l.owed == map[] && l.stage.Gathering?
    ensures Leads(cfg, interval, faults, l, ms, k) && LoopOk(cfg, interval, faults, k)
    ensures k.s.clock == l.s.clock && k.owed == map[]
    ensures AtRest(cfg, k) || (k.stage.Asleep? && k.next <= k.s.clock && l.start + interval <= l.s.clock)
  {
    ms, k := Serve(cfg, interval, faults, l);
    if forall i :: !Slot(k.s, k.stage.b, i) {
      var ns, j := BeatOn(cfg, interval, faults, k, Join);
      ms := LeadsJoin(cfg, interval, faults, l, ms, k, ns, j);
      k := j;
    }
  }

  /** A whole tick at the instant when it is due. */
  lemma FullTick(cfg: Settings, interval: int, faults: nat, l: Loop) returns (ms: seq<Beat>, k: Loop)
    requires cfg.Valid() && interval >= 1 && LoopOk(cfg, interval, faults, l) && l.owed == map[]
    requires l.stage.Asleep? && l.next <= l.s.clock
    ensures Leads(cfg, interval, faults, l, ms, k) && LoopOk(cfg, interval, faults, k)
    ensures AtRest(cfg, k) && k.s.clock == l.s.clock
  {
    var begun, gathering, ns;
    ms, begun := BeatOn(cfg, interval, faults, l, Begin);
    ns, gathering := ToGather(cfg, interval, faults, begun);
    ms := LeadsJoin(cfg, interval, faults, l, ms, begun, ns, gathering);
    ns, k := Gather(cfg, interval, faults, gathering);
    ms := LeadsJoin(cfg, interval, faults, l, ms, gathering, ns, k);
  }

  /** Whatever can be done now is done. */
  lemma Rest(cfg: Settings, interval: int, faults: nat, l: Loop) returns (ms: seq<Beat>, k: Loop)
    requires cfg.Valid() && interval >= 1 && LoopOk(cfg, interval, faults, l) && l.owed == map[]
    ensures Leads(cfg, interval, faults, l, ms, k) && LoopOk(cfg, interval, faults, k)
    ensures AtRest(cfg, k) && k.s.clock == l.s.clock
  {
    ms, k := [], l;
    LeadsNowhere(cfg, interval, faults, l);
    var ns, j;
    if l.stage.Reaping? || l.stage.Claiming? {
      ms, k := ToGather(cfg, interval, faults, l);
    }
    if k.stage.Gathering? {
      ns, j := Gather(cfg, interval, faults, k);
    } else {
      ns, j := Serve(cfg, interval, faults, k);
    }
    ms := LeadsJoin(cfg, interval, faults, l, ms, k, ns, j);
    k := j;
    if k.stage.Asleep? && k.next <= k.s.clock {
      ns, j := FullTick(cfg, interval, faults, k);
      ms := LeadsJoin(cfg, interval, faults, l, ms, k, ns, j);
      k := j;
    }
  }

  lemma TickOn(cfg: Settings, interval: int, faults: nat, l: Loop) returns (ms: seq<Beat>, k: Loop)
    requires cfg.Valid() && interval >= 1 && LoopOk(cfg, interval, faults, l)
    ensures Leads(cfg, interval, faults, l, ms, k) && LoopOk(cfg, interval, faults, k) && k.s.clock == l.s.clock + 1
  {
    var paid, rested, ns;
    ms, paid := Pay(cfg, interval, faults, l);
    ns, rested := Rest(cfg, interval, faults, paid);
    ms := LeadsJoin(cfg, interval, faults, l, ms, paid, ns, rested);
    ns, k := BeatOn(cfg, interval, faults, rested, Other(Wait(rested.s.clock + 1)));
    ms := LeadsJoin(cfg, interval, faults, l, ms, rested, ns, k);
  }

  /** With an interval of at least one unit, a loop in time, whatever stage it is in, can go on to any
      instant without creates and PATCHes. */
  lemma {:induction false} LoopGoesOn(cfg: Settings, interval: int, faults: nat, l: Loop, end: Time) returns (ms: seq<Beat>)
    requires cfg.Valid() && interval >= 1 && LoopOk(cfg, interval, faults, l)
    ensures LegalLoop(cfg, interval, l, ms) && AfterLoop(cfg, interval, l, ms).s.clock >= end
    ensures ThroughoutLoop(cfg, interval, l, ms, Prompt(cfg, faults))
    ensures ThroughoutLoop(cfg, interval, l, ms, Acts(NoCreateNoPatch))
    decreases end - l.s.clock
  {
    if l.s.clock >= end {
      ms := [];
    } else {
      var first, k := TickOn(cfg, interval, faults, l);
      var rest := LoopGoesOn(cfg, interval, faults, k, end);
      ms := LeadsJoin(cfg, interval, faults, l, first, k, rest, AfterLoop(cfg, interval, k, rest));
    }
  }

  /** So the loop can bring every task to its end. */
  lemma LoopCanEndEveryTask(cfg: Settings, interval: int, faults: nat, l: Loop, t0: Time) returns (ms: seq<Beat>)
    requires cfg.Valid() && interval >= 1 && LoopDrainsFrom(cfg, interval, faults, l, t0)
    ensures LegalLoop(cfg, interval, l, ms) && ThroughoutLoop(cfg, interval, l, ms, Prompt(cfg, faults))
    ensures var t := AfterLoop(cfg, interval, l, ms).s.table;
      forall x :: x in t ==> t[x].status == Succeeded || t[x].status == Dead
  {
    ms := LoopGoesOn(cfg, interval, faults, l, LoopDrainedBy(cfg, interval, faults, l.s, t0) + 1);
    LoopEndsEveryTask(cfg, interval, faults, l, ms, t0);
  }
}
