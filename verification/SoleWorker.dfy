/** One polling loop on its own: its ticks run one after another, so its reaper never meets a
    task of an earlier tick, whatever the timeouts. */
module SoleWorker {
  import opened Tasks
  import opened Protocol
  import opened Ownership
  import opened Polling

  /** No exception escapes a task: it is not lost and its row is there when it records. */
  ghost predicate NoEscape(s: State, a: Action) {
    && !a.Lose?
    && (a.Finish? ==> a.b < |s.batches| && a.i < |s.batches[a.b].ids| && s.batches[a.b].ids[a.i] in s.table)
  }

  /** Nobody else claims or reaps, and the gather returns when its tasks are done. Nothing is assumed
      about how long anything takes. */
  ghost predicate Alone(l: Loop, m: Beat) {
    && (m.Other? ==> SparesRunning(l.s, m.a) && NoEscape(l.s, m.a) && !m.a.Claim? && !m.a.Reap?)
    && (m.Join? && l.stage.Gathering? ==> forall i :: !Slot(l.s, l.stage.b, i))
  }

  ghost predicate Quiet(s: State) { forall b, i :: !Slot(s, b, i) }

  /** Only the batch being gathered has queued or running tasks. */
  ghost predicate Sequential(l: Loop) {
    forall b, i :: Slot(l.s, b, i) ==> l.stage == Gathering(b)
  }

  lemma QuietReap(s: State, a: Action)
    requires Quiet(s)
    ensures SparesHeld(s, a)
  {
  }

  lemma SequentialStep(cfg: Settings, interval: int, l: Loop, m: Beat)
    requires Sequential(l) && Owned(l.s) && Flow(cfg, l, m) && Alone(l, m)
    ensures Sequential(Step(cfg, interval, l, m)) && Owned(Step(cfg, interval, l, m).s)
  {
    if m.Own? || m.Other? {
      if m.Own? {
        assert Quiet(l.s);
        QuietReap(l.s, m.a);
      }
      OwnedStep(cfg, l.s, m.a);
      SlotsFromClaims(cfg, l.s, m.a);
    }
  }

  lemma {:induction false} SequentialRun(cfg: Settings, interval: int, l: Loop, ms: seq<Beat>)
    requires Sequential(l) && Owned(l.s)
    requires LegalLoop(cfg, interval, l, ms) && ThroughoutLoop(cfg, interval, l, ms, Alone)
    ensures Sequential(AfterLoop(cfg, interval, l, ms)) && Owned(AfterLoop(cfg, interval, l, ms).s)
    decreases |ms|
  {
    if ms != [] {
      SequentialStep(cfg, interval, l, ms[0]);
      SequentialRun(cfg, interval, Step(cfg, interval, l, ms[0]), ms[1..]);
    }
  }

  /** With one loop and no escaping exception, wherever the loop may reap nothing is executing or
      queued, and executors own their rows, for every choice of the timeouts. */
  lemma ReaperMeetsNoExecutor(cfg: Settings, interval: int, s: State, ms: seq<Beat>)
    requires Init(s) && LegalLoop(cfg, interval, StartLoop(s), ms) && ThroughoutLoop(cfg, interval, StartLoop(s), ms, Alone)
    ensures var l := AfterLoop(cfg, interval, StartLoop(s), ms);
      (!l.stage.Gathering? ==> Quiet(l.s)) && OneExecutorPerRow(l.s) && Intact(l.s)
  {
    SequentialRun(cfg, interval, StartLoop(s), ms);
    OwnedIsExclusive(AfterLoop(cfg, interval, StartLoop(s), ms).s);
  }
}
