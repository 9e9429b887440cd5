/** The worker writes running -> pending and running -> dead in one go; with `failed` put back in
    between, every status history is one the state machine accepts. */
module Refinement {
  import opened Tasks
  import opened StateMachine
  import opened Protocol
  import opened Ownership

  /** The states passed through unseen on the way from one stored status to the next. */
  function Hidden(from: Status, to: Status): seq<Status> {
    if from == Running && (to == Pending || to == Dead) then [Failed] else []
  }

  lemma AcceptsOne(from: Status, to: Status)
    ensures Accepts([from] + Hidden(from, to) + [to])
            <==> from == to || CanTransition(from, to) || (from == Running && to in {Pending, Dead})
  {
    var h := [from] + Hidden(from, to) + [to];
    if Hidden(from, to) == [] {
      assert Accepts(h) ==> h[1] == h[0] || CanTransition(h[0], h[1]);
    } else {
      assert CanTransition(Running, Failed) && CanTransition(Failed, Pending) && CanTransition(Failed, Dead);
    }
  }

  /** What steps other than recordings do to a status is allowed. */
  lemma OthersAllowed(cfg: Settings, s: State, a: Action, x: Id)
    requires Enabled(cfg, s, a) && !a.Finish? && x in s.table && x in Apply(cfg, s, a).table
    ensures var from, to := s.table[x].status, Apply(cfg, s, a).table[x].status;
      && (from == to || CanTransition(from, to) || (a.Reap? && from == Running && to in {Pending, Dead}))
      && (Terminal(from) ==> to == from)
  {
    if a.Dispatch? || a.Lose? || a.Crash? { ExecutorWritesNothing(cfg, s, a); }
    assert CanTransition(Pending, Running);
  }

  /** What a step of the table does to the status of x: nothing, one edge, or two through failed;
      two edges only when a failure is charged by an executor or the reaper. */
  lemma StepFollowsMachine(cfg: Settings, s: State, a: Action, x: Id)
    requires Owned(s) && Enabled(cfg, s, a) && SparesRunning(s, a)
    requires x in s.table && x in Apply(cfg, s, a).table
    ensures var from, to := s.table[x].status, Apply(cfg, s, a).table[x].status;
      && Accepts([from] + Hidden(from, to) + [to])
      && (Hidden(from, to) != [] ==> a.Reap? || (a.Finish? && a.outcome.Failure?))
  {
    AcceptsOne(s.table[x].status, Apply(cfg, s, a).table[x].status);
    if a.Finish? {
      OutcomeIsNotStale(cfg, s, a);
      assert CanTransition(Running, Succeeded);
    } else {
      OthersAllowed(cfg, s, a, x);
    }
  }

  /** A row that is succeeded or dead is never written again. */
  lemma TerminalRowKept(cfg: Settings, s: State, a: Action, x: Id)
    requires Owned(s) && Enabled(cfg, s, a) && x in s.table && Terminal(s.table[x].status)
    ensures var t := Apply(cfg, s, a); if x in t.table then t.table[x] == s.table[x] else a == Delete(x)
  {
    if a.Finish? {
      OutcomeIsNotStale(cfg, s, a);
    }
  }

  /** All statuses x is seen with along a run, with the hidden ones put back. */
  ghost function History(cfg: Settings, s: State, acts: seq<Action>, x: Id): seq<Status>
    requires Legal(cfg, s, acts)
    decreases |acts|
  {
    var here := if x in s.table then [s.table[x].status] else [];
    if acts == [] then here else
    var t := Apply(cfg, s, acts[0]);
    here
    + (if x in s.table && x in t.table then Hidden(s.table[x].status, t.table[x].status) else [])
    + History(cfg, t, acts[1..], x)
  }

  ghost predicate Apart(s: State) { s.table.Keys !! s.gone.Keys }

  lemma ApartStep(cfg: Settings, s: State, a: Action)
    requires Apart(s) && Enabled(cfg, s, a)
    ensures Apart(Apply(cfg, s, a)) && s.gone.Keys <= Apply(cfg, s, a).gone.Keys
    ensures forall x :: x in s.table && x !in Apply(cfg, s, a).table ==> x in Apply(cfg, s, a).gone
  {
    if a.Dispatch? || a.Lose? || a.Crash? {
      ExecutorWritesNothing(cfg, s, a);
    } else if a.Finish? {
      FinishFrame(cfg, s, a);
    }
  }

  lemma {:induction false} GoneHasNoHistory(cfg: Settings, s: State, acts: seq<Action>, x: Id)
    requires Apart(s) && x in s.gone && Legal(cfg, s, acts)
    ensures History(cfg, s, acts, x) == []
    decreases |acts|
  {
    if acts != [] {
      ApartStep(cfg, s, acts[0]);
      GoneHasNoHistory(cfg, Apply(cfg, s, acts[0]), acts[1..], x);
    }
  }

  lemma AcceptsPrepend(from: Status, to: Status, rest: seq<Status>)
    requires Accepts([from] + Hidden(from, to) + [to]) && Accepts(rest) && rest != [] && rest[0] == to
    ensures Accepts([from] + Hidden(from, to) + rest)
  {
    var h, k := [from] + Hidden(from, to) + [to], [from] + Hidden(from, to) + rest;
    var n := |h| - 1;
    forall i | 0 < i < |k| ensures k[i] == k[i - 1] || CanTransition(k[i - 1], k[i]) {
      if i <= n {
        assert k[i] == h[i] && k[i - 1] == h[i - 1];
      } else {
        assert k[i] == rest[i - n] && k[i - 1] == rest[i - 1 - n];
      }
    }
  }

  lemma {:induction false} HistoryStart(cfg: Settings, s: State, acts: seq<Action>, x: Id)
    requires Legal(cfg, s, acts) && x in s.table
    ensures |History(cfg, s, acts, x)| > 0 && History(cfg, s, acts, x)[0] == s.table[x].status
  {
  }

  lemma {:induction false} HistoryAccepted(cfg: Settings, s: State, acts: seq<Action>, x: Id)
    requires Safe(cfg, s) && Apart(s)
    requires Legal(cfg, s, acts) && Throughout(cfg, s, acts, SparesRunning)
    ensures Accepts(History(cfg, s, acts, x))
    decreases |acts|
  {
    if acts != [] {
      var a, t := acts[0], Apply(cfg, s, acts[0]);
      SafeStep(cfg, s, a);
      ApartStep(cfg, s, a);
      HistoryAccepted(cfg, t, acts[1..], x);
      var rest := History(cfg, t, acts[1..], x);
      if x in s.table && x in t.table {
        StepFollowsMachine(cfg, s, a, x);
        HistoryStart(cfg, t, acts[1..], x);
        AcceptsPrepend(s.table[x].status, t.table[x].status, rest);
      } else if x in s.table {
        GoneHasNoHistory(cfg, t, acts[1..], x);
      }
    }
  }

  /** Every task's full status history, over every run that spares running rows from PATCH,
      refines the state machine; once it shows a terminal status it shows nothing else. */
  lemma HistoriesRefineMachine(cfg: Settings, s: State, acts: seq<Action>, x: Id)
    requires cfg.Exclusive() && Init(s) && Legal(cfg, s, acts) && Throughout(cfg, s, acts, SparesRunning)
    ensures var h := History(cfg, s, acts, x);
      Accepts(h) && forall i, j :: 0 <= i <= j < |h| && Terminal(h[i]) ==> h[j] == h[i]
  {
    HistoryAccepted(cfg, s, acts, x);
    var h := History(cfg, s, acts, x);
    forall i, j | 0 <= i <= j < |h| && Terminal(h[i]) ensures h[j] == h[i] {
      TerminalIsFinal(h, i, j);
    }
  }

  /** A succeeded or dead row keeps every column until it is deleted. */
  lemma {:induction false} TerminalForever(cfg: Settings, s: State, acts: seq<Action>, x: Id)
    requires Safe(cfg, s) && Apart(s)
    requires Legal(cfg, s, acts) && Throughout(cfg, s, acts, SparesRunning)
    requires x in s.table && Terminal(s.table[x].status)
    ensures var t := After(cfg, s, acts); if x in t.table then t.table[x] == s.table[x] else x in t.gone
    decreases |acts|
  {
    if acts != [] {
      var a, t := acts[0], Apply(cfg, s, acts[0]);
      SafeStep(cfg, s, a);
      ApartStep(cfg, s, a);
      TerminalRowKept(cfg, s, a, x);
      if x in t.table {
        TerminalForever(cfg, t, acts[1..], x);
      } else {
        GoneStays(cfg, t, acts[1..], x);
      }
    }
  }

  lemma {:induction false} GoneStays(cfg: Settings, s: State, acts: seq<Action>, x: Id)
    requires Apart(s) && x in s.gone && Legal(cfg, s, acts)
    ensures x in After(cfg, s, acts).gone && x !in After(cfg, s, acts).table
    decreases |acts|
  {
    if acts != [] {
      ApartStep(cfg, s, acts[0]);
      GoneStays(cfg, Apply(cfg, s, acts[0]), acts[1..], x);
    }
  }
}
