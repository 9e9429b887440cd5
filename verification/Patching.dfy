/** PATCH against the worker. A PATCH takes a row lock, but an executor's recording does not look at
    the status again: what a race does to a task's history is decided by the recording. */
module Patching {
  import opened Tasks
  import opened StateMachine
  import opened Retry
  import opened Protocol
  import opened Ownership
  import opened Refinement

  /* One recording */

  /** The status the recording of an outcome writes. */
  function Recorded(cfg: Settings, loaded: Row, outcome: Outcome): Status {
    match outcome
    case Success => Succeeded
    case Failure(_) => if loaded.retryCount < cfg.maxRetries then Pending else Dead
  }

  /** The outcomes that may be recorded over a row with status `current`: any while it is running;
      once it is succeeded only a success; once it is failed or pending only a failure; once it is
      dead only a failure with no retry left. */
  predicate MayRecord(cfg: Settings, current: Status, loaded: Row, outcome: Outcome) {
    match current
    case Running => true
    case Succeeded => outcome.Success?
    case Failed => outcome.Failure?
    case Pending => outcome.Failure?
    case Dead => outcome.Failure? && loaded.retryCount >= cfg.maxRetries
  }

  /** The state machine accepts what a recording does to the row it finds, whatever the row has become
      since it was loaded, exactly when the outcome is one that may be recorded there. */
  lemma RecordingAccepted(cfg: Settings, row: Row, loaded: Row, outcome: Outcome, now: Time)
    requires loaded.status == Running
    ensures var to := Flush(row, loaded, Edited(cfg, loaded, outcome, now), now).status;
      && to == Recorded(cfg, loaded, outcome)
      && (Accepts([row.status] + Hidden(row.status, to) + [to]) <==> MayRecord(cfg, row.status, loaded, outcome))
      && (Terminal(row.status) && MayRecord(cfg, row.status, loaded, outcome) ==> to == row.status)
  {
    var to := Recorded(cfg, loaded, outcome);
    AcceptsOne(row.status, to);
  }

  /** A PATCH of a running row does no harm exactly when the outcome recorded later agrees with it. */
  lemma PatchThenRecord(cfg: Settings, row: Row, target: Status, outcome: Outcome, at: Time, now: Time)
    requires row.status == Running && CanTransition(Running, target)
    ensures var patched := PatchedRow(row, target, at); var to := Flush(patched, row, Edited(cfg, row, outcome, now), now).status;
      Accepts([Running, target] + Hidden(target, to) + [to]) <==> (target == Succeeded <==> outcome.Success?)
  {
    var to := Recorded(cfg, row, outcome);
    RecordingAccepted(cfg, PatchedRow(row, target, at), row, outcome, now);
    assert [Running, target] + Hidden(target, to) + [to] == [Running] + ([target] + Hidden(target, to) + [to]);
    PrependAccepted(Running, [target] + Hidden(target, to) + [to]);
  }

  lemma PrependAccepted(from: Status, rest: seq<Status>)
    requires rest != []
    ensures Accepts([from] + rest) <==> (from == rest[0] || CanTransition(from, rest[0])) && Accepts(rest)
  {
    var h := [from] + rest;
    assert forall i :: 0 < i < |rest| ==> rest[i] == h[i + 1] && rest[i - 1] == h[i];
    assert h[1] == rest[0];
    if Accepts(h) {
      assert h[1] == h[0] || CanTransition(h[0], h[1]);
      forall i | 0 < i < |rest| ensures rest[i] == rest[i - 1] || CanTransition(rest[i - 1], rest[i]) {
        assert h[i + 1] == h[i] || CanTransition(h[i], h[i + 1]);
      }
    }
  }

  /* Whole runs, with any PATCHes and whatever the timeouts */

  /** Every executor has loaded a running row. */
  ghost predicate LoadedRunning(s: State) {
    forall b: nat, i: nat :: Executing(s, b, i) ==> s.batches[b].live[i].snapshot.status == Running
  }

  /** Executors only come from the guard, which passes running rows. */
  lemma ExecutorsFromGuard(cfg: Settings, s: State, a: Action, b: nat, i: nat)
    requires Enabled(cfg, s, a) && Executing(Apply(cfg, s, a), b, i)
    ensures var t := Apply(cfg, s, a);
      (Executing(s, b, i) && t.batches[b].live[i] == s.batches[b].live[i]) || t.batches[b].live[i].snapshot.status == Running
  {
    if Executes(a) {
      ExecutorFrame(cfg, s, a);
    } else if !a.Claim? {
      BatchesFrame(cfg, s, a);
    }
  }

  lemma LoadedRunningStep(cfg: Settings, s: State, a: Action)
    requires LoadedRunning(s) && Enabled(cfg, s, a)
    ensures LoadedRunning(Apply(cfg, s, a))
  {
    forall b: nat, i: nat | Executing(Apply(cfg, s, a), b, i)
      ensures Apply(cfg, s, a).batches[b].live[i].snapshot.status == Running
    {
      ExecutorsFromGuard(cfg, s, a, b, i);
    }
  }

  /** A recording that touches x finds it in a status it may write over. */
  ghost function RecordsWell(cfg: Settings, x: Id): (State, Action) -> bool {
    (s: State, a: Action) =>
      a.Finish? && Executing(s, a.b, a.i) && Holds(s, a.b, a.i) == x && x in s.table ==>
        MayRecord(cfg, s.table[x].status, s.batches[a.b].live[a.i].snapshot, a.outcome)
  }

  lemma FinishedStatus(cfg: Settings, s: State, a: Action, x: Id)
    requires LoadedRunning(s) && Enabled(cfg, s, a) && a.Finish? && x in s.table && x in Apply(cfg, s, a).table
    ensures Executing(s, a.b, a.i)
    ensures var to, loaded := Apply(cfg, s, a).table[x].status, s.batches[a.b].live[a.i].snapshot;
      if Holds(s, a.b, a.i) == x then to == Recorded(cfg, loaded, a.outcome) && loaded.status == Running else to == s.table[x].status
  {
    FinishFrame(cfg, s, a);
    assert Executing(s, a.b, a.i);
  }

  /** No step but a recording can make a change the state machine rejects. */
  lemma StepAccepted(cfg: Settings, s: State, a: Action, x: Id)
    requires LoadedRunning(s) && Enabled(cfg, s, a) && x in s.table && x in Apply(cfg, s, a).table
    ensures var from, to := s.table[x].status, Apply(cfg, s, a).table[x].status;
      Accepts([from] + Hidden(from, to) + [to]) <==> RecordsWell(cfg, x)(s, a)
  {
    AcceptsOne(s.table[x].status, Apply(cfg, s, a).table[x].status);
    if a.Finish? {
      FinishedStatus(cfg, s, a, x);
      RecordingAccepted(cfg, s.table[x], s.batches[a.b].live[a.i].snapshot, a.outcome, s.clock);
    } else {
      OthersAllowed(cfg, s, a, x);
    }
  }

  /** Joined at a shared status, two pieces of a history are accepted when both are. */
  lemma JoinAccepted(from: Status, to: Status, rest: seq<Status>)
    requires rest != [] && rest[0] == to
    ensures Accepts([from] + Hidden(from, to) + rest) <==> Accepts([from] + Hidden(from, to) + [to]) && Accepts(rest)
  {
    if Hidden(from, to) == [] {
      assert [from] + Hidden(from, to) + rest == [from] + rest && [from] + Hidden(from, to) + [to] == [from] + [to];
      PrependAccepted(from, rest);
      PrependAccepted(from, [to]);
    } else {
      assert [from] + Hidden(from, to) + rest == [from] + ([Failed] + rest);
      assert [from] + Hidden(from, to) + [to] == [from] + ([Failed] + [to]);
      PrependAccepted(from, [Failed] + rest);
      PrependAccepted(Failed, rest);
      PrependAccepted(from, [Failed] + [to]);
      PrependAccepted(Failed, [to]);
    }
  }

  /** A row that is gone takes no more recordings. */
  lemma {:induction false} GoneRecordsWell(cfg: Settings, s: State, acts: seq<Action>, x: Id)
    requires Apart(s) && x in s.gone && Legal(cfg, s, acts)
    ensures Throughout(cfg, s, acts, RecordsWell(cfg, x))
    decreases |acts|
  {
    if acts != [] {
      ApartStep(cfg, s, acts[0]);
      assert RecordsWell(cfg, x)(s, acts[0]);
      GoneRecordsWell(cfg, Apply(cfg, s, acts[0]), acts[1..], x);
    }
  }

  /** A history is what the first step shows, and the rest of it. */
  lemma HistoryUnfolds(cfg: Settings, s: State, acts: seq<Action>, x: Id)
    requires Apart(s) && acts != [] && Legal(cfg, s, acts)
    ensures var t := Apply(cfg, s, acts[0]);
      Apart(t) && History(cfg, s, acts, x) ==
        if x !in s.table then History(cfg, t, acts[1..], x)
        else if x !in t.table then [s.table[x].status]
        else [s.table[x].status] + Hidden(s.table[x].status, t.table[x].status) + History(cfg, t, acts[1..], x)
    ensures var t := Apply(cfg, s, acts[0]); x in s.table && x !in t.table ==> x in t.gone && !acts[0].Finish?
  {
    ApartStep(cfg, s, acts[0]);
    var t := Apply(cfg, s, acts[0]);
    if x in s.table && x !in t.table {
      GoneHasNoHistory(cfg, t, acts[1..], x);
      if acts[0].Finish? { FinishFrame(cfg, s, acts[0]); }
    }
  }

  lemma HistoryDecidedStep(cfg: Settings, s: State, acts: seq<Action>, x: Id)
    requires LoadedRunning(s) && Apart(s) && acts != [] && Legal(cfg, s, acts)
    requires var t := Apply(cfg, s, acts[0]);
      Accepts(History(cfg, t, acts[1..], x)) <==> Throughout(cfg, t, acts[1..], RecordsWell(cfg, x))
    ensures Accepts(History(cfg, s, acts, x)) <==> Throughout(cfg, s, acts, RecordsWell(cfg, x))
  {
    var a, t := acts[0], Apply(cfg, s, acts[0]);
    HistoryUnfolds(cfg, s, acts, x);
    if x in s.table && x in t.table {
      StepAccepted(cfg, s, a, x);
      HistoryStart(cfg, t, acts[1..], x);
      JoinAccepted(s.table[x].status, t.table[x].status, History(cfg, t, acts[1..], x));
    } else {
      assert RecordsWell(cfg, x)(s, a);
      if x in s.table { GoneRecordsWell(cfg, t, acts[1..], x); }
    }
  }

  lemma {:induction false} HistoryDecided(cfg: Settings, s: State, acts: seq<Action>, x: Id)
    requires LoadedRunning(s) && Apart(s) && Legal(cfg, s, acts)
    ensures Accepts(History(cfg, s, acts, x)) <==> Throughout(cfg, s, acts, RecordsWell(cfg, x))
    decreases |acts|
  {
    if acts != [] {
      LoadedRunningStep(cfg, s, acts[0]);
      ApartStep(cfg, s, acts[0]);
      HistoryDecided(cfg, Apply(cfg, s, acts[0]), acts[1..], x);
      HistoryDecidedStep(cfg, s, acts, x);
    }
  }

  /** For every run, with any PATCHes and any timeouts: the state machine accepts a task's history if
      and only if every outcome recorded on the task was one that may be recorded over the status
      found there. */
  lemma HistoryExactlyWhen(cfg: Settings, s: State, acts: seq<Action>, x: Id)
    requires Init(s) && Legal(cfg, s, acts)
    ensures Accepts(History(cfg, s, acts, x)) <==> Throughout(cfg, s, acts, RecordsWell(cfg, x))
  {
    HistoryDecided(cfg, s, acts, x);
  }

  /* Terminal statuses */

  /** Nothing follows a terminal status but itself. */
  ghost predicate Final(h: seq<Status>) {
    forall i, j :: 0 <= i <= j < |h| && Terminal(h[i]) ==> h[j] == h[i]
  }

  /** A recording over a succeeded or dead row repeats it. */
  ghost function RepeatsTerminal(cfg: Settings, x: Id): (State, Action) -> bool {
    (s: State, a: Action) =>
      a.Finish? && Executing(s, a.b, a.i) && Holds(s, a.b, a.i) == x && x in s.table && Terminal(s.table[x].status) ==>
        MayRecord(cfg, s.table[x].status, s.batches[a.b].live[a.i].snapshot, a.outcome)
  }

  lemma StepFinal(cfg: Settings, s: State, a: Action, x: Id)
    requires LoadedRunning(s) && Enabled(cfg, s, a) && x in s.table && x in Apply(cfg, s, a).table
    ensures var from, to := s.table[x].status, Apply(cfg, s, a).table[x].status;
      (Terminal(from) ==> to == from) <==> RepeatsTerminal(cfg, x)(s, a)
  {
    if a.Finish? {
      FinishedStatus(cfg, s, a, x);
    } else {
      OthersAllowed(cfg, s, a, x);
    }
  }

  lemma FinalTail(h: seq<Status>, n: nat)
    requires n <= |h| && Final(h)
    ensures Final(h[n..])
  {
    forall i, j | 0 <= i <= j < |h| - n && Terminal(h[n..][i]) ensures h[n..][j] == h[n..][i] {
      assert h[n + i] == h[n..][i] && h[n + j] == h[n..][j];
    }
  }

  lemma PrependFinal(from: Status, rest: seq<Status>)
    requires rest != []
    ensures Final([from] + rest) <==> (Terminal(from) ==> rest[0] == from) && Final(rest)
  {
    var h := [from] + rest;
    assert h[1..] == rest;
    if Final(h) {
      FinalTail(h, 1);
      assert Terminal(h[0]) ==> h[1] == h[0];
    } else {
      var i, j :| 0 <= i <= j < |h| && Terminal(h[i]) && h[j] != h[i];
      if i > 0 { assert rest[i - 1] == h[i] && rest[j - 1] == h[j]; } else { assert rest[j - 1] == h[j]; }
    }
  }

  lemma JoinFinal(from: Status, to: Status, rest: seq<Status>)
    requires rest != [] && rest[0] == to
    ensures Final([from] + Hidden(from, to) + rest) <==> (Terminal(from) ==> to == from) && Final(rest)
  {
    if Hidden(from, to) == [] {
      assert [from] + Hidden(from, to) + rest == [from] + rest;
      PrependFinal(from, rest);
    } else {
      assert [from] + Hidden(from, to) + rest == [from] + ([Failed] + rest);
      PrependFinal(from, [Failed] + rest);
      PrependFinal(Failed, rest);
    }
  }

  lemma {:induction false} GoneRepeats(cfg: Settings, s: State, acts: seq<Action>, x: Id)
    requires Apart(s) && x in s.gone && Legal(cfg, s, acts)
    ensures Throughout(cfg, s, acts, RepeatsTerminal(cfg, x))
    decreases |acts|
  {
    if acts != [] {
      ApartStep(cfg, s, acts[0]);
      assert RepeatsTerminal(cfg, x)(s, acts[0]);
      GoneRepeats(cfg, Apply(cfg, s, acts[0]), acts[1..], x);
    }
  }

  lemma FinalDecidedStep(cfg: Settings, s: State, acts: seq<Action>, x: Id)
    requires LoadedRunning(s) && Apart(s) && acts != [] && Legal(cfg, s, acts)
    requires var t := Apply(cfg, s, acts[0]);
      Final(History(cfg, t, acts[1..], x)) <==> Throughout(cfg, t, acts[1..], RepeatsTerminal(cfg, x))
    ensures Final(History(cfg, s, acts, x)) <==> Throughout(cfg, s, acts, RepeatsTerminal(cfg, x))
  {
    var a, t := acts[0], Apply(cfg, s, acts[0]);
    HistoryUnfolds(cfg, s, acts, x);
    if x in s.table && x in t.table {
      StepFinal(cfg, s, a, x);
      HistoryStart(cfg, t, acts[1..], x);
      JoinFinal(s.table[x].status, t.table[x].status, History(cfg, t, acts[1..], x));
    } else {
      assert RepeatsTerminal(cfg, x)(s, a);
      if x in s.table { GoneRepeats(cfg, t, acts[1..], x); }
    }
  }

  lemma {:induction false} FinalDecided(cfg: Settings, s: State, acts: seq<Action>, x: Id)
    requires LoadedRunning(s) && Apart(s) && Legal(cfg, s, acts)
    ensures Final(History(cfg, s, acts, x)) <==> Throughout(cfg, s, acts, RepeatsTerminal(cfg, x))
    decreases |acts|
  {
    if acts != [] {
      LoadedRunningStep(cfg, s, acts[0]);
      ApartStep(cfg, s, acts[0]);
      FinalDecided(cfg, Apply(cfg, s, acts[0]), acts[1..], x);
      FinalDecidedStep(cfg, s, acts, x);
    }
  }

  /** Succeeded and dead are final for a task, in a run with any PATCHes and any timeouts, if and only
      if no recording finds the row succeeded with a failure to write, or dead with anything but a
      failure that has no retry left. */
  lemma FinalExactlyWhen(cfg: Settings, s: State, acts: seq<Action>, x: Id)
    requires Init(s) && Legal(cfg, s, acts)
    ensures Final(History(cfg, s, acts, x)) <==> Throughout(cfg, s, acts, RepeatsTerminal(cfg, x))
  {
    FinalDecided(cfg, s, acts, x);
  }

  /* A run in which the race does harm */

  ghost predicate Anything(s: State, a: Action) { true }

  lemma LegalNow(cfg: Settings, s: State, acts: seq<Action>, t: State)
    requires acts == [] && t == s
    ensures Legal(cfg, s, acts) && Throughout(cfg, s, acts, Anything) && After(cfg, s, acts) == t
  {
  }

  lemma Then(cfg: Settings, s: State, acts: seq<Action>, t: State, a: Action) returns (more: seq<Action>)
    requires Legal(cfg, s, acts) && Throughout(cfg, s, acts, Anything) && After(cfg, s, acts) == t && Enabled(cfg, t, a)
    ensures more == acts + [a] && Legal(cfg, s, more) && Throughout(cfg, s, more, Anything) && After(cfg, s, more) == Apply(cfg, t, a)
  {
    more := acts + [a];
    RunExtend(cfg, s, acts, a, Anything);
  }

  lemma OneTask(cfg: Settings, clock: Time) returns (s: State, acts: seq<Action>, t: State)
    ensures Init(s) && Legal(cfg, s, acts) && Throughout(cfg, s, acts, Anything) && After(cfg, s, acts) == t
    ensures t.clock == clock && t.batches == [] && t.table == map[0 := Row(Pending, 0, clock, clock, clock, None, None, true)]
  {
    s := State(clock, map[], map[], [], map[], ZERO, ZERO, map[]);
    LegalNow(cfg, s, [], s);
    var find := Find(0, Request(None, None, true));
    acts := Then(cfg, s, [], s, find);
    t := Apply(cfg, s, find);
    acts := Then(cfg, s, acts, t, Insert(0, 0));
    t := Apply(cfg, t, Insert(0, 0));
  }

  lemma OneClaimed(cfg: Settings, clock: Time) returns (s: State, acts: seq<Action>, t: State)
    requires cfg.Valid()
    ensures Init(s) && Legal(cfg, s, acts) && Throughout(cfg, s, acts, Anything) && After(cfg, s, acts) == t
    ensures t.clock == clock && t.batches == [Batch(clock, clock, [0], 0, map[])]
    ensures t.table == map[0 := Row(Running, 0, clock, clock, clock, None, None, true)]
  {
    s, acts, t := OneTask(cfg, clock);
    var claim := Claim(clock, {}, [0]);
    assert OldestDue(t.table, clock, {}, cfg.batchSize, [0]);
    acts := Then(cfg, s, acts, t, claim);
    t := Apply(cfg, t, claim);
  }

  lemma OneExecuting(cfg: Settings, clock: Time) returns (s: State, acts: seq<Action>, t: State)
    requires cfg.Valid()
    ensures Init(s) && Legal(cfg, s, acts) && Throughout(cfg, s, acts, Anything) && After(cfg, s, acts) == t
    ensures var row := Row(Running, 0, clock, clock, clock, None, None, true);
      t.clock == clock && t.batches == [Batch(clock, clock, [0], 1, map[0 := Exec(row, clock)])] && t.table == map[0 := row]
  {
    s, acts, t := OneClaimed(cfg, clock);
    acts := Then(cfg, s, acts, t, Dispatch(0));
    t := Apply(cfg, t, Dispatch(0));
  }

  /** A row lock does not protect a PATCH against the worker: a task PATCHed to succeeded while it
      executes is pending again once its executor records a failure. */
  lemma PatchRaceReopensTask(cfg: Settings, clock: Time) returns (s: State, acts: seq<Action>, more: seq<Action>)
    requires cfg.Valid() && cfg.maxRetries >= 1
    ensures Init(s) && Legal(cfg, s, acts) && Legal(cfg, s, more) && acts < more
    ensures 0 in After(cfg, s, acts).table && After(cfg, s, acts).table[0].status == Succeeded
    ensures 0 in After(cfg, s, more).table && After(cfg, s, more).table[0].status == Pending
  {
    var t;
    s, acts, t := OneExecuting(cfg, clock);
    acts := Then(cfg, s, acts, t, Patch(0, Succeeded));
    t := Apply(cfg, t, Patch(0, Succeeded));
    var fail := Finish(0, 0, Failure("boom"));
    more := Then(cfg, s, acts, t, fail);
    t := Apply(cfg, t, fail);
  }
}
