/** Every run's creates are a run of a machine whose only create is an atomic get-or-insert. */
module Linearise {
  import opened Tasks
  import opened Retry
  import opened Protocol
  import opened Creates

  /** The protocol without create calls, and what the creates so far have answered. The created counter
      is left out: it lags behind the inserts. */
  datatype Spec = Spec(core: State, answers: map<nat, (Request, Id)>)

  datatype SpecAction = GetOrInsert(client: nat, req: Request, newId: Id) | Other(a: Action)

  ghost predicate SpecEnabled(cfg: Settings, p: Spec, x: SpecAction) {
    match x
    case GetOrInsert(client, req, newId) =>
      client !in p.answers && (HasKey(p.core.table, req.key) || (newId !in p.core.table && newId !in p.core.gone))
    case Other(a) => !IsCreate(a) && Enabled(cfg, p.core, a)
  }

  /** Look the key up and insert only if it is absent, in one step. */
  ghost function SpecApply(cfg: Settings, p: Spec, x: SpecAction): Spec
    requires SpecEnabled(cfg, p, x)
  {
    match x
    case GetOrInsert(client, req, newId) =>
      if HasKey(p.core.table, req.key) then
        p.(answers := p.answers[client := (req, WithKey(p.core.table, req.key))])
      else
        Spec(p.core.(table := p.core.table[newId := NewRow(req, p.core.clock)],
                     life := p.core.life[newId := Life(req.scheduledAt.GetOr(p.core.clock), p.core.clock, 0, 0, p.core.clock, p.core.clock)]),
             p.answers[client := (req, newId)])
    case Other(a) => p.(core := Apply(cfg, p.core, a))
  }

  ghost predicate SpecLegal(cfg: Settings, p: Spec, xs: seq<SpecAction>)
    decreases |xs|
  {
    xs == [] || (SpecEnabled(cfg, p, xs[0]) && SpecLegal(cfg, SpecApply(cfg, p, xs[0]), xs[1..]))
  }

  ghost function SpecAfter(cfg: Settings, p: Spec, xs: seq<SpecAction>): Spec
    requires SpecLegal(cfg, p, xs)
    decreases |xs|
  {
    if xs == [] then p else SpecAfter(cfg, SpecApply(cfg, p, xs[0]), xs[1..])
  }

  /* The abstraction */

  /** A call has taken effect once it has its row: found, inserted, or inserted and lost since. */
  predicate Effective(p: Phase) { p.Returned? || p.Inserted? || p.LostOwnRow? }

  function Answers(clients: map<nat, Phase>): map<nat, (Request, Id)> {
    map c | c in clients && Effective(clients[c]) :: (clients[c].req, clients[c].id)
  }

  function Core(s: State): State {
    s.(clients := map[], counters := s.counters.(created := 0))
  }

  function Abs(s: State): Spec { Spec(Core(s), Answers(s.clients)) }

  /** What a step does in the specification: the step in which a create gets its row is the atomic
      operation, and its other steps are nothing. */
  ghost function Effect(cfg: Settings, s: State, a: Action): seq<SpecAction>
    requires Enabled(cfg, s, a)
  {
    if !IsCreate(a) then [Other(a)] else
    var p := Apply(cfg, s, a).clients[a.client];
    if Effective(p) && !a.Refresh? then [GetOrInsert(a.client, p.req, p.id)] else []
  }

  ghost function Trace(cfg: Settings, s: State, acts: seq<Action>): seq<SpecAction>
    requires Legal(cfg, s, acts)
    decreases |acts|
  {
    if acts == [] then [] else Effect(cfg, s, acts[0]) + Trace(cfg, Apply(cfg, s, acts[0]), acts[1..])
  }

  /* One step */

  lemma {:induction false} CountReapedCore(cfg: Settings, c: Counters, t: Table, ids: seq<Id>)
    requires forall i :: 0 <= i < |ids| ==> ids[i] in t
    ensures CountReaped(cfg, c.(created := 0), t, ids) == CountReaped(cfg, c, t, ids).(created := 0)
    decreases |ids|
  {
    if ids != [] { CountReapedCore(cfg, c, t, ids[..|ids| - 1]); }
  }

  lemma CoreEnables(cfg: Settings, s: State, a: Action)
    requires Enabled(cfg, s, a) && !IsCreate(a)
    ensures Enabled(cfg, Core(s), a)
  {
  }

  lemma FreedCommutes(s: State, b: nat, i: nat)
    requires b < |s.batches|
    ensures Freed(Core(s), b, i) == Core(Freed(s, b, i))
  {
  }

  lemma MiscountCommutes(cfg: Settings, s: State, row: Row)
    ensures Miscount(cfg, Core(s), row) == Core(Miscount(cfg, s, row))
  {
  }

  lemma RecordCommutes(cfg: Settings, s: State, b: nat, i: nat, outcome: Outcome)
    requires Enabled(cfg, s, Finish(b, i, outcome)) && Enabled(cfg, Core(s), Finish(b, i, outcome))
    ensures Record(cfg, Core(s), b, i, outcome) == Core(Record(cfg, s, b, i, outcome))
  {
    FreedCommutes(s, b, i);
    MiscountCommutes(cfg, Freed(s, b, i), s.batches[b].live[i].snapshot);
  }

  lemma LoseCommutes(cfg: Settings, s: State, b: nat, i: nat, counted: bool)
    requires Enabled(cfg, s, Lose(b, i, counted)) && Enabled(cfg, Core(s), Lose(b, i, counted))
    ensures Apply(cfg, Core(s), Lose(b, i, counted)) == Core(Apply(cfg, s, Lose(b, i, counted)))
  {
    FreedCommutes(s, b, i);
    MiscountCommutes(cfg, Freed(s, b, i), s.batches[b].live[i].snapshot);
  }

  lemma CoreCommutesExecutor(cfg: Settings, s: State, a: Action)
    requires Enabled(cfg, s, a) && Executes(a) && Enabled(cfg, Core(s), a)
    ensures Apply(cfg, Core(s), a) == Core(Apply(cfg, s, a))
  {
    match a
    case Finish(b, i, outcome) => RecordCommutes(cfg, s, b, i, outcome);
    case Lose(b, i, counted) => LoseCommutes(cfg, s, b, i, counted);
    case Dispatch(b) => assert Start(Core(s), b) == Start(s, b);
    case Crash(b) =>
  }

  lemma CoreCommutesBulk(cfg: Settings, s: State, a: Action)
    requires Enabled(cfg, s, a) && (a.Claim? || a.Reap? || a.VoidReap?) && Enabled(cfg, Core(s), a)
    ensures Apply(cfg, Core(s), a) == Core(Apply(cfg, s, a))
  {
    if !a.Claim? {
      CountReapedCore(cfg, s.counters, s.table, a.ids);
      CountReapedCore(cfg, s.spurious, s.table, a.ids);
    }
  }

  lemma CoreCommutesWrite(cfg: Settings, s: State, a: Action)
    requires Enabled(cfg, s, a) && (a.Wait? || a.Patch? || a.Delete?) && Enabled(cfg, Core(s), a)
    ensures Apply(cfg, Core(s), a) == Core(Apply(cfg, s, a))
  {
  }

  lemma OtherStep(cfg: Settings, s: State, a: Action)
    requires Enabled(cfg, s, a) && !IsCreate(a)
    ensures SpecEnabled(cfg, Abs(s), Other(a)) && SpecApply(cfg, Abs(s), Other(a)) == Abs(Apply(cfg, s, a))
  {
    CoreEnables(cfg, s, a);
    ClientsFrame(cfg, s, a);
    if Executes(a) {
      CoreCommutesExecutor(cfg, s, a);
    } else if a.Claim? || a.Reap? || a.VoidReap? {
      CoreCommutesBulk(cfg, s, a);
    } else {
      CoreCommutesWrite(cfg, s, a);
    }
  }

  lemma AnswersPut(clients: map<nat, Phase>, c: nat, p: Phase)
    ensures Answers(clients[c := p]) == if Effective(p) then Answers(clients)[c := (p.req, p.id)] else Answers(clients) - {c}
    ensures c in Answers(clients) <==> c in clients && Effective(clients[c])
  {
  }

  /** A lookup that finds the key answers with its row. */
  lemma LookupStep(cfg: Settings, s: State, a: Action)
    requires Enabled(cfg, s, a) && (a.Find? || a.Refind?)
    ensures var t := Apply(cfg, s, a);
      && a.client in t.clients && Core(t) == Core(s)
      && (a.client in s.clients ==> !Effective(s.clients[a.client]))
      && var p := t.clients[a.client];
         (Effective(p) <==> HasKey(s.table, p.req.key)) && (Effective(p) ==> p.id == WithKey(s.table, p.req.key))
  {
  }

  lemma InsertStep(cfg: Settings, s: State, a: Action)
    requires Enabled(cfg, s, a) && a.Insert?
    ensures var t := Apply(cfg, s, a);
      && a.client in s.clients && !Effective(s.clients[a.client]) && a.client in t.clients
      && var p := t.clients[a.client];
         && (Effective(p) <==> !HasKey(s.table, p.req.key))
         && (if Effective(p) then
               && p.id == a.id && a.id !in s.table && a.id !in s.gone
               && Core(t) == Core(s).(table := s.table[a.id := NewRow(p.req, s.clock)],
                                      life := s.life[a.id := Life(p.req.scheduledAt.GetOr(s.clock), s.clock, 0, 0, s.clock, s.clock)])
             else Core(t) == Core(s))
  {
  }

  lemma RefreshStep(cfg: Settings, s: State, a: Action)
    requires Enabled(cfg, s, a) && a.Refresh?
    ensures Abs(Apply(cfg, s, a)) == Abs(s)
  {
    AnswersPut(s.clients, a.client, Apply(cfg, s, a).clients[a.client]);
  }

  lemma CreateStep(cfg: Settings, s: State, a: Action)
    requires Enabled(cfg, s, a) && (a.Find? || a.Refind? || a.Insert?)
    ensures var xs := Effect(cfg, s, a);
      if xs == [] then Abs(Apply(cfg, s, a)) == Abs(s)
      else |xs| == 1 && SpecEnabled(cfg, Abs(s), xs[0]) && SpecApply(cfg, Abs(s), xs[0]) == Abs(Apply(cfg, s, a))
  {
    if a.Insert? { InsertStep(cfg, s, a); } else { LookupStep(cfg, s, a); }
    ClientsFrame(cfg, s, a);
    AnswersPut(s.clients, a.client, Apply(cfg, s, a).clients[a.client]);
  }

  lemma EffectStep(cfg: Settings, s: State, a: Action)
    requires Enabled(cfg, s, a)
    ensures var xs := Effect(cfg, s, a);
      if xs == [] then Abs(Apply(cfg, s, a)) == Abs(s)
      else |xs| == 1 && SpecEnabled(cfg, Abs(s), xs[0]) && SpecApply(cfg, Abs(s), xs[0]) == Abs(Apply(cfg, s, a))
  {
    if a.Refresh? {
      RefreshStep(cfg, s, a);
    } else if IsCreate(a) {
      CreateStep(cfg, s, a);
    } else {
      OtherStep(cfg, s, a);
    }
  }

  /* Whole runs */

  /** Every run, from any state, is a run of the specification: each create that finds or inserts its row
      does so in one atomic step of its own call, and the table, the rows deleted and all answers agree. */
  lemma {:induction false} CreatesLinearise(cfg: Settings, s: State, acts: seq<Action>)
    requires Legal(cfg, s, acts)
    ensures SpecLegal(cfg, Abs(s), Trace(cfg, s, acts))
    ensures SpecAfter(cfg, Abs(s), Trace(cfg, s, acts)) == Abs(After(cfg, s, acts))
    decreases |acts|
  {
    if acts != [] {
      var t := Apply(cfg, s, acts[0]);
      EffectStep(cfg, s, acts[0]);
      CreatesLinearise(cfg, t, acts[1..]);
      var xs := Effect(cfg, s, acts[0]);
      if xs == [] {
        assert Trace(cfg, s, acts) == Trace(cfg, t, acts[1..]);
      } else {
        assert Trace(cfg, s, acts)[0] == xs[0] && Trace(cfg, s, acts)[1..] == Trace(cfg, t, acts[1..]);
      }
    }
  }

  predicate OpOf(x: SpecAction, c: nat) { x.GetOrInsert? && x.client == c }

  lemma TraceUnfolds(cfg: Settings, s: State, acts: seq<Action>, rest: seq<Action>)
    requires acts != [] && acts[1..] == rest && Enabled(cfg, s, acts[0]) && Legal(cfg, Apply(cfg, s, acts[0]), rest)
    ensures Legal(cfg, s, acts) && After(cfg, s, acts) == After(cfg, Apply(cfg, s, acts[0]), rest)
    ensures Trace(cfg, s, acts) == Effect(cfg, s, acts[0]) + Trace(cfg, Apply(cfg, s, acts[0]), rest)
  {
  }

  lemma TailOfJoin(before: seq<Action>, after: seq<Action>)
    requires before != []
    ensures before + after != [] && (before + after)[0] == before[0] && (before + after)[1..] == before[1..] + after
  {
  }

  lemma {:induction false} TraceSplits(cfg: Settings, s: State, before: seq<Action>, after: seq<Action>)
    requires Legal(cfg, s, before) && Legal(cfg, After(cfg, s, before), after)
    ensures Legal(cfg, s, before + after)
    ensures Trace(cfg, s, before + after) == Trace(cfg, s, before) + Trace(cfg, After(cfg, s, before), after)
    decreases |before|
  {
    if before == [] {
      assert before + after == after;
    } else {
      TraceSplits(cfg, Apply(cfg, s, before[0]), before[1..], after);
      TailOfJoin(before, after);
      TraceUnfolds(cfg, s, before + after, before[1..] + after);
    }
  }

  /** An operation in the trace of a run is that of a call which has begun by the run's end. */
  lemma {:induction false} OpsHaveBegun(cfg: Settings, s: State, acts: seq<Action>, c: nat, i: nat)
    requires Legal(cfg, s, acts) && i < |Trace(cfg, s, acts)| && OpOf(Trace(cfg, s, acts)[i], c)
    ensures c in After(cfg, s, acts).clients
    decreases |acts|
  {
    if acts != [] {
      var xs, t := Effect(cfg, s, acts[0]), Apply(cfg, s, acts[0]);
      ClientsFrame(cfg, s, acts[0]);
      if i < |xs| {
        CallsStay(cfg, t, acts[1..], c);
      } else {
        OpsHaveBegun(cfg, t, acts[1..], c, i - |xs|);
      }
    }
  }

  lemma {:induction false} CallsStay(cfg: Settings, s: State, acts: seq<Action>, c: nat)
    requires Legal(cfg, s, acts) && c in s.clients
    ensures c in After(cfg, s, acts).clients
    decreases |acts|
  {
    if acts != [] {
      ClientsFrame(cfg, s, acts[0]);
      CallsStay(cfg, Apply(cfg, s, acts[0]), acts[1..], c);
    }
  }

  /** A call that has its answer takes effect no more. */
  lemma {:induction false} AnsweredIsOver(cfg: Settings, s: State, acts: seq<Action>, c: nat, i: nat)
    requires Legal(cfg, s, acts) && c in s.clients && Answered(s.clients[c]) && i < |Trace(cfg, s, acts)|
    ensures !OpOf(Trace(cfg, s, acts)[i], c)
    decreases |acts|
  {
    if acts != [] {
      var xs, t := Effect(cfg, s, acts[0]), Apply(cfg, s, acts[0]);
      ClientsFrame(cfg, s, acts[0]);
      if i >= |xs| { AnsweredIsOver(cfg, t, acts[1..], c, i - |xs|); }
    }
  }

  /** The atomic operations come in real-time order: a call that was answered before another began
      takes effect before it. */
  lemma RealTimeOrder(cfg: Settings, s: State, before: seq<Action>, after: seq<Action>, c: nat, d: nat, i: nat, j: nat)
    requires Legal(cfg, s, before) && Legal(cfg, After(cfg, s, before), after) && Legal(cfg, s, before + after)
    requires var t := After(cfg, s, before); c in t.clients && Answered(t.clients[c]) && d !in t.clients
    requires var xs := Trace(cfg, s, before + after); i < |xs| && j < |xs| && OpOf(xs[i], c) && OpOf(xs[j], d)
    ensures i < j
  {
    var t, first := After(cfg, s, before), Trace(cfg, s, before);
    TraceSplits(cfg, s, before, after);
    if j < |first| { OpsHaveBegun(cfg, s, before, d, j); }
    if i >= |first| { AnsweredIsOver(cfg, t, after, c, i - |first|); }
  }
}
