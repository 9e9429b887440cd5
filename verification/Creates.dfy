/** Concurrent creates on shared idempotency keys: find, insert-or-conflict, refresh and second find,
    interleaved with each other and with everything else, behave like one atomic get-or-insert. */
module Creates {
  import opened Tasks
  import opened Protocol
  import opened Refinement
  import opened Measure

  /** The unique index: a key is on at most one row. */
  ghost predicate KeysUnique(t: Table) {
    forall x, y :: x in t && y in t && t[x].key.Some? && t[x].key == t[y].key ==> x == y
  }

  /** Row x exists or existed, and carries the key. */
  ghost predicate Carries(s: State, x: Id, key: Option<string>) {
    (x in s.table && s.table[x].key == key) || (x in s.gone && s.gone[x].key == key)
  }

  ghost predicate CallOk(s: State, p: Phase) {
    match p
    case Inserting(req) => true
    case Conflicted(req, winner) => req.key.Some? && Carries(s, winner, req.key)
    case Inserted(req, id) => Carries(s, id, req.key)
    case Returned(req, id) => Carries(s, id, req.key)
    case LostOwnRow(req, id) => id in s.gone && s.gone[id].key == req.key
    case Raised(req, winner) => req.key.Some? && winner in s.gone && s.gone[winner].key == req.key
  }

  /** Calls whose row is in the table for good but not counted: not yet refreshed, or never to be. */
  ghost function Unrefreshed(s: State): set<nat> { set c | c in s.clients && s.clients[c].Inserted? }

  ghost function Lost(s: State): set<nat> { set c | c in s.clients && s.clients[c].LostOwnRow? }

  ghost predicate CreatedOk(s: State) {
    s.counters.created + |Unrefreshed(s)| + |Lost(s)| == RowsEver(s)
  }

  ghost predicate CreatesOk(s: State) {
    && Apart(s) && KeysUnique(s.table) && CreatedOk(s)
    && (forall c :: c in s.clients ==> CallOk(s, s.clients[c]))
  }

  predicate IsCreate(a: Action) { a.Find? || a.Insert? || a.Refresh? || a.Refind? }

  /* Keys */

  ghost predicate KeysSame(s: State, t: State) {
    && (forall x :: x in s.table && x in t.table ==> t.table[x].key == s.table[x].key)
    && (forall x :: x in s.table && x !in t.table ==> x in t.gone && t.gone[x].key == s.table[x].key)
    && (forall x :: x in s.gone ==> x in t.gone && t.gone[x] == s.gone[x])
  }

  lemma KeysOfWorker(cfg: Settings, s: State, a: Action)
    requires Enabled(cfg, s, a) && (a.Claim? || a.Reap? || a.Finish?)
    ensures KeysSame(s, Apply(cfg, s, a)) && Apply(cfg, s, a).table.Keys == s.table.Keys
  {
    if a.Finish? { FinishFrame(cfg, s, a); }
  }

  lemma KeysOfWrite(cfg: Settings, s: State, a: Action)
    requires Enabled(cfg, s, a) && Apart(s) && (a.Patch? || a.Delete?)
    ensures KeysSame(s, Apply(cfg, s, a)) && Apply(cfg, s, a).table.Keys <= s.table.Keys
  {
  }

  lemma KeysOfInsert(cfg: Settings, s: State, a: Action)
    requires Enabled(cfg, s, a) && a.Insert?
    ensures KeysSame(s, Apply(cfg, s, a))
  {
  }

  /** No step rewrites a key, and rows only leave the table into `gone`. */
  lemma KeysKept(cfg: Settings, s: State, a: Action)
    requires Enabled(cfg, s, a) && Apart(s)
    ensures KeysSame(s, Apply(cfg, s, a)) && (!a.Insert? ==> Apply(cfg, s, a).table.Keys <= s.table.Keys)
  {
    if a.Claim? || a.Reap? || a.Finish? {
      KeysOfWorker(cfg, s, a);
    } else if a.Patch? || a.Delete? {
      KeysOfWrite(cfg, s, a);
    } else if a.Insert? {
      KeysOfInsert(cfg, s, a);
    } else if Executes(a) {
      ExecutorWritesNothing(cfg, s, a);
    } else {
      TableFrame(cfg, s, a);
    }
  }

  lemma KeysStayUnique(cfg: Settings, s: State, a: Action)
    requires CreatesOk(s) && Enabled(cfg, s, a)
    ensures KeysUnique(Apply(cfg, s, a).table)
  {
    KeysKept(cfg, s, a);
    if a.Insert? { InsertUnique(cfg, s, a); }
  }

  lemma InsertUnique(cfg: Settings, s: State, a: Action)
    requires CreatesOk(s) && Enabled(cfg, s, a) && a.Insert?
    ensures KeysUnique(Apply(cfg, s, a).table)
  {
    if Creates(s, a) {
      var key := s.clients[a.client].req.key;
      assert !HasKey(s.table, key);
      assert Apply(cfg, s, a).table == s.table[a.id := NewRow(s.clients[a.client].req, s.clock)];
    }
  }

  /* Calls */

  lemma CallSurvives(s: State, t: State, p: Phase)
    requires KeysSame(s, t) && CallOk(s, p)
    ensures CallOk(t, p)
  {
  }

  /** Only the four steps of a create touch a call, and only their own. */
  lemma ClientsFrame(cfg: Settings, s: State, a: Action)
    requires Enabled(cfg, s, a)
    ensures var t := Apply(cfg, s, a);
      if IsCreate(a) then a.client in t.clients && t.clients == s.clients[a.client := t.clients[a.client]]
      else t.clients == s.clients
  {
    if a.Finish? {
      FinishFrame(cfg, s, a);
    } else if Executes(a) {
      ExecutorWritesNothing(cfg, s, a);
    } else if IsCreate(a) {
      OwnCallOnly(cfg, s, a);
    }
  }

  lemma OwnCallOnly(cfg: Settings, s: State, a: Action)
    requires Enabled(cfg, s, a) && IsCreate(a)
    ensures var t := Apply(cfg, s, a); a.client in t.clients && t.clients == s.clients[a.client := t.clients[a.client]]
  {
  }

  lemma OwnCallOk(cfg: Settings, s: State, a: Action)
    requires CreatesOk(s) && Enabled(cfg, s, a) && IsCreate(a)
    ensures var t := Apply(cfg, s, a); a.client in t.clients && CallOk(t, t.clients[a.client])
  {
    if !a.Find? { assert CallOk(s, s.clients[a.client]); }
  }

  lemma CallsStep(cfg: Settings, s: State, a: Action)
    requires CreatesOk(s) && Enabled(cfg, s, a)
    ensures var t := Apply(cfg, s, a); forall c :: c in t.clients ==> CallOk(t, t.clients[c])
  {
    var t := Apply(cfg, s, a);
    ClientsFrame(cfg, s, a);
    KeysKept(cfg, s, a);
    if IsCreate(a) { OwnCallOk(cfg, s, a); }
    forall c | c in t.clients ensures CallOk(t, t.clients[c]) {
      if !(IsCreate(a) && c == a.client) { CallSurvives(s, t, s.clients[c]); }
    }
  }

  /* The created counter */

  lemma CreatedFrame(cfg: Settings, s: State, a: Action)
    requires Enabled(cfg, s, a) && !a.Refresh?
    ensures Apply(cfg, s, a).counters.created == s.counters.created
  {
    if a.Reap? || a.VoidReap? { CountersReaped(cfg, s.counters, s.table, a.ids); }
  }

  lemma PhaseSets(s: State, t: State, c: nat, p: Phase)
    requires t.clients == s.clients[c := p]
    ensures Unrefreshed(t) == if p.Inserted? then Unrefreshed(s) + {c} else Unrefreshed(s) - {c}
    ensures Lost(t) == if p.LostOwnRow? then Lost(s) + {c} else Lost(s) - {c}
    ensures c in Unrefreshed(s) <==> c in s.clients && s.clients[c].Inserted?
    ensures c in Lost(s) <==> c in s.clients && s.clients[c].LostOwnRow?
  {
  }

  lemma InsertPhase(cfg: Settings, s: State, a: Action)
    requires Enabled(cfg, s, a) && a.Insert?
    ensures var t := Apply(cfg, s, a);
      && a.client in t.clients && t.clients == s.clients[a.client := t.clients[a.client]]
      && !t.clients[a.client].LostOwnRow? && (t.clients[a.client].Inserted? <==> Creates(s, a))
      && t.counters.created == s.counters.created
  {
  }

  lemma InsertCreated(cfg: Settings, s: State, a: Action)
    requires CreatesOk(s) && Enabled(cfg, s, a) && a.Insert?
    ensures CreatedOk(Apply(cfg, s, a))
  {
    var t := Apply(cfg, s, a);
    RowsEverStep(cfg, s, a);
    InsertPhase(cfg, s, a);
    PhaseSets(s, t, a.client, t.clients[a.client]);
  }

  lemma RefreshPhase(cfg: Settings, s: State, a: Action)
    requires Enabled(cfg, s, a) && a.Refresh?
    ensures var t := Apply(cfg, s, a);
      && a.client in t.clients && t.clients == s.clients[a.client := t.clients[a.client]]
      && !t.clients[a.client].Inserted?
      && t.counters.created == s.counters.created + if t.clients[a.client].LostOwnRow? then 0 else 1
  {
  }

  lemma RefreshCreated(cfg: Settings, s: State, a: Action)
    requires CreatesOk(s) && Enabled(cfg, s, a) && a.Refresh?
    ensures CreatedOk(Apply(cfg, s, a))
  {
    var t := Apply(cfg, s, a);
    TableFrame(cfg, s, a);
    RefreshPhase(cfg, s, a);
    PhaseSets(s, t, a.client, t.clients[a.client]);
  }

  lemma CreatedStep(cfg: Settings, s: State, a: Action)
    requires CreatesOk(s) && Enabled(cfg, s, a)
    ensures CreatedOk(Apply(cfg, s, a))
  {
    var t := Apply(cfg, s, a);
    if a.Insert? {
      InsertCreated(cfg, s, a);
    } else if a.Refresh? {
      RefreshCreated(cfg, s, a);
    } else {
      RowsEverStep(cfg, s, a);
      CreatedFrame(cfg, s, a);
      ClientsFrame(cfg, s, a);
      if a.Find? || a.Refind? {
        OtherPhases(cfg, s, a);
        PhaseSets(s, t, a.client, t.clients[a.client]);
      }
    }
  }

  lemma OtherPhases(cfg: Settings, s: State, a: Action)
    requires Enabled(cfg, s, a) && (a.Find? || a.Refind?)
    ensures var t := Apply(cfg, s, a); a.client in t.clients && !t.clients[a.client].Inserted? && !t.clients[a.client].LostOwnRow?
    ensures a.client in s.clients ==> s.clients[a.client].Conflicted?
  {
  }

  lemma CreatesStep(cfg: Settings, s: State, a: Action)
    requires CreatesOk(s) && Enabled(cfg, s, a)
    ensures CreatesOk(Apply(cfg, s, a))
  {
    ApartStep(cfg, s, a);
    KeysStayUnique(cfg, s, a);
    CreatedStep(cfg, s, a);
    CallsStep(cfg, s, a);
  }

  lemma {:induction false} CreatesRun(cfg: Settings, s: State, acts: seq<Action>)
    requires CreatesOk(s) && Legal(cfg, s, acts)
    ensures CreatesOk(After(cfg, s, acts))
    decreases |acts|
  {
    if acts != [] {
      CreatesStep(cfg, s, acts[0]);
      CreatesRun(cfg, Apply(cfg, s, acts[0]), acts[1..]);
    }
  }

  /** In every reachable state, PATCHes, deletes, reaps and crashes included: one row per key; a call
      that re-raised its conflict lost the row it conflicted with to a delete, and a call that raised
      on refresh lost its own; and the rows ever inserted are the created counter, the calls that have
      not refreshed their row yet, and those that found it deleted. */
  lemma ReachableCreates(cfg: Settings, s: State, acts: seq<Action>)
    requires Init(s) && Legal(cfg, s, acts)
    ensures var t := After(cfg, s, acts);
      && KeysUnique(t.table)
      && (forall c :: c in t.clients && t.clients[c].Raised? ==>
            t.clients[c].req.key.Some? && t.clients[c].winner in t.gone && t.gone[t.clients[c].winner].key == t.clients[c].req.key)
      && (forall c :: c in t.clients && t.clients[c].LostOwnRow? ==> t.clients[c].id in t.gone)
      && t.counters.created + |Unrefreshed(t)| + |Lost(t)| == |t.table| + |t.gone|
  {
    CreatesRun(cfg, s, acts);
    forall c | c in After(cfg, s, acts).clients ensures CallOk(After(cfg, s, acts), After(cfg, s, acts).clients[c]) {}
  }

  /** The created counter is the number of rows ever inserted if and only if no call has its row still
      to refresh and none found it deleted. */
  lemma CreatedIsExactWhen(cfg: Settings, s: State, acts: seq<Action>)
    requires Init(s) && Legal(cfg, s, acts)
    ensures var t := After(cfg, s, acts);
      t.counters.created == |t.table| + |t.gone| <==> forall c :: c in t.clients ==> !t.clients[c].Inserted? && !t.clients[c].LostOwnRow?
  {
    CreatesRun(cfg, s, acts);
    var t := After(cfg, s, acts);
    if c :| c in t.clients && (t.clients[c].Inserted? || t.clients[c].LostOwnRow?) {
      assert c in Unrefreshed(t) || c in Lost(t);
    } else {
      assert Unrefreshed(t) == {} && Lost(t) == {};
    }
  }

  /* When calls raise and what they return */

  /** A step makes a call raise exactly when it is the second lookup and no row has the key, or the
      refresh and the call's own row has been deleted; a call that returns, returns a row that is in
      the table and carries its key. */
  lemma RaisesExactlyWhen(cfg: Settings, s: State, a: Action)
    requires CreatesOk(s) && Enabled(cfg, s, a) && IsCreate(a)
    ensures var t := Apply(cfg, s, a); a.client in t.clients && var p := t.clients[a.client];
      && (p.Raised? || p.LostOwnRow? <==>
            || (a.Refind? && !HasKey(s.table, p.req.key))
            || (a.Refresh? && p.id in s.gone))
      && (p.Returned? ==> p.id in t.table && t.table[p.id].key == p.req.key)
  {
    if !a.Find? { assert CallOk(s, s.clients[a.client]); }
  }

  lemma LookupFinds(cfg: Settings, s: State, a: Action, x: Id)
    requires CreatesOk(s) && Enabled(cfg, s, a) && (a.Find? || a.Insert? || a.Refind?)
    requires x in s.table && s.table[x].key.Some?
    requires var t := Apply(cfg, s, a); a.client in t.clients && t.clients[a.client].req.key == s.table[x].key
    ensures var p := Apply(cfg, s, a).clients[a.client]; !p.Raised? && !p.LostOwnRow? && (p.Returned? ==> p.id == x)
  {
    assert HasKey(s.table, s.table[x].key);
  }

  /** A repeated create returns the original: while row x carries the key, every call that returns,
      returns x; only a call whose own row was deleted before it could refresh it raises. */
  lemma RepeatReturnsOriginal(cfg: Settings, s: State, a: Action, x: Id)
    requires CreatesOk(s) && Enabled(cfg, s, a) && IsCreate(a) && x in s.table && s.table[x].key.Some?
    requires a.client in Apply(cfg, s, a).clients && Apply(cfg, s, a).clients[a.client].req.key == s.table[x].key
    ensures var p := Apply(cfg, s, a).clients[a.client];
      && !p.Raised? && (p.Returned? ==> p.id == x)
      && (p.LostOwnRow? ==> a.Refresh? && p.id in s.gone && p.id != x)
  {
    if a.Refresh? {
      assert CallOk(s, s.clients[a.client]);
    } else {
      LookupFinds(cfg, s, a, x);
    }
  }

  predicate Answered(p: Phase) { p.Returned? || p.Raised? || p.LostOwnRow? }

  /** The answer of a call never changes. */
  lemma {:induction false} AnswersAreFinal(cfg: Settings, s: State, acts: seq<Action>, c: nat)
    requires Legal(cfg, s, acts) && c in s.clients && Answered(s.clients[c])
    ensures c in After(cfg, s, acts).clients && After(cfg, s, acts).clients[c] == s.clients[c]
    decreases |acts|
  {
    if acts != [] {
      ClientsFrame(cfg, s, acts[0]);
      AnswersAreFinal(cfg, Apply(cfg, s, acts[0]), acts[1..], c);
    }
  }

  ghost predicate NoDelete(s: State, a: Action) { !a.Delete? }

  lemma {:induction false} NothingGone(cfg: Settings, s: State, acts: seq<Action>)
    requires s.gone == map[] && Legal(cfg, s, acts) && Throughout(cfg, s, acts, NoDelete)
    ensures After(cfg, s, acts).gone == map[]
    decreases |acts|
  {
    if acts != [] {
      GoneFrame(cfg, s, acts[0]);
      NothingGone(cfg, Apply(cfg, s, acts[0]), acts[1..]);
    }
  }

  lemma GoneFrame(cfg: Settings, s: State, a: Action)
    requires Enabled(cfg, s, a) && !a.Delete?
    ensures Apply(cfg, s, a).gone == s.gone
  {
    if !a.Insert? { KeysFrame(cfg, s, a); }
  }

  /** Without deletes no create raises, and all calls with one key return the same task. */
  lemma SharedKeySameTask(cfg: Settings, s: State, acts: seq<Action>, c: nat, d: nat)
    requires Init(s) && Legal(cfg, s, acts) && Throughout(cfg, s, acts, NoDelete)
    requires c in After(cfg, s, acts).clients && d in After(cfg, s, acts).clients
    ensures var p, q := After(cfg, s, acts).clients[c], After(cfg, s, acts).clients[d];
      && !p.Raised? && !p.LostOwnRow?
      && (p.Returned? && q.Returned? && p.req.key.Some? && p.req.key == q.req.key ==> p.id == q.id)
  {
    CreatesRun(cfg, s, acts);
    NothingGone(cfg, s, acts);
    var t := After(cfg, s, acts);
    assert CallOk(t, t.clients[c]) && CallOk(t, t.clients[d]);
  }

  /* A run in which the counter falls short */

  lemma StepThen(cfg: Settings, s: State, a: Action, rest: seq<Action>, all: seq<Action>)
    requires Enabled(cfg, s, a) && Legal(cfg, Apply(cfg, s, a), rest) && all != [] && all[0] == a && all[1..] == rest
    ensures Legal(cfg, s, all) && After(cfg, s, all) == After(cfg, Apply(cfg, s, a), rest)
  {
  }

  lemma FourSteps(cfg: Settings, s: State, a: Action, b: Action, c: Action, d: Action)
    requires Enabled(cfg, s, a) && Enabled(cfg, Apply(cfg, s, a), b) && Enabled(cfg, Apply(cfg, Apply(cfg, s, a), b), c)
    requires Enabled(cfg, Apply(cfg, Apply(cfg, Apply(cfg, s, a), b), c), d)
    ensures Legal(cfg, s, [a, b, c, d])
    ensures After(cfg, s, [a, b, c, d]) == Apply(cfg, Apply(cfg, Apply(cfg, Apply(cfg, s, a), b), c), d)
  {
    var r := Apply(cfg, s, a);
    var u := Apply(cfg, r, b);
    StepThen(cfg, Apply(cfg, u, c), d, [], [d]);
    StepThen(cfg, u, c, [d], [c, d]);
    StepThen(cfg, r, b, [c, d], [b, c, d]);
    StepThen(cfg, s, a, [b, c, d], [a, b, c, d]);
  }

  lemma InsertsOne(cfg: Settings, s: State, req: Request)
    requires Init(s)
    ensures Enabled(cfg, s, Find(0, req)) && Enabled(cfg, Apply(cfg, s, Find(0, req)), Insert(0, 0))
    ensures var t := Apply(cfg, Apply(cfg, s, Find(0, req)), Insert(0, 0));
      t.clients == map[0 := Inserted(req, 0)] && t.table.Keys == {0} && t.gone == map[] && t.counters.created == 0
  {
    assert !HasKey(s.table, req.key);
    assert Apply(cfg, s, Find(0, req)) == s.(clients := map[0 := Inserting(req)]);
  }

  lemma LosesOne(cfg: Settings, s: State, req: Request)
    requires s.clients == map[0 := Inserted(req, 0)] && s.table.Keys == {0} && s.gone == map[] && s.counters.created == 0
    ensures Enabled(cfg, s, Delete(0)) && Enabled(cfg, Apply(cfg, s, Delete(0)), Refresh(0))
    ensures var t := Apply(cfg, Apply(cfg, s, Delete(0)), Refresh(0));
      && t.clients == map[0 := LostOwnRow(req, 0)] && t.counters.created == 0
      && t.table == map[] && t.gone.Keys == {0}
  {
    assert Apply(cfg, s, Delete(0)).table == map[];
  }

  /** A DELETE between a create's commit and its refresh: the row was inserted, the create raises and
      does not count it. */
  lemma DeletedBeforeRefresh(cfg: Settings, s: State, req: Request)
    requires Init(s)
    ensures var acts := [Find(0, req), Insert(0, 0), Delete(0), Refresh(0)];
      && Legal(cfg, s, acts)
      && var t := After(cfg, s, acts);
         && t.clients == map[0 := LostOwnRow(req, 0)] && t.counters.created == 0
         && t.table.Keys == {} && t.gone.Keys == {0}
  {
    InsertsOne(cfg, s, req);
    LosesOne(cfg, Apply(cfg, Apply(cfg, s, Find(0, req)), Insert(0, 0)), req);
    FourSteps(cfg, s, Find(0, req), Insert(0, 0), Delete(0), Refresh(0));
  }
}
