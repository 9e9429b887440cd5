/** Everything that steps the task table, as one timed transition system: worker ticks (reap,
    claim, execute, record), worker failures, and the API's create, PATCH and delete. */
module Protocol {
  import opened Tasks
  import opened StateMachine
  import opened Retry

  const STALLED: string := "execution stalled (worker lost or exceeded timeout)"

  /** A running executor: the row its session loaded, and when it got its semaphore slot. */
  datatype Exec = Exec(snapshot: Row, start: Time)

  /** The tasks one call of run_once claimed: `claimedAt` is the stamp of the claim on its rows,
      `formedAt` the instant it committed. The semaphore is FIFO, so positions below `next` have
      been given a slot and the rest are queued; `live` holds the running executors. */
  datatype Batch = Batch(claimedAt: Time, formedAt: Time, ids: seq<Id>, next: nat, live: map<nat, Exec>)
  {
    predicate Active(i: nat) { i < |ids| && (i in live || next <= i) }
  }

  datatype Request = Request(key: Option<string>, scheduledAt: Option<Time>, forceFail: bool)

  /** Where a call of create_task stands. A call that has committed its row refreshes it in a new
      transaction, which raises when the row has been deleted meanwhile. */
  datatype Phase =
    | Inserting(req: Request)
    | Inserted(req: Request, id: Id)
    | Conflicted(req: Request, winner: Id)
    | Returned(req: Request, id: Id)
    | LostOwnRow(req: Request, id: Id)
    | Raised(req: Request, winner: Id)

  datatype Counters = Counters(
    created: nat, claimed: nat, succeeded: nat, retried: nat, dead: nat, reclaimed: nat)

  /** History of one task: the time it was asked for, when it was inserted, how often it was claimed and
      charged a failure, and when first and last. */
  datatype Life = Life(notBefore: Time, born: Time, claims: nat, failures: nat, firstFailure: Time, lastFailure: Time)

  /** `counters` are the metrics; `spurious` is the part of them that no committed write backs. */
  datatype State = State(
    clock: Time,
    table: Table,
    gone: Table,
    batches: seq<Batch>,
    clients: map<nat, Phase>,
    counters: Counters,
    spurious: Counters,
    life: map<Id, Life>)

  const ZERO: Counters := Counters(0, 0, 0, 0, 0, 0)

  /** `VoidReap` is a reap whose commit fails; `Lose` ends an executor without an outcome, `counted`
      when it had counted a failure whose commit then failed. */
  datatype Action =
    | Wait(until: Time)
    | Claim(asOf: Time, locked: set<Id>, ids: seq<Id>)
    | Reap(asOf: Time, locked: set<Id>, ids: seq<Id>)
    | VoidReap(asOf: Time, locked: set<Id>, ids: seq<Id>)
    | Dispatch(b: nat)
    | Finish(b: nat, i: nat, outcome: Outcome)
    | Lose(b: nat, i: nat, counted: bool)
    | Crash(b: nat)
    | Patch(id: Id, target: Status)
    | Delete(id: Id)
    | Find(client: nat, req: Request)
    | Insert(client: nat, id: Id)
    | Refresh(client: nat)
    | Refind(client: nat)

  ghost predicate Init(s: State) {
    && s.table == map[] && s.gone == map[] && s.batches == [] && s.clients == map[]
    && s.counters == ZERO && s.spurious == ZERO && s.life == map[]
  }

  /** Time passes only while no queued task could take a slot and no executor is overdue. */
  ghost predicate MayWait(cfg: Settings, batch: Batch, until: Time) {
    && (batch.next < |batch.ids| ==> |batch.live| >= cfg.Slots())
    && (forall i :: i in batch.live ==> until <= batch.live[i].start + cfg.executionTimeout)
  }

  ghost predicate Enabled(cfg: Settings, s: State, a: Action) {
    match a
    case Wait(until) =>
      s.clock <= until && forall b :: 0 <= b < |s.batches| ==> MayWait(cfg, s.batches[b], until)
    case Claim(asOf, locked, ids) =>
      && s.clock - cfg.overhead <= asOf <= s.clock
      && OldestDue(s.table, asOf, locked, cfg.batchSize, ids)
    case Reap(asOf, locked, ids) =>
      && asOf <= s.clock
      && SomeStale(s.table, asOf, cfg.staleTimeout, locked, cfg.batchSize, ids)
    case VoidReap(asOf, locked, ids) =>
      && asOf <= s.clock
      && SomeStale(s.table, asOf, cfg.staleTimeout, locked, cfg.batchSize, ids)
    case Dispatch(b) =>
      b < |s.batches| && s.batches[b].next < |s.batches[b].ids| && |s.batches[b].live| < cfg.Slots()
    case Finish(b, i, outcome) =>
      && b < |s.batches| && i < |s.batches[b].ids| && i in s.batches[b].live
      && (outcome.Success? ==> !s.batches[b].live[i].snapshot.forceFail)
    case Lose(b, i, _) => b < |s.batches| && i in s.batches[b].live
    case Crash(b) => b < |s.batches|
    case Patch(id, target) => true
    case Delete(id) => id in s.table
    case Find(client, req) => client !in s.clients
    case Insert(client, id) =>
      client in s.clients && s.clients[client].Inserting? && id !in s.table && id !in s.gone
    case Refresh(client) => client in s.clients && s.clients[client].Inserted?
    case Refind(client) => client in s.clients && s.clients[client].Conflicted?
  }

  ghost predicate HasKey(t: Table, key: Option<string>) {
    key.Some? && exists x :: x in t && t[x].key == key
  }

  ghost function WithKey(t: Table, key: Option<string>): (x: Id)
    requires HasKey(t, key)
    ensures x in t && t[x].key == key
  {
    var x :| x in t && t[x].key == key;
    x
  }

  function ClaimRows(t: Table, ids: seq<Id>, asOf: Time): Table {
    map x | x in t :: if x in ids then t[x].(status := Running, updatedAt := asOf) else t[x]
  }

  function ReapRows(cfg: Settings, t: Table, ids: seq<Id>, asOf: Time, now: Time): Table {
    map x | x in t :: if x in ids then FailedRow(cfg, t[x], STALLED, now).(updatedAt := asOf) else t[x]
  }

  function ClaimLives(life: map<Id, Life>, ids: seq<Id>): map<Id, Life> {
    map x | x in life :: if x in ids then life[x].(claims := life[x].claims + 1) else life[x]
  }

  function Charged(l: Life, now: Time): Life {
    Life(l.notBefore, l.born, l.claims, l.failures + 1, if l.failures == 0 then now else l.firstFailure, now)
  }

  function ChargeLives(life: map<Id, Life>, ids: seq<Id>, now: Time): map<Id, Life> {
    map x | x in life :: if x in ids then Charged(life[x], now) else life[x]
  }

  /** The counter `_apply_failure` bumps. */
  function Count(cfg: Settings, c: Counters, row: Row): Counters {
    if row.retryCount + 1 > cfg.maxRetries then c.(dead := c.dead + 1) else c.(retried := c.retried + 1)
  }

  function CountReaped(cfg: Settings, c: Counters, t: Table, ids: seq<Id>): Counters
    requires forall i :: 0 <= i < |ids| ==> ids[i] in t
  {
    if ids == [] then c else
    var n := |ids| - 1;
    var d := CountReaped(cfg, c, t, ids[..n]);
    Count(cfg, d.(reclaimed := d.reclaimed + 1), t[ids[n]])
  }

  function NewRow(req: Request, now: Time): Row {
    Row(Pending, 0, if req.scheduledAt.Some? then req.scheduledAt.value else now,
        now, now, None, req.key, req.forceFail)
  }

  function PatchedRow(row: Row, target: Status, now: Time): Row {
    if row.status != target && CanTransition(row.status, target)
    then row.(status := target, updatedAt := now) else row
  }

  /** Drop position i from the executors of batch b. */
  function Freed(s: State, b: nat, i: nat): State
    requires b < |s.batches|
  {
    s.(batches := s.batches[b := s.batches[b].(live := s.batches[b].live - {i})])
  }

  /** A failure computed from `loaded` is counted, but no write of it commits. */
  function Miscount(cfg: Settings, s: State, loaded: Row): State {
    s.(counters := Count(cfg, s.counters, loaded), spurious := Count(cfg, s.spurious, loaded))
  }

  /** An executor's final transaction. It does not look at the row's status again. If the row is
      gone nothing is written; a failure has been counted by then, a success has not. */
  ghost function Record(cfg: Settings, s: State, b: nat, i: nat, outcome: Outcome): State
    requires Enabled(cfg, s, Finish(b, i, outcome))
  {
    var batch := s.batches[b];
    var x, loaded := batch.ids[i], batch.live[i].snapshot;
    var freed := Freed(s, b, i);
    if x !in s.table then
      if outcome.Failure? then Miscount(cfg, freed, loaded) else freed
    else
      freed.(
        table := s.table[x := Flush(s.table[x], loaded, Edited(cfg, loaded, outcome, s.clock), s.clock)],
        counters := if outcome.Failure? then Count(cfg, s.counters, loaded)
                    else s.counters.(succeeded := s.counters.succeeded + 1),
        life := if outcome.Failure? && x in s.life then s.life[x := Charged(s.life[x], s.clock)] else s.life)
  }

  /** The guard at the start of process_claimed_task: only a running row is executed. */
  ghost function Start(s: State, b: nat): Batch
    requires b < |s.batches| && s.batches[b].next < |s.batches[b].ids|
  {
    var batch := s.batches[b];
    var x := batch.ids[batch.next];
    if x in s.table && s.table[x].status == Running then
      batch.(next := batch.next + 1, live := batch.live[batch.next := Exec(s.table[x], s.clock)])
    else
      batch.(next := batch.next + 1)
  }

  ghost function Apply(cfg: Settings, s: State, a: Action): State
    requires Enabled(cfg, s, a)
  {
    match a
    case Wait(until) => s.(clock := until)
    case Claim(asOf, locked, ids) =>
      s.(table := ClaimRows(s.table, ids, asOf),
         batches := s.batches + [Batch(asOf, s.clock, ids, 0, map[])],
         counters := s.counters.(claimed := s.counters.claimed + |ids|),
         life := ClaimLives(s.life, ids))
    case Reap(asOf, locked, ids) =>
      s.(table := ReapRows(cfg, s.table, ids, asOf, s.clock),
         counters := CountReaped(cfg, s.counters, s.table, ids),
         life := ChargeLives(s.life, ids, s.clock))
    case VoidReap(asOf, locked, ids) =>
      s.(counters := CountReaped(cfg, s.counters, s.table, ids), spurious := CountReaped(cfg, s.spurious, s.table, ids))
    case Dispatch(b) => s.(batches := s.batches[b := Start(s, b)])
    case Finish(b, i, outcome) => Record(cfg, s, b, i, outcome)
    case Lose(b, i, counted) =>
      if counted then Miscount(cfg, Freed(s, b, i), s.batches[b].live[i].snapshot) else Freed(s, b, i)
    case Crash(b) =>
      var batch := s.batches[b];
      s.(batches := s.batches[b := batch.(next := |batch.ids|, live := map[])])
    case Patch(id, target) =>
      if id in s.table then s.(table := s.table[id := PatchedRow(s.table[id], target, s.clock)]) else s
    case Delete(id) => s.(table := s.table - {id}, gone := s.gone[id := s.table[id]])
    case Find(client, req) =>
      s.(clients := s.clients[client :=
           if HasKey(s.table, req.key) then Returned(req, WithKey(s.table, req.key)) else Inserting(req)])
    case Insert(client, id) =>
      var req := s.clients[client].req;
      if HasKey(s.table, req.key) then
        s.(clients := s.clients[client := Conflicted(req, WithKey(s.table, req.key))])
      else
        s.(table := s.table[id := NewRow(req, s.clock)],
           clients := s.clients[client := Inserted(req, id)],
           life := s.life[id := Life(req.scheduledAt.GetOr(s.clock), s.clock, 0, 0, s.clock, s.clock)])
    case Refresh(client) =>
      var p := s.clients[client];
      if p.id in s.table then
        s.(clients := s.clients[client := Returned(p.req, p.id)],
           counters := s.counters.(created := s.counters.created + 1))
      else
        s.(clients := s.clients[client := LostOwnRow(p.req, p.id)])
    case Refind(client) =>
      var req := s.clients[client].req;
      s.(clients := s.clients[client :=
           if HasKey(s.table, req.key) then Returned(req, WithKey(s.table, req.key))
           else Raised(req, s.clients[client].winner)])
  }

  /* Frames: what the kinds of step leave alone. */

  /** A step of batch b's own: dispatch, outcome, loss or crash. */
  ghost predicate Executes(a: Action) { a.Dispatch? || a.Finish? || a.Lose? || a.Crash? }

  lemma FinishBatches(cfg: Settings, s: State, b: nat, i: nat, outcome: Outcome)
    requires Enabled(cfg, s, Finish(b, i, outcome))
    ensures var t := Record(cfg, s, b, i, outcome); t.clock == s.clock && t.batches == Freed(s, b, i).batches
  {
  }

  lemma LoseBatches(cfg: Settings, s: State, b: nat, i: nat, counted: bool)
    requires Enabled(cfg, s, Lose(b, i, counted))
    ensures var t := Apply(cfg, s, Lose(b, i, counted)); t.clock == s.clock && t.batches == Freed(s, b, i).batches
  {
  }

  /** What such a step does to the batches. */
  lemma ExecutorFrame(cfg: Settings, s: State, a: Action)
    requires Enabled(cfg, s, a) && Executes(a)
    ensures var t := Apply(cfg, s, a);
      && t.clock == s.clock && a.b < |s.batches| && |t.batches| == |s.batches|
      && t.batches == s.batches[a.b := t.batches[a.b]]
      && var batch := s.batches[a.b];
         t.batches[a.b] == match a
           case Dispatch(_) => Start(s, a.b)
           case Crash(_) => batch.(next := |batch.ids|, live := map[])
           case _ => batch.(live := batch.live - {a.i})
  {
    match a
    case Finish(b, i, outcome) => FinishBatches(cfg, s, b, i, outcome);
    case Lose(b, i, counted) => LoseBatches(cfg, s, b, i, counted);
    case _ =>
  }

  /** Unless it is an outcome, it writes no row. */
  lemma ExecutorWritesNothing(cfg: Settings, s: State, a: Action)
    requires Enabled(cfg, s, a) && (a.Dispatch? || a.Lose? || a.Crash?)
    ensures var t := Apply(cfg, s, a); t.table == s.table && t.gone == s.gone && t.clients == s.clients
  {
  }

  /** No other step but a claim touches the batches. */
  lemma BatchesFrame(cfg: Settings, s: State, a: Action)
    requires Enabled(cfg, s, a) && !Executes(a) && !a.Claim?
    ensures Apply(cfg, s, a).batches == s.batches
    ensures Apply(cfg, s, a).clock == if a.Wait? then a.until else s.clock
  {
  }

  /** Steps that leave the table alone. */
  lemma TableFrame(cfg: Settings, s: State, a: Action)
    requires Enabled(cfg, s, a)
    requires a.Wait? || a.VoidReap? || a.Find? || a.Refresh? || a.Refind?
    ensures Apply(cfg, s, a).table == s.table && Apply(cfg, s, a).gone == s.gone
  {
  }

  lemma ClockMovesOn(cfg: Settings, s: State, a: Action)
    requires Enabled(cfg, s, a)
    ensures s.clock <= Apply(cfg, s, a).clock && (!a.Wait? ==> Apply(cfg, s, a).clock == s.clock)
  {
    if Executes(a) { ExecutorFrame(cfg, s, a); } else if !a.Claim? { BatchesFrame(cfg, s, a); }
  }

  /** What an outcome does to the table. */
  lemma FinishFrame(cfg: Settings, s: State, a: Action)
    requires Enabled(cfg, s, a) && a.Finish?
    ensures var t := Apply(cfg, s, a); var x, loaded := s.batches[a.b].ids[a.i], s.batches[a.b].live[a.i].snapshot;
      t.table == if x in s.table
                 then s.table[x := Flush(s.table[x], loaded, Edited(cfg, loaded, a.outcome, s.clock), s.clock)]
                 else s.table
    ensures Apply(cfg, s, a).gone == s.gone && Apply(cfg, s, a).clients == s.clients
  {
  }

  /* Runs: an initial state and a sequence of actions, each enabled where it is taken. */

  ghost predicate Legal(cfg: Settings, s: State, acts: seq<Action>)
    decreases |acts|
  {
    acts == [] || (Enabled(cfg, s, acts[0]) && Legal(cfg, Apply(cfg, s, acts[0]), acts[1..]))
  }

  ghost function After(cfg: Settings, s: State, acts: seq<Action>): State
    requires Legal(cfg, s, acts)
    decreases |acts|
  {
    if acts == [] then s else After(cfg, Apply(cfg, s, acts[0]), acts[1..])
  }

  /** Every action of the run satisfies p in the state where it is taken. */
  ghost predicate Throughout(cfg: Settings, s: State, acts: seq<Action>, p: (State, Action) -> bool)
    requires Legal(cfg, s, acts)
    decreases |acts|
  {
    acts == [] || (p(s, acts[0]) && Throughout(cfg, Apply(cfg, s, acts[0]), acts[1..], p))
  }

  /** No PATCH changes a running row. */
  ghost predicate SparesRunning(s: State, a: Action) {
    a.Patch? && a.id in s.table && s.table[a.id].status == Running ==> !CanTransition(Running, a.target)
  }

  /** How many claims and reaps a run has. */
  function Claims(acts: seq<Action>): nat {
    if acts == [] then 0 else
    Claims(acts[..|acts| - 1]) + if acts[|acts| - 1].Claim? then 1 else 0
  }

  function Reaps(acts: seq<Action>): nat {
    if acts == [] then 0 else
    Reaps(acts[..|acts| - 1]) + if acts[|acts| - 1].Reap? then 1 else 0
  }

  ghost predicate NoPatch(s: State, a: Action) { !a.Patch? }

  lemma {:induction false} RunExtend(cfg: Settings, s: State, acts: seq<Action>, a: Action, p: (State, Action) -> bool)
    requires Legal(cfg, s, acts) && Throughout(cfg, s, acts, p)
    requires Enabled(cfg, After(cfg, s, acts), a) && p(After(cfg, s, acts), a)
    ensures Legal(cfg, s, acts + [a]) && Throughout(cfg, s, acts + [a], p)
    ensures After(cfg, s, acts + [a]) == Apply(cfg, After(cfg, s, acts), a)
    decreases |acts|
  {
    if acts == [] {
      assert (acts + [a])[1..] == [];
    } else {
      RunExtend(cfg, Apply(cfg, s, acts[0]), acts[1..], a, p);
      assert (acts + [a])[1..] == acts[1..] + [a];
    }
  }
}
