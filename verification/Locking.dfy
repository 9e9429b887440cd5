/** Claims and reaps lock by lock: SELECT ... FOR UPDATE SKIP LOCKED visits its snapshot row by row,
    skips what others hold and what has changed, and commits later. Every such interleaving is a
    run of the protocol's atomic claims and reaps. */
module Locking {
  import opened Tasks
  import opened Retry
  import opened Protocol
  import opened Ownership
  import opened Refinement
  import opened Measure
  import opened Sums

  /** An open claim or reap: the rows its snapshot found at `asOf`, in scan order and with their
      scheduled times, the scan position, and the rows locked so far, by position. */
  datatype Txn = Txn(claiming: bool, asOf: Time, order: seq<Id>, due: seq<Time>, pos: nat, picks: seq<nat>)
  {
    /** The rows this transaction has locked. */
    function Locks(): seq<Id> {
      seq(|picks|, i requires 0 <= i < |picks| => if picks[i] < |order| then order[picks[i]] else 0)
    }
  }

  /** The protocol with its open transactions; `released` are the rows that a transaction had locked
      when it rolled back. */
  datatype Locked = Locked(s: State, txns: map<nat, Txn>, released: set<Id>)

  /** `Void` is a reap that has counted its failures when its commit fails. */
  datatype Move =
    | Begin(t: nat, claiming: bool, order: seq<Id>)
    | Visit(t: nat)
    | Commit(t: nat)
    | Abort(t: nat)
    | Void(t: nat)
    | Other(a: Action)

  predicate Qualifies(cfg: Settings, claiming: bool, asOf: Time, row: Row) {
    if claiming then Due(row, asOf) else Stale(row, asOf, cfg.staleTimeout)
  }

  predicate Holding(txn: Txn, x: Id) {
    exists i :: 0 <= i < |txn.picks| && txn.picks[i] < |txn.order| && txn.order[txn.picks[i]] == x
  }

  ghost predicate HeldByOther(l: Locked, t: nat, x: Id) {
    exists u :: u in l.txns && u != t && Holding(l.txns[u], x)
  }

  ghost predicate Free(l: Locked, x: Id) {
    forall u :: u in l.txns ==> !Holding(l.txns[u], x)
  }

  /** A row lock blocks every other writer of the row. */
  ghost predicate WritesFree(l: Locked, a: Action) {
    match a
    case Finish(b, i, _) => b < |l.s.batches| && i < |l.s.batches[b].ids| && Free(l, Holds(l.s, b, i))
    case Patch(id, _) => Free(l, id)
    case Delete(id) => Free(l, id)
    case _ => true
  }

  /** The scan is over: nothing is left to visit, or the limit is reached. */
  predicate Scanned(cfg: Settings, txn: Txn) {
    txn.pos >= |txn.order| || |txn.picks| == cfg.batchSize
  }

  ghost predicate May(cfg: Settings, l: Locked, m: Move) {
    match m
    case Begin(t, claiming, order) =>
      && t !in l.txns && Distinct(order)
      && (forall i :: 0 <= i < |order| ==> order[i] in l.s.table)
      && (forall x :: x in l.s.table ==> (x in order <==> Qualifies(cfg, claiming, l.s.clock, l.s.table[x])))
      && (claiming ==> forall i, j :: 0 <= i < j < |order| ==> l.s.table[order[i]].scheduledAt <= l.s.table[order[j]].scheduledAt)
    case Visit(t) => t in l.txns && l.txns[t].pos < |l.txns[t].order| && |l.txns[t].picks| < cfg.batchSize
    case Commit(t) => t in l.txns && Scanned(cfg, l.txns[t])
    case Abort(t) => t in l.txns
    case Void(t) => t in l.txns && !l.txns[t].claiming && Scanned(cfg, l.txns[t])
    case Other(a) =>
      && Enabled(cfg, l.s, a) && !a.Claim? && !a.Reap? && !a.VoidReap? && WritesFree(l, a)
      && (a.Wait? ==> forall u :: u in l.txns && l.txns[u].claiming ==> a.until <= l.txns[u].asOf + cfg.overhead)
  }

  /** The row is skipped when another transaction holds it or it no longer qualifies. */
  ghost function Visited(cfg: Settings, l: Locked, t: nat): Txn
    requires May(cfg, l, Visit(t))
  {
    var txn := l.txns[t];
    var x := txn.order[txn.pos];
    if x in l.s.table && Qualifies(cfg, txn.claiming, txn.asOf, l.s.table[x]) && !HeldByOther(l, t, x)
    then txn.(pos := txn.pos + 1, picks := txn.picks + [txn.pos])
    else txn.(pos := txn.pos + 1)
  }

  predicate Unscanned(txn: Txn, x: Id) {
    exists k :: txn.pos <= k < |txn.order| && txn.order[k] == x
  }

  /** Qualifying rows that the transaction has scanned without locking, or never saw. */
  ghost function Skipped(cfg: Settings, s: State, txn: Txn): set<Id> {
    set x | x in s.table && Qualifies(cfg, txn.claiming, txn.asOf, s.table[x]) && !Holding(txn, x) && !Unscanned(txn, x)
  }

  /** The atomic action a commit stands for. */
  ghost function Atomic(cfg: Settings, s: State, txn: Txn): Action {
    if txn.claiming then Claim(txn.asOf, Skipped(cfg, s, txn), txn.Locks())
    else Reap(txn.asOf, Skipped(cfg, s, txn), txn.Locks())
  }

  /** And a reap whose commit fails after it. */
  ghost function Voided(cfg: Settings, s: State, txn: Txn): Action {
    VoidReap(txn.asOf, Skipped(cfg, s, txn), txn.Locks())
  }

  /* Invariant of open transactions */

  ghost predicate TxnOk(cfg: Settings, s: State, txn: Txn) {
    && txn.pos <= |txn.order| && |txn.due| == |txn.order| && Distinct(txn.order) && |txn.picks| <= cfg.batchSize
    && txn.asOf <= s.clock && (txn.claiming ==> s.clock <= txn.asOf + cfg.overhead)
    && (forall i :: 0 <= i < |txn.picks| ==> txn.picks[i] < txn.pos)
    && (forall i, j :: 0 <= i < j < |txn.picks| ==> txn.picks[i] < txn.picks[j])
    && (forall i :: 0 <= i < |txn.picks| ==> LockOk(cfg, s, txn, txn.picks[i]))
    && (txn.claiming ==> forall i, j :: 0 <= i < j < |txn.due| ==> txn.due[i] <= txn.due[j])
    && (forall k :: 0 <= k < |txn.order| ==> ScanOk(s, txn, k))
  }

  /** A locked row still is as the query wanted it. */
  ghost predicate LockOk(cfg: Settings, s: State, txn: Txn, k: nat) {
    k < |txn.order| && txn.order[k] in s.table && Qualifies(cfg, txn.claiming, txn.asOf, s.table[txn.order[k]])
  }

  /** A scanned row has its scheduled time, unless it was put off beyond the query's clock. */
  ghost predicate ScanOk(s: State, txn: Txn, k: nat) {
    k < |txn.order| && k < |txn.due|
    && (txn.order[k] in s.table || txn.order[k] in s.gone)
    && (txn.order[k] in s.table ==>
          s.table[txn.order[k]].scheduledAt == txn.due[k] || s.table[txn.order[k]].scheduledAt > txn.asOf)
  }

  ghost predicate LocksOk(cfg: Settings, l: Locked) {
    && Apart(l.s)
    && (forall t :: t in l.txns ==> TxnOk(cfg, l.s, l.txns[t]))
    && (forall t, u, x :: t in l.txns && u in l.txns && Holding(l.txns[t], x) && Holding(l.txns[u], x) ==> t == u)
  }

  /** The commit of a scan is an atomic claim or reap: no row twice, at most B of them, all still
      qualifying, oldest first, and full unless every row it left out was skipped. */
  lemma CommitIsAtomic(cfg: Settings, s: State, txn: Txn)
    requires TxnOk(cfg, s, txn) && Scanned(cfg, txn)
    ensures Enabled(cfg, s, Atomic(cfg, s, txn))
  {
    var ids, skipped := txn.Locks(), Skipped(cfg, s, txn);
    forall i | 0 <= i < |ids|
      ensures ids[i] in s.table && ids[i] !in skipped && Qualifies(cfg, txn.claiming, txn.asOf, s.table[ids[i]])
    {
      assert LockOk(cfg, s, txn, txn.picks[i]) && Holding(txn, ids[i]);
    }
    forall y | y in s.table && y !in skipped && Qualifies(cfg, txn.claiming, txn.asOf, s.table[y]) && y !in ids
      ensures |ids| == cfg.batchSize
      ensures txn.claiming ==> forall i :: 0 <= i < |ids| ==> s.table[ids[i]].scheduledAt <= s.table[y].scheduledAt
    {
      UnscannedIsLater(cfg, s, txn, y);
    }
    if txn.claiming {
      forall i, j | 0 <= i < j < |ids| ensures s.table[ids[i]].scheduledAt <= s.table[ids[j]].scheduledAt {
        assert ScanOk(s, txn, txn.picks[i]) && ScanOk(s, txn, txn.picks[j]);
      }
    }
  }

  lemma HoldingIsLocking(cfg: Settings, s: State, txn: Txn, x: Id)
    requires TxnOk(cfg, s, txn)
    ensures Holding(txn, x) <==> x in txn.Locks()
  {
    if Holding(txn, x) {
      var i :| 0 <= i < |txn.picks| && txn.picks[i] < |txn.order| && txn.order[txn.picks[i]] == x;
      assert txn.Locks()[i] == x;
    }
    if x in txn.Locks() {
      var i :| 0 <= i < |txn.Locks()| && txn.Locks()[i] == x;
      assert txn.order[txn.picks[i]] == x;
    }
  }

  lemma UnscannedIsLater(cfg: Settings, s: State, txn: Txn, y: Id)
    requires TxnOk(cfg, s, txn) && Scanned(cfg, txn)
    requires y in s.table && y !in Skipped(cfg, s, txn) && Qualifies(cfg, txn.claiming, txn.asOf, s.table[y]) && y !in txn.Locks()
    ensures |txn.picks| == cfg.batchSize
    ensures txn.claiming ==> forall i :: 0 <= i < |txn.picks| ==>
              txn.order[txn.picks[i]] in s.table && s.table[txn.order[txn.picks[i]]].scheduledAt <= s.table[y].scheduledAt
  {
    HoldingIsLocking(cfg, s, txn, y);
    var k: nat :| txn.pos <= k < |txn.order| && txn.order[k] == y;
    assert ScanOk(s, txn, k);
    if txn.claiming {
      forall i | 0 <= i < |txn.picks|
        ensures txn.order[txn.picks[i]] in s.table && s.table[txn.order[txn.picks[i]]].scheduledAt <= s.table[y].scheduledAt
      {
        assert LockOk(cfg, s, txn, txn.picks[i]) && ScanOk(s, txn, txn.picks[i]);
      }
    }
  }

  /** A commit whose atomic action were not enabled would change nothing; CommitIsAtomic shows that
      there is none. */
  ghost function Try(cfg: Settings, s: State, a: Action): State {
    if Enabled(cfg, s, a) then Apply(cfg, s, a) else s
  }

  ghost function Step(cfg: Settings, l: Locked, m: Move): Locked
    requires May(cfg, l, m)
  {
    match m
    case Begin(t, claiming, order) =>
      var due := seq(|order|, i requires 0 <= i < |order| => l.s.table[order[i]].scheduledAt);
      l.(txns := l.txns[t := Txn(claiming, l.s.clock, order, due, 0, [])])
    case Visit(t) => l.(txns := l.txns[t := Visited(cfg, l, t)])
    case Commit(t) => l.(s := Try(cfg, l.s, Atomic(cfg, l.s, l.txns[t])), txns := l.txns - {t})
    case Abort(t) => l.(txns := l.txns - {t}, released := l.released + Elements(l.txns[t].Locks()))
    case Void(t) =>
      Locked(Try(cfg, l.s, Voided(cfg, l.s, l.txns[t])), l.txns - {t}, l.released + Elements(l.txns[t].Locks()))
    case Other(a) => l.(s := Apply(cfg, l.s, a))
  }

  /* Preservation */

  /** What any step does to a row's scheduled time: nothing, or it moves beyond the clock. */
  lemma ScheduleMovesOn(cfg: Settings, s: State, a: Action, x: Id)
    requires cfg.Valid() && Enabled(cfg, s, a) && x in s.table && x in Apply(cfg, s, a).table
    ensures var r := Apply(cfg, s, a).table[x].scheduledAt; r == s.table[x].scheduledAt || r > s.clock
  {
    if a.Finish? {
      FinishFrame(cfg, s, a);
    } else if Executes(a) {
      ExecutorWritesNothing(cfg, s, a);
    } else if a.Wait? || a.VoidReap? || a.Find? || a.Refresh? || a.Refind? {
      TableFrame(cfg, s, a);
    }
  }

  lemma GoneOrThere(cfg: Settings, s: State, a: Action)
    requires Enabled(cfg, s, a) && Apart(s)
    ensures var t := Apply(cfg, s, a);
      && Apart(t) && s.clock <= t.clock
      && (forall x :: x in s.table || x in s.gone ==> x in t.table || x in t.gone)
      && (forall x :: (x in s.table || x in s.gone) && x in t.table ==> x in s.table)
  {
    ClockMovesOn(cfg, s, a);
    ApartStep(cfg, s, a);
    if !a.Delete? && !a.Insert? { KeysFrame(cfg, s, a); }
  }

  /** The rows a step rewrites or removes. */
  ghost predicate Touches(s: State, a: Action, x: Id) {
    match a
    case Claim(_, _, ids) => x in ids
    case Reap(_, _, ids) => x in ids
    case Finish(b, i, _) => b < |s.batches| && i < |s.batches[b].ids| && Holds(s, b, i) == x
    case Patch(id, _) => id == x
    case Delete(id) => id == x
    case _ => false
  }

  lemma UntouchedKept(cfg: Settings, s: State, a: Action, x: Id)
    requires Enabled(cfg, s, a) && x in s.table && !Touches(s, a, x)
    ensures x in Apply(cfg, s, a).table && Apply(cfg, s, a).table[x] == s.table[x]
  {
  }

  /** An open transaction survives any protocol step that leaves its locked rows alone. */
  lemma TxnSurvives(cfg: Settings, s: State, a: Action, txn: Txn)
    requires cfg.Valid() && Apart(s) && TxnOk(cfg, s, txn) && Enabled(cfg, s, a)
    requires forall x :: Holding(txn, x) ==> !Touches(s, a, x)
    requires a.Wait? && txn.claiming ==> a.until <= txn.asOf + cfg.overhead
    ensures TxnOk(cfg, Apply(cfg, s, a), txn)
  {
    var t := Apply(cfg, s, a);
    GoneOrThere(cfg, s, a);
    assert !a.Wait? ==> t.clock == s.clock;
    forall i | 0 <= i < |txn.picks| ensures LockOk(cfg, t, txn, txn.picks[i]) {
      var x := txn.order[txn.picks[i]];
      assert LockOk(cfg, s, txn, txn.picks[i]) && Holding(txn, x);
      UntouchedKept(cfg, s, a, x);
    }
    forall k | 0 <= k < |txn.order| ensures ScanOk(t, txn, k) {
      assert ScanOk(s, txn, k);
      if txn.order[k] in t.table { ScheduleMovesOn(cfg, s, a, txn.order[k]); }
    }
  }

  lemma BeginOk(cfg: Settings, l: Locked, m: Move)
    requires LocksOk(cfg, l) && May(cfg, l, m) && m.Begin?
    ensures LocksOk(cfg, Step(cfg, l, m))
  {
  }

  lemma VisitTxnOk(cfg: Settings, l: Locked, t: nat)
    requires LocksOk(cfg, l) && May(cfg, l, Visit(t))
    ensures TxnOk(cfg, l.s, Visited(cfg, l, t))
  {
    var before, after := l.txns[t], Visited(cfg, l, t);
    forall i | 0 <= i < |after.picks| ensures LockOk(cfg, l.s, after, after.picks[i]) {
      if i < |before.picks| { assert LockOk(cfg, l.s, before, before.picks[i]); }
    }
    forall k | 0 <= k < |after.order| ensures ScanOk(l.s, after, k) { assert ScanOk(l.s, before, k); }
  }

  lemma VisitHolds(cfg: Settings, l: Locked, t: nat, x: Id)
    requires May(cfg, l, Visit(t))
    ensures Holding(l.txns[t], x) ==> Holding(Visited(cfg, l, t), x)
    ensures Holding(Visited(cfg, l, t), x) ==>
              Holding(l.txns[t], x) || (x == l.txns[t].order[l.txns[t].pos] && !HeldByOther(l, t, x))
  {
    var before, after := l.txns[t], Visited(cfg, l, t);
    if Holding(before, x) {
      var i :| 0 <= i < |before.picks| && before.picks[i] < |before.order| && before.order[before.picks[i]] == x;
      assert after.picks[i] == before.picks[i];
    }
    if Holding(after, x) {
      var i :| 0 <= i < |after.picks| && after.picks[i] < |after.order| && after.order[after.picks[i]] == x;
      if i < |before.picks| { assert before.picks[i] == after.picks[i]; }
    }
  }

  lemma VisitOk(cfg: Settings, l: Locked, m: Move)
    requires LocksOk(cfg, l) && May(cfg, l, m) && m.Visit?
    ensures LocksOk(cfg, Step(cfg, l, m))
  {
    VisitTxnOk(cfg, l, m.t);
    forall x ensures Holding(Visited(cfg, l, m.t), x) ==> Holding(l.txns[m.t], x) || !HeldByOther(l, m.t, x) {
      VisitHolds(cfg, l, m.t, x);
    }
  }

  lemma CommitOk(cfg: Settings, l: Locked, m: Move)
    requires cfg.Valid() && LocksOk(cfg, l) && May(cfg, l, m) && m.Commit?
    ensures LocksOk(cfg, Step(cfg, l, m))
  {
    var txn := l.txns[m.t];
    CommitIsAtomic(cfg, l.s, txn);
    var a := Atomic(cfg, l.s, txn);
    GoneOrThere(cfg, l.s, a);
    forall u | u in l.txns && u != m.t ensures TxnOk(cfg, Apply(cfg, l.s, a), l.txns[u]) {
      forall x | Holding(l.txns[u], x) ensures !Touches(l.s, a, x) {
        HoldingIsLocking(cfg, l.s, txn, x);
      }
      TxnSurvives(cfg, l.s, a, l.txns[u]);
    }
  }

  /** Taking a transaction away leaves the others as they are. */
  lemma AbortOk(cfg: Settings, l: Locked, m: Move)
    requires LocksOk(cfg, l) && May(cfg, l, m) && m.Abort?
    ensures LocksOk(cfg, Step(cfg, l, m))
  {
  }

  lemma VoidIsEnabled(cfg: Settings, s: State, txn: Txn)
    requires TxnOk(cfg, s, txn) && Scanned(cfg, txn) && !txn.claiming
    ensures Enabled(cfg, s, Voided(cfg, s, txn))
    ensures var t := Apply(cfg, s, Voided(cfg, s, txn)); t.table == s.table && t.gone == s.gone && t.clock == s.clock
  {
    CommitIsAtomic(cfg, s, txn);
    TableFrame(cfg, s, Voided(cfg, s, txn));
    BatchesFrame(cfg, s, Voided(cfg, s, txn));
  }

  lemma SameTableOk(cfg: Settings, s: State, t: State, txn: Txn)
    requires TxnOk(cfg, s, txn) && t.table == s.table && t.gone == s.gone && t.clock == s.clock
    ensures TxnOk(cfg, t, txn)
  {
    forall i | 0 <= i < |txn.picks| ensures LockOk(cfg, t, txn, txn.picks[i]) { assert LockOk(cfg, s, txn, txn.picks[i]); }
    forall k | 0 <= k < |txn.order| ensures ScanOk(t, txn, k) { assert ScanOk(s, txn, k); }
  }

  lemma VoidOk(cfg: Settings, l: Locked, m: Move)
    requires LocksOk(cfg, l) && May(cfg, l, m) && m.Void?
    ensures LocksOk(cfg, Step(cfg, l, m))
  {
    VoidIsEnabled(cfg, l.s, l.txns[m.t]);
    forall u | u in l.txns ensures TxnOk(cfg, Step(cfg, l, m).s, l.txns[u]) {
      SameTableOk(cfg, l.s, Step(cfg, l, m).s, l.txns[u]);
    }
  }

  lemma OtherOk(cfg: Settings, l: Locked, m: Move)
    requires cfg.Valid() && LocksOk(cfg, l) && May(cfg, l, m) && m.Other?
    ensures LocksOk(cfg, Step(cfg, l, m))
  {
    GoneOrThere(cfg, l.s, m.a);
    forall u | u in l.txns ensures TxnOk(cfg, Apply(cfg, l.s, m.a), l.txns[u]) {
      assert forall x :: Holding(l.txns[u], x) ==> !Touches(l.s, m.a, x);
      TxnSurvives(cfg, l.s, m.a, l.txns[u]);
    }
  }

  lemma LocksStep(cfg: Settings, l: Locked, m: Move)
    requires cfg.Valid() && LocksOk(cfg, l) && May(cfg, l, m)
    ensures LocksOk(cfg, Step(cfg, l, m))
  {
    match m
    case Begin(_, _, _) => BeginOk(cfg, l, m);
    case Visit(_) => VisitOk(cfg, l, m);
    case Commit(_) => CommitOk(cfg, l, m);
    case Abort(_) => AbortOk(cfg, l, m);
    case Void(_) => VoidOk(cfg, l, m);
    case Other(_) => OtherOk(cfg, l, m);
  }

  /* Whole runs */

  ghost predicate LegalMoves(cfg: Settings, l: Locked, ms: seq<Move>)
    decreases |ms|
  {
    ms == [] || (May(cfg, l, ms[0]) && LegalMoves(cfg, Step(cfg, l, ms[0]), ms[1..]))
  }

  ghost function AfterMoves(cfg: Settings, l: Locked, ms: seq<Move>): Locked
    requires LegalMoves(cfg, l, ms)
    decreases |ms|
  {
    if ms == [] then l else AfterMoves(cfg, Step(cfg, l, ms[0]), ms[1..])
  }

  ghost predicate ThroughoutMoves(cfg: Settings, l: Locked, ms: seq<Move>, p: (Locked, Move) -> bool)
    requires LegalMoves(cfg, l, ms)
    decreases |ms|
  {
    ms == [] || (p(l, ms[0]) && ThroughoutMoves(cfg, Step(cfg, l, ms[0]), ms[1..], p))
  }

  /** The atomic actions of a run, in commit order. */
  ghost function Trace(cfg: Settings, l: Locked, ms: seq<Move>): seq<Action>
    requires LegalMoves(cfg, l, ms)
    decreases |ms|
  {
    if ms == [] then [] else
    (match ms[0]
     case Commit(t) => [Atomic(cfg, l.s, l.txns[t])]
     case Void(t) => [Voided(cfg, l.s, l.txns[t])]
     case Other(a) => [a]
     case _ => [])
    + Trace(cfg, Step(cfg, l, ms[0]), ms[1..])
  }

  /** No transaction is open yet. */
  function Open(s: State): Locked { Locked(s, map[], {}) }

  ghost predicate MoveSparesRunning(l: Locked, m: Move) { m.Other? ==> SparesRunning(l.s, m.a) }

  lemma {:induction false} TraceRuns(cfg: Settings, l: Locked, ms: seq<Move>)
    requires cfg.Valid() && LocksOk(cfg, l) && LegalMoves(cfg, l, ms) && ThroughoutMoves(cfg, l, ms, MoveSparesRunning)
    ensures LocksOk(cfg, AfterMoves(cfg, l, ms))
    ensures Legal(cfg, l.s, Trace(cfg, l, ms)) && After(cfg, l.s, Trace(cfg, l, ms)) == AfterMoves(cfg, l, ms).s
    ensures Throughout(cfg, l.s, Trace(cfg, l, ms), SparesRunning)
    decreases |ms|
  {
    if ms != [] {
      var m, n := ms[0], Step(cfg, l, ms[0]);
      LocksStep(cfg, l, m);
      TraceRuns(cfg, n, ms[1..]);
      var rest := Trace(cfg, n, ms[1..]);
      if m.Commit? {
        CommitIsAtomic(cfg, l.s, l.txns[m.t]);
        assert Trace(cfg, l, ms)[1..] == rest;
      } else if m.Void? {
        VoidIsEnabled(cfg, l.s, l.txns[m.t]);
        assert Trace(cfg, l, ms)[1..] == rest;
      } else if m.Other? {
        assert Trace(cfg, l, ms)[1..] == rest;
      } else {
        assert Trace(cfg, l, ms) == rest;
      }
    }
  }

  /** SKIP LOCKED is enough: any interleaving of lock-by-lock claims and reaps with everything else
      is a run of atomic ones, so under the timing hypothesis executors own their rows in it too;
      and no two open transactions hold one row. */
  lemma InterleavingsAreAtomic(cfg: Settings, s: State, ms: seq<Move>)
    requires cfg.Valid() && cfg.Exclusive() && Init(s)
    requires LegalMoves(cfg, Open(s), ms) && ThroughoutMoves(cfg, Open(s), ms, MoveSparesRunning)
    ensures var l := AfterMoves(cfg, Open(s), ms); var acts := Trace(cfg, Open(s), ms);
      && Legal(cfg, s, acts) && After(cfg, s, acts) == l.s
      && OneExecutorPerRow(l.s) && Intact(l.s)
      && (forall t, u, x :: t in l.txns && u in l.txns && Holding(l.txns[t], x) && Holding(l.txns[u], x) ==> t == u)
  {
    TraceRuns(cfg, Open(s), ms);
    ExclusiveOwnership(cfg, s, Trace(cfg, Open(s), ms));
  }

  /* What a claim or a reap leaves behind */

  /** Position k was scanned and not locked, and its row still is as the query wants it. */
  ghost predicate PassedOver(cfg: Settings, s: State, txn: Txn, k: nat) {
    && k < |txn.order| && k < txn.pos && !Holding(txn, txn.order[k])
    && txn.order[k] in s.table && Qualifies(cfg, txn.claiming, txn.asOf, s.table[txn.order[k]])
  }

  /** Someone else has it locked, or had when rolling back. */
  ghost predicate Taken(l: Locked, t: nat, x: Id) { HeldByOther(l, t, x) || x in l.released }

  /** Every wanted row a transaction has passed over is in other hands. */
  ghost predicate InOtherHands(cfg: Settings, l: Locked, t: nat)
    requires t in l.txns
  {
    forall k: nat :: PassedOver(cfg, l.s, l.txns[t], k) ==> Taken(l, t, l.txns[t].order[k])
  }

  ghost predicate AllInOtherHands(cfg: Settings, l: Locked) {
    forall t :: t in l.txns ==> InOtherHands(cfg, l, t)
  }

  ghost predicate MoveIsNoPatch(l: Locked, m: Move) { m.Other? ==> NoPatch(l.s, m.a) }

  lemma FinishWantsNoMore(cfg: Settings, s: State, a: Action, x: Id, claiming: bool, asOf: Time)
    requires cfg.Valid() && Owned(s) && Enabled(cfg, s, a) && a.Finish? && asOf <= s.clock
    requires x in s.table && x in Apply(cfg, s, a).table && Qualifies(cfg, claiming, asOf, Apply(cfg, s, a).table[x])
    ensures Apply(cfg, s, a).table[x] == s.table[x]
  {
    OutcomeIsNotStale(cfg, s, a);
    var y := Holds(s, a.b, a.i);
    if a.outcome.Failure? && y in s.table {
      FailureOutcomes(cfg, s.table[y], a.outcome.error, s.clock);
    }
  }

  lemma BulkWantsNoMore(cfg: Settings, s: State, a: Action, x: Id, claiming: bool, asOf: Time)
    requires cfg.Valid() && cfg.Exclusive() && Enabled(cfg, s, a) && (a.Claim? || a.Reap?) && asOf <= s.clock
    requires x in s.table && x in Apply(cfg, s, a).table && x in a.ids
    ensures !Qualifies(cfg, claiming, asOf, Apply(cfg, s, a).table[x])
  {
    if a.Reap? { FailureOutcomes(cfg, s.table[x], STALLED, s.clock); }
  }

  /** A row that is not due, or stale, as of a past instant does not become so. */
  lemma NotWantedAgain(cfg: Settings, s: State, a: Action, x: Id, claiming: bool, asOf: Time)
    requires cfg.Valid() && cfg.Exclusive() && Owned(s) && Enabled(cfg, s, a) && NoPatch(s, a) && asOf <= s.clock
    requires x in s.table && x in Apply(cfg, s, a).table && Qualifies(cfg, claiming, asOf, Apply(cfg, s, a).table[x])
    ensures Apply(cfg, s, a).table[x] == s.table[x]
  {
    if a.Finish? {
      FinishWantsNoMore(cfg, s, a, x, claiming, asOf);
    } else if (a.Claim? || a.Reap?) && x in a.ids {
      BulkWantsNoMore(cfg, s, a, x, claiming, asOf);
    } else {
      UntouchedKept(cfg, s, a, x);
    }
  }

  lemma BeginHands(cfg: Settings, l: Locked, m: Move)
    requires AllInOtherHands(cfg, l) && May(cfg, l, m) && m.Begin?
    ensures AllInOtherHands(cfg, Step(cfg, l, m))
  {
    var n := Step(cfg, l, m);
    forall t | t in l.txns ensures InOtherHands(cfg, n, t) {
      assert InOtherHands(cfg, l, t);
      forall x | HeldByOther(l, t, x) ensures HeldByOther(n, t, x) {
        var u :| u in l.txns && u != t && Holding(l.txns[u], x);
        assert u in n.txns && Holding(n.txns[u], x);
      }
    }
  }

  lemma HeldAfterVisit(cfg: Settings, l: Locked, v: nat, t: nat, x: Id)
    requires May(cfg, l, Visit(v)) && HeldByOther(l, t, x)
    ensures HeldByOther(Step(cfg, l, Visit(v)), t, x)
  {
    var n := Step(cfg, l, Visit(v));
    var u :| u in l.txns && u != t && Holding(l.txns[u], x);
    if u == v { VisitHolds(cfg, l, v, x); }
    assert u in n.txns && Holding(n.txns[u], x);
  }

  lemma VisitTakes(cfg: Settings, l: Locked, t: nat)
    requires May(cfg, l, Visit(t))
    ensures var txn := l.txns[t]; var x := txn.order[txn.pos];
      x in l.s.table && Qualifies(cfg, txn.claiming, txn.asOf, l.s.table[x]) && !HeldByOther(l, t, x) ==> Holding(Visited(cfg, l, t), x)
  {
    var txn, after := l.txns[t], Visited(cfg, l, t);
    if |after.picks| > |txn.picks| {
      assert after.order[after.picks[|txn.picks|]] == txn.order[txn.pos];
    }
  }

  /** A row is passed over only when another transaction holds it. */
  lemma VisitHands(cfg: Settings, l: Locked, v: nat, t: nat)
    requires AllInOtherHands(cfg, l) && May(cfg, l, Visit(v)) && t in l.txns
    ensures InOtherHands(cfg, Step(cfg, l, Visit(v)), t)
  {
    var n := Step(cfg, l, Visit(v));
    assert InOtherHands(cfg, l, t);
    forall k: nat | PassedOver(cfg, n.s, n.txns[t], k) ensures Taken(n, t, n.txns[t].order[k]) {
      var x := n.txns[t].order[k];
      if t == v {
        VisitHolds(cfg, l, v, x);
        VisitTakes(cfg, l, v);
      }
      assert t != v || k < l.txns[t].pos ==> PassedOver(cfg, l.s, l.txns[t], k);
      if HeldByOther(l, t, x) { HeldAfterVisit(cfg, l, v, t, x); }
    }
  }

  lemma ScanHands(cfg: Settings, l: Locked, m: Move)
    requires AllInOtherHands(cfg, l) && May(cfg, l, m) && (m.Begin? || m.Visit?)
    ensures AllInOtherHands(cfg, Step(cfg, l, m))
  {
    if m.Begin? {
      BeginHands(cfg, l, m);
    } else {
      forall t | t in l.txns ensures InOtherHands(cfg, Step(cfg, l, m), t) { VisitHands(cfg, l, m.t, t); }
    }
  }

  /** A rollback hands its rows over to `released`. */
  lemma RollbackHands(cfg: Settings, l: Locked, n: Locked, c: nat)
    requires LocksOk(cfg, l) && AllInOtherHands(cfg, l) && c in l.txns && n.s.table == l.s.table
    requires n.txns == l.txns - {c} && n.released == l.released + Elements(l.txns[c].Locks())
    ensures AllInOtherHands(cfg, n)
  {
    forall t | t in n.txns ensures InOtherHands(cfg, n, t) {
      assert InOtherHands(cfg, l, t) && n.txns[t] == l.txns[t];
      forall k: nat | PassedOver(cfg, n.s, n.txns[t], k) ensures Taken(n, t, n.txns[t].order[k]) {
        assert PassedOver(cfg, l.s, l.txns[t], k);
        KeepsHolder(cfg, l, n, c, t, l.txns[t].order[k]);
      }
    }
  }

  lemma KeepsHolder(cfg: Settings, l: Locked, n: Locked, c: nat, t: nat, x: Id)
    requires LocksOk(cfg, l) && c in l.txns && t in l.txns && t != c && Taken(l, t, x)
    requires n.txns == l.txns - {c} && n.released == l.released + Elements(l.txns[c].Locks())
    ensures Taken(n, t, x)
  {
    if HeldByOther(l, t, x) {
      var u :| u in l.txns && u != t && Holding(l.txns[u], x);
      if u == c { HoldingIsLocking(cfg, l.s, l.txns[c], x); } else { assert u in n.txns && n.txns[u] == l.txns[u]; }
    }
  }

  /** A passed-over row that is wanted after a step was so before it. */
  lemma PassedOverBefore(cfg: Settings, s: State, a: Action, txn: Txn, k: nat)
    requires cfg.Valid() && cfg.Exclusive() && Apart(s) && TxnOk(cfg, s, txn) && Owned(s)
    requires Enabled(cfg, s, a) && NoPatch(s, a) && PassedOver(cfg, Apply(cfg, s, a), txn, k)
    ensures PassedOver(cfg, s, txn, k)
  {
    GoneOrThere(cfg, s, a);
    assert ScanOk(s, txn, k);
    NotWantedAgain(cfg, s, a, txn.order[k], txn.claiming, txn.asOf);
  }

  /** n follows l by protocol step a, which is the commit of transaction c or leaves all open. */
  ghost predicate Follows(cfg: Settings, l: Locked, n: Locked, a: Action, c: nat) {
    && Enabled(cfg, l.s, a) && n.s == Apply(cfg, l.s, a) && n.released == l.released
    && (n.txns == l.txns || (c in l.txns && a == Atomic(cfg, l.s, l.txns[c]) && n.txns == l.txns - {c}))
  }

  /** A passed-over row that is still wanted keeps its holder. */
  lemma HolderStays(cfg: Settings, l: Locked, n: Locked, c: nat, t: nat, k: nat)
    requires t in l.txns && PassedOver(cfg, l.s, l.txns[t], k) && InOtherHands(cfg, l, t) && n.released == l.released
    requires n.txns == l.txns || (c in l.txns && n.txns == l.txns - {c} && !Holding(l.txns[c], l.txns[t].order[k]))
    ensures Taken(n, t, l.txns[t].order[k])
  {
    var x := l.txns[t].order[k];
    if HeldByOther(l, t, x) {
      var u :| u in l.txns && u != t && Holding(l.txns[u], x);
      assert u in n.txns && n.txns[u] == l.txns[u];
    }
  }

  /** A protocol step either keeps the holder of a passed-over row or, being the holder's commit,
      leaves the row wanted no more. */
  lemma StepHand(cfg: Settings, l: Locked, n: Locked, a: Action, c: nat, t: nat, k: nat)
    requires cfg.Valid() && cfg.Exclusive() && LocksOk(cfg, l) && Owned(l.s) && NoPatch(l.s, a) && Follows(cfg, l, n, a, c)
    requires t in l.txns && PassedOver(cfg, n.s, l.txns[t], k)
    ensures PassedOver(cfg, l.s, l.txns[t], k)
    ensures n.txns == l.txns || !Holding(l.txns[c], l.txns[t].order[k])
  {
    PassedOverBefore(cfg, l.s, a, l.txns[t], k);
    var x := l.txns[t].order[k];
    if n.txns != l.txns && Holding(l.txns[c], x) {
      HoldingIsLocking(cfg, l.s, l.txns[c], x);
      BulkWantsNoMore(cfg, l.s, a, x, l.txns[t].claiming, l.txns[t].asOf);
    }
  }

  lemma StepHands(cfg: Settings, l: Locked, n: Locked, a: Action, c: nat)
    requires cfg.Valid() && cfg.Exclusive() && LocksOk(cfg, l) && Owned(l.s) && AllInOtherHands(cfg, l)
    requires NoPatch(l.s, a) && Follows(cfg, l, n, a, c)
    ensures AllInOtherHands(cfg, n)
  {
    forall t | t in n.txns ensures InOtherHands(cfg, n, t) {
      assert InOtherHands(cfg, l, t) && n.txns[t] == l.txns[t];
      forall k: nat | PassedOver(cfg, n.s, l.txns[t], k) ensures Taken(n, t, l.txns[t].order[k]) {
        StepHand(cfg, l, n, a, c, t, k);
        HolderStays(cfg, l, n, c, t, k);
      }
    }
  }

  /** What a transaction's snapshot did not show it, though it wants it now, came later. */
  ghost predicate SawAll(cfg: Settings, s: State, txn: Txn) {
    forall x :: x in s.table && Qualifies(cfg, txn.claiming, txn.asOf, s.table[x]) && x !in txn.order ==> s.table[x].createdAt >= txn.asOf
  }

  ghost predicate AllSawAll(cfg: Settings, l: Locked) {
    forall t :: t in l.txns ==> SawAll(cfg, l.s, l.txns[t])
  }

  lemma SeenStep(cfg: Settings, s: State, a: Action, txn: Txn)
    requires cfg.Valid() && cfg.Exclusive() && Owned(s) && TxnOk(cfg, s, txn) && SawAll(cfg, s, txn)
    requires Enabled(cfg, s, a) && NoPatch(s, a)
    ensures SawAll(cfg, Apply(cfg, s, a), txn)
  {
    var t := Apply(cfg, s, a);
    forall x | x in t.table && Qualifies(cfg, txn.claiming, txn.asOf, t.table[x]) && x !in txn.order
      ensures t.table[x].createdAt >= txn.asOf
    {
      if x in s.table {
        NotWantedAgain(cfg, s, a, x, txn.claiming, txn.asOf);
      } else if !a.Insert? && !a.Delete? {
        KeysFrame(cfg, s, a);
      }
    }
  }

  lemma SeenMove(cfg: Settings, l: Locked, m: Move)
    requires cfg.Valid() && Safe(cfg, l.s) && LocksOk(cfg, l) && AllSawAll(cfg, l)
    requires May(cfg, l, m) && MoveIsNoPatch(l, m)
    ensures AllSawAll(cfg, Step(cfg, l, m))
  {
    var n := Step(cfg, l, m);
    if m.Commit? {
      CommitIsAtomic(cfg, l.s, l.txns[m.t]);
      forall t | t in n.txns ensures SawAll(cfg, n.s, n.txns[t]) { SeenStep(cfg, l.s, Atomic(cfg, l.s, l.txns[m.t]), l.txns[t]); }
    } else if m.Other? {
      forall t | t in n.txns ensures SawAll(cfg, n.s, n.txns[t]) { SeenStep(cfg, l.s, m.a, l.txns[t]); }
    } else if m.Void? {
      VoidIsEnabled(cfg, l.s, l.txns[m.t]);
    }
  }

  lemma HandsStep(cfg: Settings, l: Locked, m: Move)
    requires cfg.Valid() && Safe(cfg, l.s) && LocksOk(cfg, l) && AllInOtherHands(cfg, l)
    requires May(cfg, l, m) && MoveIsNoPatch(l, m)
    ensures AllInOtherHands(cfg, Step(cfg, l, m)) && Safe(cfg, Step(cfg, l, m).s)
  {
    var n := Step(cfg, l, m);
    if m.Commit? {
      CommitIsAtomic(cfg, l.s, l.txns[m.t]);
      SafeStep(cfg, l.s, Atomic(cfg, l.s, l.txns[m.t]));
      StepHands(cfg, l, n, Atomic(cfg, l.s, l.txns[m.t]), m.t);
    } else if m.Other? {
      SafeStep(cfg, l.s, m.a);
      StepHands(cfg, l, n, m.a, 0);
    } else if m.Abort? {
      RollbackHands(cfg, l, n, m.t);
    } else if m.Void? {
      VoidIsEnabled(cfg, l.s, l.txns[m.t]);
      SafeStep(cfg, l.s, Voided(cfg, l.s, l.txns[m.t]));
      RollbackHands(cfg, l, n, m.t);
    } else {
      ScanHands(cfg, l, m);
    }
  }

  lemma {:induction false} HandsRun(cfg: Settings, l: Locked, ms: seq<Move>)
    requires cfg.Valid() && Safe(cfg, l.s) && LocksOk(cfg, l) && AllInOtherHands(cfg, l)
    requires AllSawAll(cfg, l) && LegalMoves(cfg, l, ms) && ThroughoutMoves(cfg, l, ms, MoveIsNoPatch)
    ensures LocksOk(cfg, AfterMoves(cfg, l, ms)) && AllInOtherHands(cfg, AfterMoves(cfg, l, ms)) && AllSawAll(cfg, AfterMoves(cfg, l, ms))
    decreases |ms|
  {
    if ms != [] {
      LocksStep(cfg, l, ms[0]);
      HandsStep(cfg, l, ms[0]);
      SeenMove(cfg, l, ms[0]);
      HandsRun(cfg, Step(cfg, l, ms[0]), ms[1..]);
    }
  }

  /** Overlapping claims and reaps partition the rows they want: every due, or stale, row that an open
      one's commit would find and leave out without a full batch is locked by another open transaction,
      was locked by one that has rolled back, or was created after the snapshot was taken. */
  lemma SkippedRowsAreInOtherHands(cfg: Settings, s: State, ms: seq<Move>, l: Locked, t: nat, x: Id)
    requires cfg.Valid() && cfg.Exclusive() && Init(s)
    requires LegalMoves(cfg, Open(s), ms) && ThroughoutMoves(cfg, Open(s), ms, MoveIsNoPatch)
    requires l == AfterMoves(cfg, Open(s), ms)
    requires t in l.txns && x in Atomic(cfg, l.s, l.txns[t]).locked
    ensures x in l.s.table
    ensures (exists u :: u in l.txns && u != t && Holding(l.txns[u], x)) || x in l.released || l.s.table[x].createdAt >= l.txns[t].asOf
  {
    HandsRun(cfg, Open(s), ms);
    var txn := l.txns[t];
    assert InOtherHands(cfg, l, t);
    if x in txn.order {
      var k: nat :| k < |txn.order| && txn.order[k] == x;
      assert PassedOver(cfg, l.s, txn, k);
    }
  }
}
