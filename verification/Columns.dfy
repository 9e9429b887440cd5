/** Column by column: what each step of the protocol does to a row and to the history of its task. */
module Columns {
  import opened Tasks
  import opened StateMachine
  import opened Retry
  import opened Protocol
  import opened Ownership
  import opened Refinement

  /** A create inserts one pending row, due at the time asked for or else now, never tried, without an
      error, with the request's key and payload, and with a history of its own; others stay. */
  lemma InsertColumns(cfg: Settings, s: State, a: Action)
    requires Enabled(cfg, s, a) && a.Insert?
    ensures var t, req := Apply(cfg, s, a), s.clients[a.client].req;
      if HasKey(s.table, req.key) then t.table == s.table && t.life == s.life
      else
        && t.table.Keys == s.table.Keys + {a.id} && t.life.Keys == s.life.Keys + {a.id}
        && (forall x :: x in s.table ==> t.table[x] == s.table[x])
        && var row, asked := t.table[a.id], if req.scheduledAt.Some? then req.scheduledAt.value else s.clock;
           && row.status == Pending && row.retryCount == 0 && row.scheduledAt == asked
           && row.createdAt == s.clock && row.updatedAt == s.clock && row.lastError == None
           && row.key == req.key && row.forceFail == req.forceFail
           && t.life[a.id].notBefore == asked && t.life[a.id].born == s.clock
           && t.life[a.id].claims == 0 && t.life[a.id].failures == 0
  {
  }

  /** A claim marks its rows running and stamps them; no other column and no other row changes. */
  lemma ClaimColumns(cfg: Settings, s: State, a: Action, x: Id)
    requires Enabled(cfg, s, a) && a.Claim? && x in s.table
    ensures var t := Apply(cfg, s, a); x in t.table && var r, q := s.table[x], t.table[x];
      if x in a.ids then
        && r.status == Pending && r.scheduledAt <= a.asOf <= s.clock
        && q.status == Running && q.updatedAt == a.asOf
        && q.retryCount == r.retryCount && q.scheduledAt == r.scheduledAt && q.createdAt == r.createdAt
        && q.lastError == r.lastError && q.key == r.key && q.forceFail == r.forceFail
        && (x in s.life ==> x in t.life && t.life[x] == s.life[x].(claims := s.life[x].claims + 1))
      else q == r && (x in s.life ==> x in t.life && t.life[x] == s.life[x])
  {
  }

  /** What a claim takes, spelled out: at most B rows, none twice, none locked, all due, the longest
      waiting first; and a due row that is neither locked nor taken is no older than any taken, with B
      taken. */
  lemma ClaimChooses(cfg: Settings, s: State, a: Action)
    requires Enabled(cfg, s, a) && a.Claim?
    ensures |a.ids| <= cfg.batchSize && forall i, j :: 0 <= i < j < |a.ids| ==> a.ids[i] != a.ids[j]
    ensures forall i :: 0 <= i < |a.ids| ==>
              && a.ids[i] in s.table && a.ids[i] !in a.locked
              && s.table[a.ids[i]].status == Pending && s.table[a.ids[i]].scheduledAt <= a.asOf
    ensures forall i, j :: 0 <= i < j < |a.ids| ==> s.table[a.ids[i]].scheduledAt <= s.table[a.ids[j]].scheduledAt
    ensures forall y :: y in s.table && y !in a.locked && y !in a.ids && s.table[y].status == Pending && s.table[y].scheduledAt <= a.asOf ==>
              |a.ids| == cfg.batchSize && forall i :: 0 <= i < |a.ids| ==> s.table[a.ids[i]].scheduledAt <= s.table[y].scheduledAt
  {
  }

  /** What a reap takes: at most B rows, none twice, none locked, all running and last written longer ago
      than the timeout; it leaves such a row only when it is locked or B are taken. */
  lemma ReapChooses(cfg: Settings, s: State, a: Action)
    requires Enabled(cfg, s, a) && a.Reap?
    ensures |a.ids| <= cfg.batchSize && forall i, j :: 0 <= i < j < |a.ids| ==> a.ids[i] != a.ids[j]
    ensures forall i :: 0 <= i < |a.ids| ==>
              && a.ids[i] in s.table && a.ids[i] !in a.locked
              && s.table[a.ids[i]].status == Running && s.table[a.ids[i]].updatedAt < a.asOf - cfg.staleTimeout
    ensures forall y :: y in s.table && y !in a.locked && y !in a.ids && s.table[y].status == Running && s.table[y].updatedAt < a.asOf - cfg.staleTimeout ==>
              |a.ids| == cfg.batchSize
  {
  }

  /** A charged failure in a task's history: one more, now, with the first one remembered. */
  ghost predicate ChargedOnce(before: Life, after: Life, now: Time) {
    && after.failures == before.failures + 1 && after.lastFailure == now
    && after.firstFailure == (if before.failures == 0 then now else before.firstFailure)
    && after.claims == before.claims && after.notBefore == before.notBefore && after.born == before.born
  }

  /** A failed attempt: pending again base * 2^(retries so far) from now, or dead. */
  ghost predicate FailedOnce(cfg: Settings, r: Row, q: Row, now: Time) {
    && (if r.retryCount < cfg.maxRetries
        then q.status == Pending && q.retryCount == r.retryCount + 1 && q.scheduledAt == now + cfg.backoffBase * Pow2(r.retryCount)
        else q.status == Dead && q.retryCount == r.retryCount && q.scheduledAt == r.scheduledAt)
    && q.createdAt == r.createdAt && q.key == r.key && q.forceFail == r.forceFail
  }

  /** A reap fails its rows with the message of a stalled execution; no other row changes. */
  lemma ReapColumns(cfg: Settings, s: State, a: Action, x: Id)
    requires Enabled(cfg, s, a) && a.Reap? && x in s.table
    ensures var t := Apply(cfg, s, a); x in t.table && var r, q := s.table[x], t.table[x];
      if x in a.ids then
        && r.status == Running && r.updatedAt < a.asOf - cfg.staleTimeout
        && FailedOnce(cfg, r, q, s.clock) && q.updatedAt == a.asOf
        && q.lastError == Some("execution stalled (worker lost or exceeded timeout)")
        && (x in s.life ==> x in t.life && ChargedOnce(s.life[x], t.life[x], s.clock))
      else q == r && (x in s.life ==> x in t.life && t.life[x] == s.life[x])
  {
    assert Clip(STALLED) == "execution stalled (worker lost or exceeded timeout)";
  }

  /** An outcome succeeds or fails the row of its executor; no other row changes. */
  lemma OutcomeColumns(cfg: Settings, s: State, a: Action, x: Id)
    requires Owned(s) && Enabled(cfg, s, a) && a.Finish? && x in s.table
    ensures var t := Apply(cfg, s, a); x in t.table && var r, q := s.table[x], t.table[x];
      if x != Holds(s, a.b, a.i) then q == r
      else
        && r.status == Running && q.updatedAt == s.clock
        && (match a.outcome
            case Success =>
              && q.status == Succeeded && q.lastError == None && !r.forceFail
              && q.retryCount == r.retryCount && q.scheduledAt == r.scheduledAt
              && q.createdAt == r.createdAt && q.key == r.key && q.forceFail == r.forceFail
            case Failure(error) =>
              && FailedOnce(cfg, r, q, s.clock)
              && q.lastError == Some(if |error| <= 1000 then error else error[..1000])
              && (x in s.life ==> x in t.life && ChargedOnce(s.life[x], t.life[x], s.clock)))
  {
    OutcomeIsNotStale(cfg, s, a);
    assert Slot(s, a.b, a.i) && Kept(s, a.b, a.i);
  }

  /** A PATCH that is allowed sets the status and stamps the row; it touches no other column and no
      other row, and any other PATCH changes nothing. */
  lemma PatchColumns(cfg: Settings, s: State, a: Action, x: Id)
    requires Enabled(cfg, s, a) && a.Patch? && x in s.table
    ensures var t := Apply(cfg, s, a); x in t.table && t.life == s.life && var r, q := s.table[x], t.table[x];
      && q.retryCount == r.retryCount && q.scheduledAt == r.scheduledAt && q.createdAt == r.createdAt
      && q.lastError == r.lastError && q.key == r.key && q.forceFail == r.forceFail
      && (if x == a.id && r.status != a.target && CanTransition(r.status, a.target)
          then q.status == a.target && q.updatedAt == s.clock
          else q == r)
  {
  }

  /** No other step writes a row or a history, but for a delete, which moves its row to `gone`. */
  lemma OtherColumns(cfg: Settings, s: State, a: Action)
    requires Enabled(cfg, s, a) && !a.Insert? && !a.Claim? && !a.Reap? && !a.Finish? && !a.Patch?
    ensures var t := Apply(cfg, s, a);
      if a.Delete? then t.table == s.table - {a.id} && t.gone == s.gone[a.id := s.table[a.id]]
      else t.table == s.table && t.gone == s.gone
  {
    if a.Dispatch? || a.Lose? || a.Crash? {
      ExecutorWritesNothing(cfg, s, a);
    } else if !a.Delete? {
      TableFrame(cfg, s, a);
    }
  }

  /* Over whole runs */

  ghost predicate SameIdentity(r: Row, q: Row) {
    q.createdAt == r.createdAt && q.key == r.key && q.forceFail == r.forceFail
  }

  lemma IdentityStep(cfg: Settings, s: State, a: Action, x: Id)
    requires Enabled(cfg, s, a) && x in s.table && x in Apply(cfg, s, a).table
    ensures SameIdentity(s.table[x], Apply(cfg, s, a).table[x])
  {
    if a.Insert? {
      InsertColumns(cfg, s, a);
    } else if a.Claim? {
      ClaimColumns(cfg, s, a, x);
    } else if a.Reap? {
      ReapColumns(cfg, s, a, x);
    } else if a.Finish? {
      FinishFrame(cfg, s, a);
    } else if a.Patch? {
      PatchColumns(cfg, s, a, x);
    } else {
      OtherColumns(cfg, s, a);
    }
  }

  /** Creation time, key and payload never change, in any run whatever. */
  lemma {:induction false} IdentityKept(cfg: Settings, s: State, acts: seq<Action>, x: Id)
    requires Apart(s) && Legal(cfg, s, acts) && x in s.table && x in After(cfg, s, acts).table
    ensures var r, q := s.table[x], After(cfg, s, acts).table[x];
      q.createdAt == r.createdAt && q.key == r.key && q.forceFail == r.forceFail
    decreases |acts|
  {
    if acts != [] {
      var t := Apply(cfg, s, acts[0]);
      ApartStep(cfg, s, acts[0]);
      if x !in t.table { GoneStays(cfg, t, acts[1..], x); }
      IdentityStep(cfg, s, acts[0], x);
      IdentityKept(cfg, t, acts[1..], x);
    }
  }

  /** The head of a queue is executed exactly when its row is there and running, from the row as it is
      then; either way it has had its turn, and the other positions stay as they are. */
  lemma DispatchStarts(cfg: Settings, s: State, a: Action, i: nat)
    requires Enabled(cfg, s, a) && a.Dispatch?
    ensures var before := s.batches[a.b];
      a.b < |Apply(cfg, s, a).batches| && var after := Apply(cfg, s, a).batches[a.b]; var head := before.next;
      && after.ids == before.ids && after.claimedAt == before.claimedAt && after.formedAt == before.formedAt
      && after.next == head + 1
      && (if i != head then i in after.live <==> i in before.live
          else i in after.live <==> i in before.live || (before.ids[i] in s.table && s.table[before.ids[i]].status == Running))
      && (i in after.live ==>
            if i in before.live && i != head then after.live[i] == before.live[i]
            else i in before.live || (after.live[i].snapshot == s.table[before.ids[i]] && after.live[i].start == s.clock))
  {
    ExecutorFrame(cfg, s, a);
  }

  /** Whatever state the protocol is in: any executor may fail with any error, may succeed unless its
      payload forces failure, and may be lost, with or without a failure counted in vain; any batch may
      crash; and any row may be PATCHed or deleted. */
  lemma AnythingMayHappen(cfg: Settings, s: State, b: nat, i: nat, x: Id, error: string)
    ensures b < |s.batches| ==> Enabled(cfg, s, Crash(b))
    ensures b < |s.batches| && i in s.batches[b].live ==> Enabled(cfg, s, Lose(b, i, true)) && Enabled(cfg, s, Lose(b, i, false))
    ensures Executing(s, b, i) ==>
              && Enabled(cfg, s, Finish(b, i, Failure(error)))
              && (Enabled(cfg, s, Finish(b, i, Success)) <==> !s.batches[b].live[i].snapshot.forceFail)
    ensures forall target :: Enabled(cfg, s, Patch(x, target))
    ensures x in s.table ==> Enabled(cfg, s, Delete(x))
  {
  }

  /** Any client may begin a create and take its next step at any time, with any id not used before. */
  lemma CreatesMayGoOn(cfg: Settings, s: State, client: nat, req: Request, id: Id)
    ensures client !in s.clients ==> Enabled(cfg, s, Find(client, req))
    ensures client in s.clients && s.clients[client].Inserting? && id !in s.table && id !in s.gone ==> Enabled(cfg, s, Insert(client, id))
    ensures client in s.clients && s.clients[client].Inserted? ==> Enabled(cfg, s, Refresh(client))
    ensures client in s.clients && s.clients[client].Conflicted? ==> Enabled(cfg, s, Refind(client))
  {
  }
}
