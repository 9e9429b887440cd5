/** Failure handling: exponential backoff, the retry-or-bury decision, and how an edited ORM
    object reaches its row. */
module Retry {
  import opened Tasks

  const MAX_ERROR_LENGTH: nat := 1000

  function Pow2(n: nat): (p: nat)
    ensures p >= 1
  {
    if n == 0 then 1 else 2 * Pow2(n - 1)
  }

  function BackoffDelay(attempt: int, base: nat): nat {
    base * Pow2(if attempt - 1 > 0 then attempt - 1 else 0)
  }

  function Clip(error: string): string {
    if |error| <= MAX_ERROR_LENGTH then error else error[..MAX_ERROR_LENGTH]
  }

  /** A row after one failed run: back to pending with a delay, or dead once retries are spent. */
  function FailedRow(cfg: Settings, row: Row, error: string, now: Time): Row {
    var attempt := row.retryCount + 1;
    var noted := row.(lastError := Some(Clip(error)));
    if attempt > cfg.maxRetries then
      noted.(status := Dead)
    else
      noted.(retryCount := attempt, status := Pending,
             scheduledAt := now + BackoffDelay(attempt, cfg.backoffBase))
  }

  datatype Outcome = Success | Failure(error: string)

  /** The edits an executor makes to the object it loaded. */
  function Edited(cfg: Settings, loaded: Row, outcome: Outcome, now: Time): Row {
    match outcome
    case Success => loaded.(status := Succeeded, lastError := None)
    case Failure(error) => FailedRow(cfg, loaded, error, now)
  }

  /** The UPDATE a session sends: only columns whose value differs from the loaded one are set,
      and `updatedAt` is stamped when anything is. The current row keeps every other column. */
  function Flush(current: Row, loaded: Row, edited: Row, now: Time): Row {
    if edited == loaded then current else
    current.(
      status := if edited.status != loaded.status then edited.status else current.status,
      retryCount := if edited.retryCount != loaded.retryCount then edited.retryCount else current.retryCount,
      scheduledAt := if edited.scheduledAt != loaded.scheduledAt then edited.scheduledAt else current.scheduledAt,
      lastError := if edited.lastError != loaded.lastError then edited.lastError else current.lastError,
      updatedAt := now)
  }

  /** The total of the first n backoffs. */
  function TotalBackoff(base: nat, n: nat): nat {
    if n == 0 then 0 else TotalBackoff(base, n - 1) + BackoffDelay(n, base)
  }

  /** The closed form of the summed backoffs. */
  lemma {:induction false} BackoffSum(base: nat, n: nat)
    ensures TotalBackoff(base, n) == base * (Pow2(n) - 1)
  {
    if n > 0 {
      BackoffSum(base, n - 1);
      assert base * (2 * Pow2(n - 1) - 1) == base * (Pow2(n - 1) - 1) + base * Pow2(n - 1);
    }
  }

  lemma {:induction false} Pow2Monotone(m: nat, n: nat)
    requires m <= n
    ensures Pow2(m) <= Pow2(n)
    decreases n
  {
    if m < n { Pow2Monotone(m, n - 1); }
  }

  /** The longest delay any retry can be given. */
  function LongestBackoff(cfg: Settings): nat {
    if cfg.maxRetries == 0 then 0 else BackoffDelay(cfg.maxRetries, cfg.backoffBase)
  }

  lemma BackoffBounds(cfg: Settings, attempt: nat)
    requires cfg.Valid() && 1 <= attempt <= cfg.maxRetries
    ensures 1 <= BackoffDelay(attempt, cfg.backoffBase) <= LongestBackoff(cfg)
  {
    var p, q := Pow2(attempt - 1), Pow2(cfg.maxRetries - 1);
    Pow2Monotone(attempt - 1, cfg.maxRetries - 1);
    ScaleMonotone(cfg.backoffBase, 1, p);
    ScaleMonotone(cfg.backoffBase, p, q);
  }

  lemma ScaleMonotone(k: nat, p: nat, q: nat)
    requires p <= q
    ensures k * p <= k * q
  {
  }

  /** What is kept of an error: all of it up to 1000 characters, else its first 1000. */
  lemma ClipKeeps(error: string)
    ensures |Clip(error)| == (if |error| < 1000 then |error| else 1000)
    ensures forall i :: 0 <= i < |Clip(error)| ==> Clip(error)[i] == error[i]
  {
  }

  /** The delay before the retry that follows attempt n, counted from 1. */
  lemma BackoffIsPower(attempt: int, base: nat)
    ensures BackoffDelay(attempt, base) == if attempt <= 1 then base else base * Pow2(attempt - 1)
  {
    assert Pow2(0) == 1;
  }

  /** A failed run leaves the row pending, base * 2^(retries so far) later and with one more attempt
      counted, which is strictly in the future and within the longest backoff; or dead with its count
      and schedule unchanged. The error is kept up to 1000 characters, and nothing else changes. */
  lemma FailureOutcomes(cfg: Settings, row: Row, error: string, now: Time)
    requires cfg.Valid()
    ensures var r := FailedRow(cfg, row, error, now);
      && r.createdAt == row.createdAt && r.key == row.key && r.forceFail == row.forceFail && r.updatedAt == row.updatedAt
      && r.lastError.Some? && r.lastError.value <= error && |r.lastError.value| == (if |error| < 1000 then |error| else 1000)
      && (r.status == Pending <==> row.retryCount < cfg.maxRetries)
      && (r.status == Dead <==> row.retryCount >= cfg.maxRetries)
      && (r.status == Pending ==>
            r.retryCount == row.retryCount + 1
            && r.scheduledAt == now + cfg.backoffBase * Pow2(row.retryCount)
            && now < r.scheduledAt <= now + LongestBackoff(cfg)
            && r.scheduledAt - now == TotalBackoff(cfg.backoffBase, r.retryCount)
                                      - TotalBackoff(cfg.backoffBase, row.retryCount))
      && (r.status == Dead ==> r.retryCount == row.retryCount && r.scheduledAt == row.scheduledAt)
  {
    ClipKeeps(error);
    assert Clip(error) <= error;
    if row.retryCount < cfg.maxRetries {
      BackoffBounds(cfg, row.retryCount + 1);
    }
  }

  /** The longest backoff, and how long all of them take together. */
  lemma LongestBackoffIs(cfg: Settings)
    ensures LongestBackoff(cfg) == if cfg.maxRetries == 0 then 0 else cfg.backoffBase * Pow2(cfg.maxRetries - 1)
  {
  }

  /** When the loaded object is still current, the UPDATE installs exactly the edits: a success makes
      the row succeeded and clears its error; a failure makes it what a failed run leaves. */
  lemma FlushCurrent(row: Row, cfg: Settings, outcome: Outcome, now: Time)
    requires row.status == Running
    ensures var r := Flush(row, row, Edited(cfg, row, outcome, now), now);
      && r == Edited(cfg, row, outcome, now).(updatedAt := now)
      && (outcome.Success? ==> r == row.(status := Succeeded, lastError := None, updatedAt := now))
      && (outcome.Failure? ==> r == FailedRow(cfg, row, outcome.error, now).(updatedAt := now))
  {
  }

  /** Without an edit no UPDATE is sent. */
  lemma FlushNothing(current: Row, loaded: Row, now: Time)
    ensures Flush(current, loaded, loaded, now) == current
  {
  }

  /** When other sessions have changed the row since it was loaded, a success still marks it
      succeeded, but keeps their retry count and schedule, and their error too unless the loaded
      row had one of its own. */
  lemma StaleSuccess(current: Row, loaded: Row, cfg: Settings, now: Time)
    requires loaded.status == Running
    ensures var row := Flush(current, loaded, Edited(cfg, loaded, Success, now), now);
      && row.status == Succeeded && row.updatedAt == now
      && row.retryCount == current.retryCount && row.scheduledAt == current.scheduledAt
      && row.lastError == (if loaded.lastError.Some? then None else current.lastError)
      && row.key == current.key && row.createdAt == current.createdAt && row.forceFail == current.forceFail
  {
  }

  /** A stale failure charges the attempt the snapshot had coming, whatever was charged meanwhile. Of
      the columns it computes, those that equal the loaded ones are not sent. */
  lemma StaleFailure(current: Row, loaded: Row, cfg: Settings, error: string, now: Time)
    requires loaded.status == Running
    ensures var row := Flush(current, loaded, Edited(cfg, loaded, Failure(error), now), now);
      && row.updatedAt == now
      && row.key == current.key && row.createdAt == current.createdAt && row.forceFail == current.forceFail
      && (if loaded.retryCount < cfg.maxRetries
          then && row.status == Pending && row.retryCount == loaded.retryCount + 1
               && var due := now + cfg.backoffBase * Pow2(loaded.retryCount);
                  row.scheduledAt == if due != loaded.scheduledAt then due else current.scheduledAt
          else row.status == Dead && row.retryCount == current.retryCount && row.scheduledAt == current.scheduledAt)
      && var kept := if |error| <= 1000 then error else error[..1000];
         row.lastError == if loaded.lastError != Some(kept) then Some(kept) else current.lastError
  {
  }
}
