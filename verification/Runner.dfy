/** The polling loop: when its ticks start, that a failed tick does not end it, and how it stops. */
module Runner {
  import opened Tasks

  /** How long a tick takes, and whether run_once raises. */
  datatype Tick = Tick(duration: nat, fails: bool)

  function Max(x: Time, y: Time): Time { if x < y then y else x }

  predicate Stopped(stop: Option<Time>, now: Time) { stop.Some? && stop.value <= now }

  /** When tick k would start if nothing stopped the loop: one interval after its predecessor's
      start, or as soon as the predecessor ends. */
  function StartOf(begin: Time, interval: int, ticks: seq<Tick>, k: nat): Time
    requires k <= |ticks|
  {
    if k == 0 then begin else FollowingStart(StartOf(begin, interval, ticks, k - 1), interval, ticks[k - 1])
  }

  function FollowingStart(start: Time, interval: int, tick: Tick): Time {
    NextStart(start, interval, start + tick.duration)
  }

  /** After a tick from `start` to `end` the loop sleeps for the rest of the interval. */
  function NextStart(start: Time, interval: int, end: Time): Time {
    Max(start + interval, end)
  }

  /** The wait for `stop` with a timeout: it ends at once if stop is set, when it is set, or late. */
  method AwaitStop(stop: Option<Time>, now: Time, timeout: nat) returns (woke: Time)
    ensures now <= woke <= now + timeout
    ensures if stop.Some? && stop.value <= now + timeout
            then woke == (if now < stop.value then stop.value else now) && Stopped(stop, woke)
            else woke == now + timeout && !Stopped(stop, woke)
  {
    if stop.Some? && stop.value <= now {
      woke := now;
    } else if stop.Some? && stop.value <= now + timeout {
      woke := stop.value;
    } else {
      woke := now + timeout;
    }
  }

  /** One turn of the loop: the tick, whose exceptions are logged and dropped, and the wait for the
      rest of the interval. It is over when the next tick is to start, or at stop. */
  method RunTick(start: Time, interval: int, tick: Tick, stop: Option<Time>) returns (now: Time)
    ensures var next := FollowingStart(start, interval, tick);
      now == if Stopped(stop, next) then Max(start + tick.duration, stop.value) else next
  {
    now := start + tick.duration;
    var elapsed := now - start;
    now := AwaitStop(stop, now, if interval - elapsed > 0 then interval - elapsed else 0);
  }

  /** Where the loop stands before its next check of `stop`: which ticks it has started, and when. */
  ghost predicate Looping(begin: Time, interval: int, ticks: seq<Tick>, stop: Option<Time>, starts: seq<Time>, now: Time) {
    && |starts| <= |ticks|
    && (forall k :: 0 <= k < |starts| ==> starts[k] == StartOf(begin, interval, ticks, k) && !Stopped(stop, starts[k]))
    && (if Stopped(stop, now) then Stopped(stop, StartOf(begin, interval, ticks, |starts|))
        else now == StartOf(begin, interval, ticks, |starts|))
    && (starts == [] ==> now == begin)
    && (|starts| > 0 ==> now == LeavesAt(starts[|starts| - 1], interval, ticks[|starts| - 1], stop))
  }

  /** When the turn of a tick is over: once the interval and the tick are, or at stop if that comes
      first, though never before the tick ends. */
  function LeavesAt(start: Time, interval: int, tick: Tick, stop: Option<Time>): (exit: Time)
    ensures exit >= start + tick.duration
    ensures stop.None? ==> exit == if tick.duration < interval then start + interval else start + tick.duration
    ensures stop.Some? ==>
              exit == if stop.value <= start + tick.duration || interval <= tick.duration then start + tick.duration
                      else if stop.value < start + interval then stop.value else start + interval
  {
    var end := start + tick.duration;
    var next := if end < start + interval then start + interval else end;
    if stop.Some? && stop.value <= next then (if stop.value < end then end else stop.value) else next
  }

  lemma LoopStep(begin: Time, interval: int, ticks: seq<Tick>, stop: Option<Time>, starts: seq<Time>, now: Time, after: Time)
    requires Looping(begin, interval, ticks, stop, starts, now) && !Stopped(stop, now) && |starts| < |ticks|
    requires var tick := ticks[|starts|]; var next := FollowingStart(now, interval, tick);
      after == if Stopped(stop, next) then Max(now + tick.duration, stop.value) else next
    ensures Looping(begin, interval, ticks, stop, starts + [now], after)
  {
    var k, more := |starts|, starts + [now];
    assert StartOf(begin, interval, ticks, k + 1) == FollowingStart(now, interval, ticks[k]);
    forall i | 0 <= i < |more| ensures more[i] == StartOf(begin, interval, ticks, i) && !Stopped(stop, more[i]) {
      assert i < k ==> more[i] == starts[i];
    }
  }

  /** run_loop over the given ticks, with stop set at `stop` if ever. Tick k starts at StartOf(k);
      the loop only leaves ticks out once stop is set, starts none from then on, lets the current
      one finish, and calls on_tick at startup and after every tick, failed or not. */
  method RunLoop(begin: Time, interval: int, ticks: seq<Tick>, stop: Option<Time>)
    returns (starts: seq<Time>, beats: nat, exit: Time)
    ensures |starts| <= |ticks|
    ensures forall k :: 0 <= k < |starts| ==> starts[k] == StartOf(begin, interval, ticks, k) && !Stopped(stop, starts[k])
    ensures |starts| < |ticks| ==> Stopped(stop, StartOf(begin, interval, ticks, |starts|))
    ensures beats == |starts| + 1
    ensures starts == [] ==> exit == begin
    ensures |starts| > 0 ==> starts[0] == begin && exit == LeavesAt(starts[|starts| - 1], interval, ticks[|starts| - 1], stop)
    ensures forall k :: 0 < k < |starts| ==>
              starts[k] == if ticks[k - 1].duration < interval then starts[k - 1] + interval else starts[k - 1] + ticks[k - 1].duration
    ensures |starts| < |ticks| ==>
              stop.Some? && stop.value <= if starts == [] then begin
                                          else var k := |starts| - 1;
                                               if ticks[k].duration < interval then starts[k] + interval else starts[k] + ticks[k].duration
    ensures stop.Some? ==> forall k :: 0 <= k < |starts| ==> starts[k] < stop.value
  {
    starts, beats := [], 1;
    var now := begin;
    while |starts| < |ticks| && !Stopped(stop, now)
      invariant Looping(begin, interval, ticks, stop, starts, now) && beats == |starts| + 1
      decreases |ticks| - |starts|
    {
      var after := RunTick(now, interval, ticks[|starts|], stop);
      LoopStep(begin, interval, ticks, stop, starts, now, after);
      starts, now := starts + [now], after;
      beats := beats + 1;
    }
    exit := now;
    StartsInTurn(begin, interval, ticks, stop, starts, now);
  }

  /** Each tick starts one interval after the previous one, or when that one ends if it took longer. */
  lemma StartsInTurn(begin: Time, interval: int, ticks: seq<Tick>, stop: Option<Time>, starts: seq<Time>, now: Time)
    requires Looping(begin, interval, ticks, stop, starts, now)
    ensures forall k :: 0 < k < |starts| ==>
              starts[k] == if ticks[k - 1].duration < interval then starts[k - 1] + interval else starts[k - 1] + ticks[k - 1].duration
  {
    forall k | 0 < k < |starts|
      ensures starts[k] == if ticks[k - 1].duration < interval then starts[k - 1] + interval else starts[k - 1] + ticks[k - 1].duration
    {
      assert starts[k - 1] == StartOf(begin, interval, ticks, k - 1) && starts[k] == StartOf(begin, interval, ticks, k);
    }
  }

  /** With every tick no longer than the period, each start follows the previous one within a period
      and not before the interval is over. */
  lemma GapBounds(begin: Time, interval: int, ticks: seq<Tick>, period: nat, k: nat)
    requires k < |ticks| && interval <= period && ticks[k].duration <= period
    ensures StartOf(begin, interval, ticks, k) + interval
            <= StartOf(begin, interval, ticks, k + 1)
            <= StartOf(begin, interval, ticks, k) + period
  {
  }

  /** So tick k starts between k intervals and k periods after the beginning. */
  lemma {:induction false} CadenceBounds(begin: Time, interval: int, ticks: seq<Tick>, period: nat, k: nat)
    requires k <= |ticks| && interval <= period && forall i :: 0 <= i < |ticks| ==> ticks[i].duration <= period
    ensures begin + k * interval <= StartOf(begin, interval, ticks, k) <= begin + k * period
    decreases k
  {
    if k > 0 {
      CadenceBounds(begin, interval, ticks, period, k - 1);
      GapBounds(begin, interval, ticks, period, k - 1);
      OneMore(k - 1, interval);
      OneMore(k - 1, period);
    }
  }

  lemma OneMore(k: nat, d: int)
    ensures (k + 1) * d == k * d + d
  {
  }

  /** Raising does not matter: two sequences of ticks with the same durations start alike. */
  lemma {:induction false} FailuresDoNotMatter(begin: Time, interval: int, ticks: seq<Tick>, others: seq<Tick>, k: nat)
    requires k <= |ticks| == |others| && forall i :: 0 <= i < |ticks| ==> ticks[i].duration == others[i].duration
    ensures StartOf(begin, interval, ticks, k) == StartOf(begin, interval, others, k)
    decreases k
  {
    if k > 0 { FailuresDoNotMatter(begin, interval, ticks, others, k - 1); }
  }
}
