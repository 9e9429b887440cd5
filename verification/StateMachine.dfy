/** The allowed status transitions: the specification that the API and the worker answer to. */
module StateMachine {
  import opened Tasks

  const ALLOWED_TRANSITIONS: map<Status, set<Status>> := map[
    Pending := {Running, Dead},
    Running := {Succeeded, Failed},
    Failed := {Pending, Dead},
    Succeeded := {},
    Dead := {}
  ]

  predicate CanTransition(current: Status, target: Status) {
    target in (if current in ALLOWED_TRANSITIONS then ALLOWED_TRANSITIONS[current] else {})
  }

  predicate Terminal(st: Status) { st == Succeeded || st == Dead }

  /** A history the state machine accepts: each entry repeats its predecessor or follows it
      by one allowed transition. */
  ghost predicate Accepts(h: seq<Status>) {
    forall i :: 0 < i < |h| ==> h[i] == h[i - 1] || CanTransition(h[i - 1], h[i])
  }

  /** The machine has six edges, and terminal are the statuses without one that leaves them. */
  lemma TransitionsExactly(from: Status, to: Status)
    ensures CanTransition(from, to) <==>
              || (from == Pending && (to == Running || to == Dead))
              || (from == Running && (to == Succeeded || to == Failed))
              || (from == Failed && (to == Pending || to == Dead))
    ensures Terminal(from) <==> forall st :: !CanTransition(from, st)
  {
    assert CanTransition(Pending, Running) && CanTransition(Running, Succeeded) && CanTransition(Failed, Pending);
  }

  /** A terminal status is the last thing an accepted history shows. */
  lemma {:induction false} TerminalIsFinal(h: seq<Status>, i: nat, j: nat)
    requires Accepts(h) && i <= j < |h| && Terminal(h[i])
    ensures h[j] == h[i]
    decreases j - i
  {
    if i < j {
      assert h[i + 1] == h[i];
      TerminalIsFinal(h, i + 1, j);
    }
  }
}
