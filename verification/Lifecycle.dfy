/** The instance state machine (instance/state.go). */
module Lifecycle {

  datatype State = Pending | Provisioning | Running | Stopping | Stopped | Failed

  // States reachable in one step; the same-state step is added by CanTransition.
  const ALLOWED: map<State, set<State>> := map[
    Pending := {Provisioning, Failed, Stopped},
    Provisioning := {Running, Failed, Stopping},
    Running := {Stopping, Failed},
    Stopping := {Stopped, Failed},
    Stopped := {},
    Failed := {}
  ]

  predicate CanTransition(from: State, to: State) {
    from == to || (from in ALLOWED && to in ALLOWED[from])
  }

  predicate IsTerminal(s: State) {
    s == Stopped || s == Failed
  }

  // The distance an instance has travelled; a measure the code itself does not keep.
  function Rank(s: State): nat {
    match s
    case Pending => 0
    case Provisioning => 1
    case Running => 2
    case Stopping => 3
    case Stopped => 4
    case Failed => 4
  }

  /** A real step climbs, so the machine has no cycle; and a state is terminal exactly
      when nothing but itself can follow it. */
  lemma StepsClimb(from: State, to: State)
    ensures CanTransition(from, to) && from != to ==> Rank(from) < Rank(to)
    ensures IsTerminal(from) <==> forall s :: CanTransition(from, s) ==> s == from
  {
    if !IsTerminal(from) {
      assert CanTransition(from, Failed);
    }
  }

  /** What can follow: the next stage, a failure of anything not yet over, or one of the two
      shortcuts (a machine never provisioned is stopped, one being provisioned is torn down). */
  lemma WhatFollows(from: State, to: State)
    ensures CanTransition(from, to) <==>
            || from == to
            || (!IsTerminal(from) && (to == Failed || (to != Pending && Rank(to) == Rank(from) + 1)))
            || (from == Pending && to == Stopped) || (from == Provisioning && to == Stopping)
  {}

  // A history is a list of visited states, oldest first; retries repeat a state.
  ghost predicate Legal(h: seq<State>) {
    forall k :: 0 < k < |h| ==> CanTransition(h[k - 1], h[k])
  }

  // Number of entries that really changed the state.
  function Changes(h: seq<State>): nat {
    if |h| < 2 then 0
    else Changes(h[..|h| - 1]) + if h[|h| - 2] == h[|h| - 1] then 0 else 1
  }

  /** However many retries arrive, the number of real changes is bounded by the rank
      gained, hence by four. */
  lemma {:induction false} AtMostFourChanges(h: seq<State>)
    requires |h| > 0 && Legal(h)
    ensures Rank(h[0]) + Changes(h) <= Rank(h[|h| - 1])
    ensures Changes(h) <= 4
  {
    if |h| > 1 {
      var p := h[..|h| - 1];
      AtMostFourChanges(p);
      StepsClimb(h[|h| - 2], h[|h| - 1]);
    }
  }
}
