/** What holds of every run of the agent's operation protocol. */
module OpProtocolRuns {
  import opened Wrappers
  import opened OpProtocol

  ghost predicate Step(a: Agent, x: Action, a': Agent) {
    Enabled(a, x) && a' == Apply(a, x)
  }

  ghost predicate Run(agents: seq<Agent>, acts: seq<Action>) {
    && |agents| == |acts| + 1
    && forall k :: 0 <= k < |acts| ==> Step(agents[k], acts[k], agents[k + 1])
  }

  ghost predicate Reaches(agents: seq<Agent>, acts: seq<Action>, a: Agent) {
    Run(agents, acts) && agents[0] == INIT && agents[|acts|] == a
  }

  ghost predicate Reachable(a: Agent) {
    exists agents, acts :: Reaches(agents, acts, a)
  }

  // ---- the log a session delivers ----

  // The last thing said about an instance, RUNNING aside.
  function LastMark(log: seq<Report>, id: InstanceId): Option<Word> {
    if log == [] then None
    else
      var r := log[|log| - 1];
      if r.id == id && r.word != SayRunning then Some(r.word) else LastMark(log[..|log| - 1], id)
  }

  /** Only RUNNING can fall between a destroy's STOPPING and its STOPPED. */
  ghost predicate Bracketed(log: seq<Report>) {
    forall j :: 0 <= j < |log| && log[j].word.SayStopped? ==> LastMark(log[..j], log[j].id) == Some(SayStopping)
  }

  ghost predicate Teardown(a: Agent, t: nat) {
    t < |a.threads| && a.threads[t].kind.Destroy? && a.threads[t].session == a.session && Has(a, t, Working)
  }

  ghost predicate LogInv(a: Agent) {
    && Bracketed(a.log)
    && forall t: nat :: Teardown(a, t) ==> LastMark(a.log, a.threads[t].id) == Some(SayStopping)
  }

  lemma BracketAppend(log: seq<Report>, r: Report)
    requires Bracketed(log) && (r.word.SayStopped? ==> LastMark(log, r.id) == Some(SayStopping))
    ensures Bracketed(log + [r])
    ensures forall id :: LastMark(log + [r], id) == if r.id == id && r.word != SayRunning then Some(r.word) else LastMark(log, id)
  {
    var l := log + [r];
    assert l[..|log|] == log;
    forall j | 0 <= j < |l| && l[j].word.SayStopped? ensures LastMark(l[..j], l[j].id) == Some(SayStopping) {
      if j < |log| {
        assert l[..j] == log[..j];
      }
    }
  }

  lemma BracketPrefix(log: seq<Report>, n: nat)
    requires Bracketed(log) && n <= |log|
    ensures Bracketed(log[..n])
  {
    forall j | 0 <= j < n && log[j].word.SayStopped? ensures LastMark(log[..n][..j], log[j].id) == Some(SayStopping) {
      assert log[..n][..j] == log[..j];
    }
  }

  /** At most one thread at a time is past acquireOp for an instance, and its slot is the
      one in the map. */
  lemma OneHolder(a: Agent, t: nat, u: nat)
    requires AgentInv(a) && t < |a.threads| && u < |a.threads|
    requires a.threads[t].pc.Owning? && a.threads[u].pc.Owning? && a.threads[t].id == a.threads[u].id
    ensures t == u && a.threads[t].id in a.inFlight && a.inFlight[a.threads[t].id] == a.threads[t].pc.s
  {
    assert ThreadOk(a, t) && ThreadOk(a, u);
  }

  // The stream is cut back: the threads of the broken session do not count any more.
  lemma CutKeepsLog(a: Agent, x: Action)
    requires AgentInv(a) && LogInv(a) && Enabled(a, x) && (x.Disconnect? || x.Restart?)
    ensures LogInv(Apply(a, x))
  {
    var a' := Apply(a, x);
    BracketPrefix(a.log, x.kept);
    forall t | 0 <= t < |a'.threads| ensures a'.threads[t].session < a'.session {
      assert ThreadOk(a, t);
    }
  }

  lemma SayKeepsLog(a: Agent, x: Action)
    requires AgentInv(a) && LogInv(a) && Enabled(a, x) && |Apply(a, x).log| > |a.log|
    ensures LogInv(Apply(a, x))
  {
    var a' := Apply(a, x);
    var r := a'.log[|a.log|];
    assert a'.log == a.log + [r];
    assert x.Stop? ==> Teardown(a, x.t);
    BracketAppend(a.log, r);
    forall t: nat | Teardown(a', t) ensures LastMark(a'.log, a'.threads[t].id) == Some(SayStopping) {
      if t != x.t {
        assert Teardown(a, t);
        if (x.Begin? || x.Fail? || x.Stop?) && a.threads[t].id == r.id {
          OneHolder(a, t, x.t);
        }
      }
    }
  }

  /** Every step keeps the stream of reports bracketed. */
  lemma LogKept(a: Agent, x: Action)
    requires AgentInv(a) && LogInv(a) && Enabled(a, x)
    ensures LogInv(Apply(a, x))
  {
    var a' := Apply(a, x);
    if x.Disconnect? || x.Restart? {
      CutKeepsLog(a, x);
    } else if |a'.log| > |a.log| {
      SayKeepsLog(a, x);
    } else {
      assert a'.log == a.log;
      forall t: nat | Teardown(a', t) ensures Teardown(a, t) {
        if x.Arrive? {
          assert t < |a.threads|;
        }
      }
    }
  }

  lemma {:induction false} RunKeeps(agents: seq<Agent>, acts: seq<Action>, k: nat)
    requires Run(agents, acts) && AgentInv(agents[0]) && LogInv(agents[0]) && k < |agents|
    ensures AgentInv(agents[k]) && LogInv(agents[k])
  {
    if k > 0 {
      RunKeeps(agents, acts, k - 1);
      assert Step(agents[k - 1], acts[k - 1], agents[k]);
      StepKeeps(agents[k - 1], acts[k - 1]);
      LogKept(agents[k - 1], acts[k - 1]);
    }
  }

  lemma ReachableInv(a: Agent)
    requires Reachable(a)
    ensures AgentInv(a) && LogInv(a)
  {
    var agents, acts :| Reaches(agents, acts, a);
    RunKeeps(agents, acts, |acts|);
  }

  // ---- the mutex with one preemption ----

  /** In every reachable state: one holder per instance, only creates are cancelled, a slot
      whose done is closed is out of the map, and done is never closed twice. */
  lemma MutexSafety(a: Agent)
    requires Reachable(a)
    ensures forall t, u ::
              (0 <= t < |a.threads| && 0 <= u < |a.threads| && a.threads[t].pc.Owning? && a.threads[u].pc.Owning?
               && a.threads[t].id == a.threads[u].id) ==> t == u
    ensures forall s :: 0 <= s < |a.slots| && a.slots[s].cancelled ==> a.slots[s].kind.Create?
    ensures forall i :: i in a.inFlight ==> a.inFlight[i] < |a.slots| && !a.slots[a.inFlight[i]].closed
    ensures forall t: nat :: Enabled(a, CloseDone(t)) ==> !a.slots[a.threads[t].pc.s].closed
  {
    ReachableInv(a);
    forall t, u | 0 <= t < |a.threads| && 0 <= u < |a.threads| && a.threads[t].pc.Owning? && a.threads[u].pc.Owning?
                  && a.threads[t].id == a.threads[u].id ensures t == u {
      OneHolder(a, t, u);
    }
    forall s | 0 <= s < |a.slots| && a.slots[s].cancelled ensures a.slots[s].kind.Create? {
      assert SlotOk(a, s);
    }
    forall i | i in a.inFlight ensures a.inFlight[i] < |a.slots| && !a.slots[a.inFlight[i]].closed {
      assert SlotOk(a, a.inFlight[i]);
    }
    forall t: nat | Enabled(a, CloseDone(t)) ensures !a.slots[a.threads[t].pc.s].closed {
      CloseKeeps(a, CloseDone(t));
    }
  }

  /** A request is dropped only because another thread holds the instance; and what drops a
      destroy is always another destroy. */
  lemma WhyDropped(a: Agent, t: nat) returns (u: nat)
    requires Reachable(a) && Enabled(a, Lock(t)) && Apply(a, Lock(t)).threads[t].pc.Dropped?
    ensures u < |a.threads| && u != t && a.threads[u].id == a.threads[t].id && a.threads[u].pc.Owning?
    ensures a.threads[t].kind.Destroy? ==> a.threads[u].kind.Destroy?
  {
    ReachableInv(a);
    var s := a.inFlight[a.threads[t].id];
    assert SlotOk(a, s);
    u := a.slots[s].maker;
  }

  // ---- every request gets through ----

  function Creates(a: Agent, id: InstanceId): set<nat> {
    set t | 0 <= t < |a.threads| && a.threads[t].id == id && a.threads[t].kind.Create? :: t as nat
  }

  lemma {:induction false} MakersCount(a: Agent, ss: set<nat>) returns (ms: set<nat>)
    requires MakersOk(a) && forall s :: s in ss ==> s < |a.slots|
    ensures |ms| == |ss|
    ensures forall m :: m in ms <==> exists s :: s in ss && a.slots[s].maker == m
    decreases ss
  {
    ms := {};
    if ss != {} {
      var s :| s in ss;
      var rest := MakersCount(a, ss - {s});
      ms := rest + {a.slots[s].maker};
      forall r | r in ss && r != s ensures a.slots[r].maker != a.slots[s].maker {
      }
    }
  }

  lemma AwaitedBound(a: Agent, t: nat)
    requires AgentInv(a) && t < |a.threads|
    ensures |a.threads[t].awaited| <= |Creates(a, a.threads[t].id)|
  {
    assert ThreadOk(a, t);
    forall s | s in a.threads[t].awaited ensures s < |a.slots| && a.slots[s].maker in Creates(a, a.threads[t].id) {
      assert SlotOk(a, s);
    }
    var ms := MakersCount(a, a.threads[t].awaited);
    var all := Creates(a, a.threads[t].id);
    assert all == ms + (all - ms);
  }

  // The step took thread t round acquireOp's loop: its critical section found a create to
  // preempt.
  predicate IsTurn(x: Action, after: Agent, t: nat) {
    x == Lock(t) && t < |after.threads| && after.threads[t].pc.Cancelling?
  }

  // How often thread t has gone round after the first n steps.
  function Turns(agents: seq<Agent>, acts: seq<Action>, n: nat, t: nat): nat
    requires n <= |acts| < |agents|
  {
    if n == 0 || acts[n - 1].Restart? then 0
    else Turns(agents, acts, n - 1, t) + if IsTurn(acts[n - 1], agents[n], t) then 1 else 0
  }

  function Awaited(a: Agent, t: nat): nat {
    if t < |a.threads| then |a.threads[t].awaited| else 0
  }

  // Every turn waits for a slot not waited for before.
  lemma LockAwaits(a: Agent, t: nat)
    requires AgentInv(a) && Enabled(a, Lock(t))
    ensures Awaited(Apply(a, Lock(t)), t) == Awaited(a, t) + if IsTurn(Lock(t), Apply(a, Lock(t)), t) then 1 else 0
  {
    if a.threads[t].id in a.inFlight {
      var s := a.inFlight[a.threads[t].id];
      assert ThreadOk(a, t) && SlotOk(a, s);
      assert s !in a.threads[t].awaited;
    }
  }

  lemma TurnAwaits(a: Agent, x: Action, t: nat)
    requires AgentInv(a) && Enabled(a, x)
    ensures Awaited(Apply(a, x), t)
         == if x.Restart? then 0 else Awaited(a, t) + if IsTurn(x, Apply(a, x), t) then 1 else 0
  {
    if x == Lock(t) {
      LockAwaits(a, t);
    }
  }

  lemma {:induction false} AgentKept(agents: seq<Agent>, acts: seq<Action>, k: nat)
    requires Run(agents, acts) && AgentInv(agents[0]) && k < |agents|
    ensures AgentInv(agents[k])
  {
    if k > 0 {
      AgentKept(agents, acts, k - 1);
      assert Step(agents[k - 1], acts[k - 1], agents[k]);
      StepKeeps(agents[k - 1], acts[k - 1]);
    }
  }

  // Step k of the run counts the waits of thread t as Turns counts its turns.
  predicate Counts(agents: seq<Agent>, acts: seq<Action>, k: nat, t: nat)
    requires k < |acts| < |agents|
  {
    Awaited(agents[k + 1], t)
    == if acts[k].Restart? then 0 else Awaited(agents[k], t) + if IsTurn(acts[k], agents[k + 1], t) then 1 else 0
  }

  lemma TurnInRun(agents: seq<Agent>, acts: seq<Action>, k: nat, t: nat)
    requires Run(agents, acts) && AgentInv(agents[0]) && k < |acts|
    ensures Counts(agents, acts, k, t)
  {
    AgentKept(agents, acts, k);
    assert Step(agents[k], acts[k], agents[k + 1]);
    TurnAwaits(agents[k], acts[k], t);
  }

  lemma {:induction false} TurnsAreAwaited(agents: seq<Agent>, acts: seq<Action>, n: nat, t: nat)
    requires n <= |acts| < |agents| && agents[0].threads == []
    requires forall k :: 0 <= k < |acts| ==> Counts(agents, acts, k, t)
    ensures Turns(agents, acts, n, t) == Awaited(agents[n], t)
  {
    if n > 0 {
      TurnsAreAwaited(agents, acts, n - 1, t);
      assert Counts(agents, acts, n - 1, t);
    }
  }

  /** A destroy goes round acquireOp's loop at most once for each create issued for its
      instance. */
  lemma LoopBound(agents: seq<Agent>, acts: seq<Action>, n: nat, t: nat)
    requires Run(agents, acts) && agents[0] == INIT && n <= |acts| && t < |agents[n].threads|
    ensures Turns(agents, acts, n, t) <= |Creates(agents[n], agents[n].threads[t].id)|
  {
    forall k | 0 <= k < |acts| ensures Counts(agents, acts, k, t) {
      TurnInRun(agents, acts, k, t);
    }
    TurnsAreAwaited(agents, acts, n, t);
    AgentKept(agents, acts, n);
    AwaitedBound(agents[n], t);
  }

  // How far a thread is from its end. A destroy still in acquireOp also counts the creates
  // it may yet have to wait for.
  function Weight(a: Agent, t: nat): int
    requires t < |a.threads|
  {
    var th := a.threads[t];
    var loops := 3 * (|Creates(a, th.id)| - |th.awaited|);
    match th.pc
    case Entering => 9 + loops
    case Cancelling(_) => 11 + loops
    case Waiting(_) => 10 + loops
    case Owning(_, stage) => (match stage case Fresh => 8 case Working => 7 case Told => 6)
    case Closing(_, _) => 5
    case Announcing => 4
    case Polling => 3
    case Finished => 0
    case Dropped => 0
  }

  function Total(a: Agent, n: nat): int
    requires n <= |a.threads|
  {
    if n == 0 then 0 else Total(a, n - 1) + Weight(a, n - 1)
  }

  function Measure(a: Agent): int {
    Total(a, |a.threads|)
  }

  lemma {:induction false} TotalDrops(a: Agent, b: Agent, n: nat, t: nat)
    requires n <= |a.threads| == |b.threads| && t < |a.threads|
    requires forall u :: 0 <= u < |a.threads| && u != t ==> Weight(b, u) == Weight(a, u)
    ensures Total(b, n) == Total(a, n) + if t < n then Weight(b, t) - Weight(a, t) else 0
  {
    if n > 0 {
      TotalDrops(a, b, n - 1, t);
    }
  }

  // A thread's own step, as opposed to a new request, a broken session or a restart.
  predicate Inner(x: Action) {
    !x.Arrive? && !x.Disconnect? && !x.Restart?
  }

  lemma SameThreads(a: Agent, x: Action)
    requires Enabled(a, x) && Inner(x)
    ensures |Apply(a, x).threads| == |a.threads|
    ensures forall t :: 0 <= t < |a.threads| ==>
              Apply(a, x).threads[t].id == a.threads[t].id && Apply(a, x).threads[t].kind == a.threads[t].kind
    ensures forall id :: Creates(Apply(a, x), id) == Creates(a, id)
  {
    var b := Apply(a, x);
    assert forall t :: 0 <= t < |a.threads| ==> b.threads[t].id == a.threads[t].id && b.threads[t].kind == a.threads[t].kind;
    forall id ensures Creates(b, id) == Creates(a, id) {
    }
  }

  // acquireOp's critical section: granted, dropped, or one create fewer to wait for.
  lemma LockLightens(a: Agent, x: Action)
    requires AgentInv(a) && Enabled(a, x) && x.Lock?
    ensures Weight(Apply(a, x), x.t) < Weight(a, x.t)
  {
    SameThreads(a, x);
    AwaitedBound(a, x.t);
    LockAwaits(a, x.t);
  }

  lemma StepLightens(a: Agent, x: Action)
    requires AgentInv(a) && Enabled(a, x) && Inner(x)
    ensures Weight(Apply(a, x), x.t) < Weight(a, x.t)
  {
    if x.Lock? {
      LockLightens(a, x);
    } else {
      SameThreads(a, x);
      AwaitedBound(a, x.t);
    }
  }

  lemma OtherWeightsStay(a: Agent, x: Action, u: nat)
    requires Enabled(a, x) && Inner(x) && u < |a.threads| && u != x.t
    ensures |Apply(a, x).threads| == |a.threads| && Weight(Apply(a, x), u) == Weight(a, u)
  {
    SameThreads(a, x);
    assert Apply(a, x).threads[u] == a.threads[u];
  }

  lemma StepDrops(a: Agent, x: Action)
    requires AgentInv(a) && Enabled(a, x) && Inner(x)
    ensures Measure(Apply(a, x)) < Measure(a)
  {
    var b := Apply(a, x);
    assert |b.threads| == |a.threads| by { SameThreads(a, x); }
    StepLightens(a, x);
    forall u | 0 <= u < |a.threads| && u != x.t ensures Weight(b, u) == Weight(a, u) {
      OtherWeightsStay(a, x, u);
    }
    TotalDrops(a, b, |a.threads|, x.t);
  }

  lemma {:induction false} TotalNonNegative(a: Agent, n: nat)
    requires AgentInv(a) && n <= |a.threads|
    ensures Total(a, n) >= 0
  {
    if n > 0 {
      TotalNonNegative(a, n - 1);
      AwaitedBound(a, n - 1);
    }
  }

  /** Termination under every scheduler: once no request arrives, the threads can take only
      a bounded number of steps. */
  lemma {:induction false} RunsAreBounded(agents: seq<Agent>, acts: seq<Action>)
    requires Run(agents, acts) && AgentInv(agents[0]) && forall k :: 0 <= k < |acts| ==> Inner(acts[k])
    ensures |acts| <= Measure(agents[0])
  {
    if |acts| > 0 {
      assert Step(agents[0], acts[0], agents[1]);
      StepKeeps(agents[0], acts[0]);
      StepDrops(agents[0], acts[0]);
      forall k | 0 <= k < |acts[1..]| ensures Step(agents[1..][k], acts[1..][k], agents[1..][k + 1]) && Inner(acts[1..][k]) {
        assert Step(agents[k + 1], acts[k + 1], agents[k + 2]);
      }
      RunsAreBounded(agents[1..], acts[1..]);
    } else {
      TotalNonNegative(agents[0], |agents[0].threads|);
    }
  }

  /** No deadlock: while some thread has not ended, some thread can move. With the bound
      above, every create and every destroy ends in every maximal run. */
  lemma NoDeadlock(a: Agent, t: nat) returns (x: Action)
    requires AgentInv(a) && t < |a.threads| && !a.threads[t].pc.Finished? && !a.threads[t].pc.Dropped?
    ensures Inner(x) && Enabled(a, x)
  {
    assert ThreadOk(a, t);
    match a.threads[t].pc
    case Entering => x := Lock(t);
    case Cancelling(_) => x := DoCancel(t);
    case Waiting(s) =>
      if a.slots[s].closed {
        x := Wake(t);
      } else {
        assert SlotOk(a, s);
        x := HolderMoves(a, a.slots[s].maker);
      }
    case Owning(_, _) => x := HolderMoves(a, t);
    case Closing(_, _) => x := HolderMoves(a, t);
    case Announcing => x := Announce(t);
    case Polling => x := Publish(t, false);
  }

  // A thread that holds a slot is never blocked.
  lemma HolderMoves(a: Agent, t: nat) returns (x: Action)
    requires AgentInv(a) && t < |a.threads| && (a.threads[t].pc.Owning? || a.threads[t].pc.Closing?)
    ensures Inner(x) && Enabled(a, x)
  {
    assert ThreadOk(a, t);
    match a.threads[t].pc
    case Owning(_, Fresh) => x := Begin(t);
    case Owning(_, Working) => x := Fail(t);
    case Owning(_, Told) => x := Release(t);
    case Closing(_, _) => x := CloseDone(t);
  }
}
