/** What each create and each destroy tells main-api, over whole runs of the agent. */
module OpProtocolReports {
  import opened Wrappers
  import opened OpProtocol
  import opened OpProtocolRuns

  // The thread that takes the step.
  function Mover(x: Action): Option<nat> {
    match x
    case Lock(t) => Some(t)
    case DoCancel(t) => Some(t)
    case Wake(t) => Some(t)
    case Begin(t) => Some(t)
    case Fail(t) => Some(t)
    case Stop(t) => Some(t)
    case Release(t) => Some(t)
    case CloseDone(t) => Some(t)
    case Announce(t) => Some(t)
    case Publish(t, _) => Some(t)
    case Arrive(_, _) | Disconnect(_) | Restart(_) => None
  }

  // What the step appended to the stream.
  function Added(a: Agent, b: Agent): seq<Word> {
    if |b.log| == |a.log| + 1 then [b.log[|a.log|].word] else []
  }

  // What thread t has put into the stream in the first n steps, since the process started.
  function Words(agents: seq<Agent>, acts: seq<Action>, n: nat, t: nat): seq<Word>
    requires n <= |acts| < |agents|
  {
    if n == 0 || acts[n - 1].Restart? then []
    else Words(agents, acts, n - 1, t) + if Mover(acts[n - 1]) == Some(t) then Added(agents[n - 1], agents[n]) else []
  }

  // The work of thread t has failed.
  predicate HasFailed(acts: seq<Action>, n: nat, t: nat)
    requires n <= |acts|
  {
    n > 0 && !acts[n - 1].Restart? && (acts[n - 1] == Fail(t) || HasFailed(acts, n - 1, t))
  }

  /** Only its own thread's step puts a report into the stream: one, about the thread's
      instance, and none once the thread's session is broken. */
  lemma OneReport(a: Agent, x: Action)
    requires Enabled(a, x) && Mover(x).Some?
    ensures var t, b := Mover(x).value, Apply(a, x);
            && t < |a.threads|
            && b.log == a.log + (if Added(a, b) == [] then [] else [Report(a.threads[t].id, Added(a, b)[0])])
            && (a.threads[t].session != a.session ==> Added(a, b) == [])
            && (x.Publish? && a.threads[t].session == a.session ==> (Added(a, b) != [] <==> x.found))
  {
  }

  // ---- the stories ----

  function Story(kind: Kind, failed: bool): seq<Word> {
    match kind
    case Create => if failed then [SayProvisioning, SayFailed] else [SayProvisioning, SayRunning, SayRunning]
    case Destroy => if failed then [SayStopping, SayFailed] else [SayStopping, SayStopped]
  }

  // How much of its story a thread has told, at least and at most, if nobody broke its session.
  function Least(th: Thread): nat {
    match th.pc
    case Owning(_, Working) => 1
    case Owning(_, Told) => 2
    case Closing(_, ok) => if ok then 1 else 2
    case Announcing => 1
    case Polling => 2
    case Finished => 2
    case _ => 0
  }

  function Most(th: Thread, failed: bool): nat {
    if th.pc.Finished? && th.kind.Create? && !failed then 3 else Least(th)
  }

  // Whether a thread that stands there may have failed, or must have.
  predicate Fits(th: Thread, failed: bool) {
    match th.pc
    case Owning(_, Told) => th.kind.Create? ==> failed
    case Closing(_, ok) => if ok then th.kind.Create? && !failed else th.kind.Create? ==> failed
    case Announcing => th.kind.Create? && !failed
    case Polling => th.kind.Create? && !failed
    case Finished => true
    case _ => !failed
  }

  predicate Telling(th: Thread, failed: bool, words: seq<Word>, current: bool) {
    && Fits(th, failed)
    && words <= Story(th.kind, failed) && |words| <= Most(th, failed)
    && (current ==> |words| >= Least(th))
  }

  lemma OwnStepTells(a: Agent, x: Action, t: nat, words: seq<Word>, failed: bool)
    requires Enabled(a, x) && Mover(x) == Some(t)
    requires t < |a.threads| && Telling(a.threads[t], failed, words, a.threads[t].session == a.session)
    ensures var b := Apply(a, x);
            t < |b.threads| && Telling(b.threads[t], failed || x == Fail(t), words + Added(a, b), b.threads[t].session == b.session)
  {
    OneReport(a, x);
  }

  lemma OtherStepTells(a: Agent, x: Action, t: nat, words: seq<Word>, failed: bool)
    requires Enabled(a, x) && Mover(x) != Some(t) && !x.Restart?
    requires t < |a.threads| && Telling(a.threads[t], failed, words, a.threads[t].session == a.session)
    requires a.threads[t].session <= a.session
    ensures var b := Apply(a, x);
            t < |b.threads| && Telling(b.threads[t], failed, words, b.threads[t].session == b.session)
  {
    assert Apply(a, x).threads[t] == a.threads[t];
  }

  // A thread that is not there yet has told nothing.
  ghost predicate TellsInRun(agents: seq<Agent>, acts: seq<Action>, n: nat, t: nat)
    requires n <= |acts| < |agents|
  {
    var a, failed, words := agents[n], HasFailed(acts, n, t), Words(agents, acts, n, t);
    if t < |a.threads| then Telling(a.threads[t], failed, words, a.threads[t].session == a.session)
    else !failed && words == []
  }

  lemma NewThread(a: Agent, x: Action, t: nat)
    requires Enabled(a, x) && t >= |a.threads| && t < |Apply(a, x).threads|
    ensures x.Arrive? && Apply(a, x).threads[t].pc.Entering?
  {
  }

  lemma StepTells(agents: seq<Agent>, acts: seq<Action>, n: nat, t: nat)
    requires n < |acts| < |agents| && Step(agents[n], acts[n], agents[n + 1]) && AgentInv(agents[n])
    requires TellsInRun(agents, acts, n, t)
    ensures TellsInRun(agents, acts, n + 1, t)
  {
    var a, x := agents[n], acts[n];
    var failed, words := HasFailed(acts, n, t), Words(agents, acts, n, t);
    if x.Restart? {
    } else if t < |a.threads| {
      assert ThreadOk(a, t);
      if Mover(x) == Some(t) {
        OwnStepTells(a, x, t, words, failed);
      } else {
        OtherStepTells(a, x, t, words, failed);
      }
    } else if t < |Apply(a, x).threads| {
      NewThread(a, x, t);
    }
  }

  lemma NextTells(agents: seq<Agent>, acts: seq<Action>, n: nat, t: nat)
    requires Run(agents, acts) && agents[0] == INIT && n < |acts| && TellsInRun(agents, acts, n, t)
    ensures TellsInRun(agents, acts, n + 1, t)
  {
    AgentKept(agents, acts, n);
    assert Step(agents[n], acts[n], agents[n + 1]);
    StepTells(agents, acts, n, t);
  }

  lemma {:induction false} RunTells(agents: seq<Agent>, acts: seq<Action>, n: nat, t: nat)
    requires Run(agents, acts) && agents[0] == INIT && n < |agents|
    ensures TellsInRun(agents, acts, n, t)
  {
    if n > 0 {
      RunTells(agents, acts, n - 1, t);
      NextTells(agents, acts, n - 1, t);
    }
  }

  // The session in which thread t arrived has not broken since.
  predicate Unbroken(agents: seq<Agent>, acts: seq<Action>, n: nat, t: nat)
    requires n <= |acts| < |agents|
  {
    && n > 0 && !acts[n - 1].Disconnect? && !acts[n - 1].Restart?
    && (|agents[n - 1].threads| <= t < |agents[n].threads| || Unbroken(agents, acts, n - 1, t))
  }

  ghost predicate SessionAt(agents: seq<Agent>, acts: seq<Action>, n: nat, t: nat)
    requires n <= |acts| < |agents|
  {
    if t < |agents[n].threads|
    then agents[n].threads[t].session == agents[n].session <==> Unbroken(agents, acts, n, t)
    else !Unbroken(agents, acts, n, t)
  }

  lemma SessionStays(a: Agent, x: Action, t: nat)
    requires Enabled(a, x) && t < |Apply(a, x).threads|
    ensures if t < |a.threads| then Apply(a, x).threads[t].session == a.threads[t].session
            else Apply(a, x).threads[t].session == Apply(a, x).session
  {
  }

  lemma SessionMoves(a: Agent, x: Action)
    requires Enabled(a, x)
    ensures Apply(a, x).session == a.session + if x.Disconnect? || x.Restart? then 1 else 0
    ensures x.Disconnect? ==> Apply(a, x).threads == a.threads
    ensures x.Restart? ==> Apply(a, x).threads == []
    ensures !x.Restart? ==> |a.threads| <= |Apply(a, x).threads|
  {
  }

  lemma StepSession(agents: seq<Agent>, acts: seq<Action>, n: nat, t: nat)
    requires n < |acts| < |agents| && Step(agents[n], acts[n], agents[n + 1]) && AgentInv(agents[n])
    requires SessionAt(agents, acts, n, t)
    ensures SessionAt(agents, acts, n + 1, t)
  {
    SessionMoves(agents[n], acts[n]);
    if t < |agents[n + 1].threads| {
      SessionStays(agents[n], acts[n], t);
      if t < |agents[n].threads| {
        assert ThreadOk(agents[n], t);
      }
    }
  }

  lemma NextSession(agents: seq<Agent>, acts: seq<Action>, n: nat, t: nat)
    requires Run(agents, acts) && agents[0] == INIT && n < |acts| && SessionAt(agents, acts, n, t)
    ensures SessionAt(agents, acts, n + 1, t)
  {
    AgentKept(agents, acts, n);
    assert Step(agents[n], acts[n], agents[n + 1]);
    StepSession(agents, acts, n, t);
  }

  lemma {:induction false} RunSession(agents: seq<Agent>, acts: seq<Action>, n: nat, t: nat)
    requires Run(agents, acts) && agents[0] == INIT && n < |agents|
    ensures SessionAt(agents, acts, n, t)
  {
    if n > 0 {
      RunSession(agents, acts, n - 1, t);
      NextSession(agents, acts, n - 1, t);
    }
  }

  // ---- what it means ----

  /** A create says PROVISIONING and then FAILED, or RUNNING once or twice; a destroy says
      STOPPING and then STOPPED or FAILED. FAILED is said exactly by a thread whose work failed,
      and such a one says neither RUNNING nor STOPPED. Who has ended, its session unbroken, has
      told all of it; who has not has told a beginning. */
  lemma ReportsOf(agents: seq<Agent>, acts: seq<Action>, n: nat, t: nat)
    requires Run(agents, acts) && agents[0] == INIT && n < |agents| && t < |agents[n].threads|
    ensures var th, w := agents[n].threads[t], Words(agents, acts, n, t);
            if HasFailed(acts, n, t)
            then w <= [if th.kind.Create? then SayProvisioning else SayStopping, SayFailed]
            else if th.kind.Create? then w <= [SayProvisioning, SayRunning, SayRunning]
            else w <= [SayStopping, SayStopped]
    ensures var th, w := agents[n].threads[t], Words(agents, acts, n, t);
            th.pc.Finished? && Unbroken(agents, acts, n, t) ==>
              if HasFailed(acts, n, t)
              then w == [if th.kind.Create? then SayProvisioning else SayStopping, SayFailed]
              else if th.kind.Create? then w == [SayProvisioning, SayRunning] || w == [SayProvisioning, SayRunning, SayRunning]
              else w == [SayStopping, SayStopped]
  {
    RunTells(agents, acts, n, t);
    RunSession(agents, acts, n, t);
    var th, w := agents[n].threads[t], Words(agents, acts, n, t);
    var story := Story(th.kind, HasFailed(acts, n, t));
    assert w == story[..|w|];
  }

  /** RUNNING is said only by a create that has not failed and has given its slot back. */
  lemma RunningMeansReleased(agents: seq<Agent>, acts: seq<Action>, n: nat, t: nat)
    requires Run(agents, acts) && agents[0] == INIT && n < |agents| && t < |agents[n].threads|
    requires SayRunning in Words(agents, acts, n, t)
    ensures agents[n].threads[t].kind.Create? && !HasFailed(acts, n, t)
    ensures forall s :: 0 <= s < |agents[n].slots| && agents[n].slots[s].maker == t ==>
              agents[n].slots[s].closed && forall i :: i in agents[n].inFlight ==> agents[n].inFlight[i] != s
  {
    ReportsOf(agents, acts, n, t);
    RunTells(agents, acts, n, t);
    AgentKept(agents, acts, n);
    var a, w := agents[n], Words(agents, acts, n, t);
    var story := Story(a.threads[t].kind, HasFailed(acts, n, t));
    assert w == story[..|w|];
    assert |w| >= 2;
    forall s | 0 <= s < |a.slots| && a.slots[s].maker == t ensures a.slots[s].closed {
      assert SlotOk(a, s);
    }
  }
}
