/** One agent and main-api together: the agent's reports reach main-api in order, some
    suffix of them may be lost when a session breaks, and between any two of them the
    control plane takes any other steps. */
module Composed {
  import opened Wrappers
  import opened Lifecycle
  import opened SlotTable
  import I = InstanceTable
  import C = ControlPlane
  import CR = ControlPlaneRuns
  import A = OpProtocol
  import AR = OpProtocolRuns
  import G = AgentStream
  import Profile
  import R = SlotRepo

  // applied counts the reports main-api has handled; releasing is set between the
  // transition and the slot release of a terminal report; tainted are the instances for
  // which a handling step was cut short by an error or a crash.
  datatype System = System(
    node: NodeId,
    plane: C.Plane,
    agent: A.Agent,
    applied: nat,
    releasing: Option<InstanceId>,
    tainted: set<InstanceId>)

  datatype Action =
    | Local(x: A.Action)
    | Central(c: C.Action)
    | Deliver(ok: bool, ip: Option<string>, error: string)   // applyInstanceStatus: the transition
    | Finish(ok: bool)                                       // applyInstanceStatus: the release

  function Init(node: NodeId): System {
    System(node, C.INIT, A.INIT, 0, None, {})
  }

  function Target(w: A.Word): State {
    match w
    case SayProvisioning => Provisioning
    case SayRunning => Running
    case SayStopping => Stopping
    case SayStopped => Stopped
    case SayFailed => Failed
  }

  // Apart from its agent, only deletes (stopping) and the reaper or a compensation (failed)
  // move a row of this node.
  predicate FromMainApi(s: System, c: C.Action) {
    c.Report? && c.id in s.plane.insts.rows && s.plane.insts.rows[c.id].node == s.node ==> c.to.Stopping? || c.to.Failed?
  }

  ghost predicate Enabled(s: System, x: Action) {
    match x
    case Local(y) => A.Enabled(s.agent, y) && (y.Disconnect? || y.Restart? ==> s.applied <= y.kept)
    case Central(c) => C.Enabled(s.plane, c) && FromMainApi(s, c)
    case Deliver(_, _, _) => s.applied < |s.agent.log| && s.releasing.None?
    case Finish(_) => s.releasing.Some?
  }

  // The control-plane action a step amounts to, if any.
  function Effect(s: System, x: Action): Option<C.Action> {
    match x
    case Local(_) => None
    case Central(c) => Some(c)
    case Deliver(ok, ip, error) =>
      if ok && s.applied < |s.agent.log|
      then Some(C.Report(s.agent.log[s.applied].id, Target(s.agent.log[s.applied].word), G.ReportOptions(ip, error)))
      else None
    case Finish(ok) => if ok && s.releasing.Some? then Some(C.Vacate(s.releasing.value)) else None
  }

  ghost function Plane(s: System, x: Action): C.Plane
    requires Enabled(s, x)
  {
    if Effect(s, x).Some? then C.Apply(s.plane, Effect(s, x).value) else s.plane
  }

  ghost function Apply(s: System, x: Action): System
    requires Enabled(s, x)
  {
    var s' := s.(plane := Plane(s, x));
    match x
    case Local(y) => s'.(agent := A.Apply(s.agent, y))
    case Central(c) =>
      if c.Crash? && s.releasing.Some? then s'.(releasing := None, tainted := s.tainted + {s.releasing.value}) else s'
    case Deliver(ok, _, _) =>
      var r := s.agent.log[s.applied];
      if ok then s'.(applied := s.applied + 1,
                     releasing := if IsTerminal(Target(r.word)) && r.id in s.plane.insts.rows then Some(r.id) else None)
      else s'.(applied := s.applied + 1, tainted := s.tainted + {r.id})
    case Finish(ok) => s'.(releasing := None, tainted := if ok then s.tainted else s.tainted + {s.releasing.value})
  }

  ghost predicate Step(s: System, x: Action, s': System) {
    Enabled(s, x) && s' == Apply(s, x)
  }

  ghost predicate Run(systems: seq<System>, acts: seq<Action>) {
    && |systems| == |acts| + 1
    && forall k :: 0 <= k < |acts| ==> Step(systems[k], acts[k], systems[k + 1])
  }

  // ---- between STOPPING and STOPPED ----

  // The states from which STOPPED is accepted, or needless.
  predicate Quiet(st: State) {
    !st.Provisioning? && !st.Running?
  }

  // While the last mark handled for an instance is STOPPING, its row cannot run.
  ghost predicate QuietWhileStopping(s: System, i: InstanceId) {
    (&& s.applied <= |s.agent.log|
     && AR.LastMark(s.agent.log[..s.applied], i) == Some(A.SayStopping)
     && i !in s.tainted && i in s.plane.insts.rows && s.plane.insts.rows[i].node == s.node)
    ==> Quiet(s.plane.insts.rows[i].state)
  }

  ghost predicate Inv(s: System) {
    && C.Inv(s.plane) && A.AgentInv(s.agent) && AR.LogInv(s.agent)
    && s.applied <= |s.agent.log|
    && forall i :: QuietWhileStopping(s, i)
  }

  // What a control-plane action can do to a row.
  lemma RowMoves(s: System, c: C.Action, i: InstanceId)
    requires C.InstInv(s.plane) && C.Enabled(s.plane, c) && FromMainApi(s, c) && i in C.Apply(s.plane, c).insts.rows
    ensures var r' := C.Apply(s.plane, c).insts.rows[i];
            if i in s.plane.insts.rows
            then r'.node == s.plane.insts.rows[i].node
                 && (r'.node == s.node ==> r'.state == s.plane.insts.rows[i].state || r'.state.Stopping? || r'.state.Failed?)
            else r'.state.Pending?
  {
    if c.Report? {
      I.TransitionEvolves(s.plane.insts, c.id, c.to, c.opts);
    } else if c.MarkFailed? {
      I.TransitionEvolves(s.plane.insts, s.plane.sagas[c.req].inst.value, Failed, c.opts);
    } else if !CR.TouchesRows(c) {
      CR.RowsStay(s.plane, c);
    }
  }

  lemma LastMarkStep(log: seq<A.Report>, n: nat, i: InstanceId)
    requires n < |log|
    ensures AR.LastMark(log[..n + 1], i)
         == if log[n].id == i && log[n].word != A.SayRunning then Some(log[n].word) else AR.LastMark(log[..n], i)
  {
    assert log[..n + 1][..n] == log[..n];
  }

  // What handling the next report makes of a row.
  lemma DeliverMoves(s: System, x: Action, i: InstanceId)
    requires Enabled(s, x) && x.Deliver?
    ensures var d, d', r := s.plane.insts, Apply(s, x).plane.insts, s.agent.log[s.applied];
            && d'.rows.Keys == d.rows.Keys
            && (i in d.rows ==> (
                  d'.rows[i].node == d.rows[i].node
                  && d'.rows[i].state == if x.ok && r.id == i && CanTransition(d.rows[i].state, Target(r.word))
                                         then Target(r.word) else d.rows[i].state))
  {
    if x.ok {
      var r := s.agent.log[s.applied];
      I.TransitionEvolves(s.plane.insts, r.id, Target(r.word), G.ReportOptions(x.ip, x.error));
    }
  }

  lemma DeliverKeepsQuiet(s: System, x: Action, i: InstanceId)
    requires Enabled(s, x) && x.Deliver? && QuietWhileStopping(s, i)
    ensures QuietWhileStopping(Apply(s, x), i)
  {
    LastMarkStep(s.agent.log, s.applied, i);
    DeliverMoves(s, x, i);
  }

  lemma LocalKeepsQuiet(s: System, y: A.Action, i: InstanceId)
    requires Enabled(s, Local(y)) && s.applied <= |s.agent.log| && QuietWhileStopping(s, i)
    ensures QuietWhileStopping(Apply(s, Local(y)), i) && s.applied <= |Apply(s, Local(y)).agent.log|
  {
    var log, log' := s.agent.log, Apply(s, Local(y)).agent.log;
    assert s.applied <= |log'| && log'[..s.applied] == log[..s.applied];
  }

  lemma CentralKeepsQuiet(s: System, c: C.Action, i: InstanceId)
    requires C.InstInv(s.plane) && Enabled(s, Central(c)) && QuietWhileStopping(s, i)
    ensures QuietWhileStopping(Apply(s, Central(c)), i)
  {
    if i in C.Apply(s.plane, c).insts.rows {
      RowMoves(s, c, i);
    }
  }

  lemma FinishKeepsQuiet(s: System, ok: bool, i: InstanceId)
    requires Enabled(s, Finish(ok)) && QuietWhileStopping(s, i)
    ensures QuietWhileStopping(Apply(s, Finish(ok)), i)
  {
  }

  lemma QuietKept(s: System, x: Action, i: InstanceId)
    requires Inv(s) && Enabled(s, x)
    ensures QuietWhileStopping(Apply(s, x), i)
  {
    assert QuietWhileStopping(s, i);
    match x
    case Local(y) => LocalKeepsQuiet(s, y, i);
    case Central(c) => CentralKeepsQuiet(s, c, i);
    case Deliver(_, _, _) => DeliverKeepsQuiet(s, x, i);
    case Finish(ok) => FinishKeepsQuiet(s, ok, i);
  }

  // Nothing but an effect changes the control plane, nothing but a local step the agent.
  lemma PartsKept(s: System, x: Action)
    requires Inv(s) && Enabled(s, x)
    ensures C.Inv(Apply(s, x).plane)
    ensures A.AgentInv(Apply(s, x).agent) && AR.LogInv(Apply(s, x).agent)
  {
    if Effect(s, x).Some? {
      C.StepKeeps(s.plane, Effect(s, x).value);
    }
    if x.Local? {
      A.StepKeeps(s.agent, x.x);
      AR.LogKept(s.agent, x.x);
    }
  }

  lemma AppliedKept(s: System, x: Action)
    requires Inv(s) && Enabled(s, x)
    ensures Apply(s, x).applied <= |Apply(s, x).agent.log|
  {
    if x.Local? {
      LocalKeepsQuiet(s, x.x, 0);
    }
  }

  lemma StepKeeps(s: System, x: Action)
    requires Inv(s) && Enabled(s, x)
    ensures Inv(Apply(s, x))
  {
    PartsKept(s, x);
    AppliedKept(s, x);
    forall i ensures QuietWhileStopping(Apply(s, x), i) {
      QuietKept(s, x, i);
    }
  }

  lemma {:induction false} RunKeeps(systems: seq<System>, acts: seq<Action>, k: nat)
    requires Run(systems, acts) && Inv(systems[0]) && k < |systems|
    ensures Inv(systems[k])
  {
    if k > 0 {
      RunKeeps(systems, acts, k - 1);
      assert Step(systems[k - 1], acts[k - 1], systems[k]);
      StepKeeps(systems[k - 1], acts[k - 1]);
    }
  }

  lemma InitInv(node: NodeId)
    ensures Inv(Init(node))
  {
    forall i ensures QuietWhileStopping(Init(node), i) {
      assert AR.LastMark([], i) == None;
    }
    forall i ensures I.ReplaysAt(C.INIT.insts, i) {}
  }

  // ---- the theorem ----

  // A successful handling of a STOPPED report about i.
  ghost predicate HandlesStopped(s: System, x: Action, i: InstanceId) {
    && Enabled(s, x) && x.Deliver? && x.ok
    && s.agent.log[s.applied] == A.Report(i, A.SayStopped)
    && i in s.plane.insts.rows
  }

  /** Handling one STOPPED report leaves the row terminal if and only if the row was not
      provisioning or running just before. */
  lemma StoppedLandsIff(s: System, x: Action, i: InstanceId)
    requires HandlesStopped(s, x, i)
    ensures i in Apply(s, x).plane.insts.rows
    ensures IsTerminal(Apply(s, x).plane.insts.rows[i].state) <==> Quiet(s.plane.insts.rows[i].state)
  {
    DeliverMoves(s, x, i);
  }

  /** The other half of the condition at work: a STOPPED that finds the row running (its
      STOPPING was lost) is rejected, yet the slots go: a running row that holds nothing. */
  lemma RejectedStillReleases(s: System, x: Action, i: InstanceId)
    requires HandlesStopped(s, x, i) && s.plane.insts.rows[i].state.Running?
    ensures var s' := Apply(s, x);
            && Enabled(s', Finish(true))
            && i in Apply(s', Finish(true)).plane.insts.rows
            && Apply(s', Finish(true)).plane.insts.rows[i].state.Running?
            && HeldBy(Apply(s', Finish(true)).plane.slots, i) == {}
  {
    StoppedLandsIff(s, x, i);
  }

  // ---- such a state does arise ----

  ghost predicate Reaches(systems: seq<System>, acts: seq<Action>, node: NodeId, s: System) {
    Run(systems, acts) && systems[0] == Init(node) && systems[|acts|] == s
  }

  ghost predicate Reachable(node: NodeId, s: System) {
    exists systems, acts :: Reaches(systems, acts, node, s)
  }

  lemma Extend(node: NodeId, s: System, x: Action)
    requires Reachable(node, s) && Enabled(s, x)
    ensures Reachable(node, Apply(s, x))
  {
    var systems, acts :| Reaches(systems, acts, node, s);
    var systems', acts' := systems + [Apply(s, x)], acts + [x];
    forall k | 0 <= k < |acts'| ensures Step(systems'[k], acts'[k], systems'[k + 1]) {
      if k < |acts| {
        assert Step(systems[k], acts[k], systems[k + 1]);
      }
    }
    assert Reaches(systems', acts', node, Apply(s, x));
  }

  lemma CentralStep(node: NodeId, s: System, c: C.Action) returns (s': System)
    requires Reachable(node, s) && C.Enabled(s.plane, c) && !c.Report? && !c.Crash?
    ensures Reachable(node, s') && s' == s.(plane := C.Apply(s.plane, c))
  {
    Extend(node, s, Central(c));
    s' := Apply(s, Central(c));
  }

  lemma LocalStep(node: NodeId, s: System, y: A.Action) returns (s': System)
    requires Reachable(node, s) && A.Enabled(s.agent, y) && !y.Disconnect? && !y.Restart?
    ensures Reachable(node, s') && s' == s.(agent := A.Apply(s.agent, y))
  {
    Extend(node, s, Local(y));
    s' := Apply(s, Local(y));
  }

  // main-api boots and the node reports one slot with one GPU.
  lemma OneSlot() returns (s: System)
    ensures Reachable(0, s) && s == Init(0).(plane := s.plane) && s.plane.serving && s.plane.sagas == map[]
    ensures s.plane.insts == I.Tables(map[], []) && s.plane.nextInst == 0
    ensures s.plane.slots == map[0 := Slot(0, 0, 1, [0], "", Free, None)]
  {
    assert Reaches([Init(0)], [], 0, Init(0));
    s := CentralStep(0, Init(0), C.Recover);
    var layout := [Profile.SlotYaml(1, [0], "")];
    assert Profile.Flat(layout, 1) == Profile.Flat(layout, 0) + [0] == [0];
    s := CentralStep(0, s, C.Sync(0, layout, [0]));
  }

  // A request reserves it ...
  lemma OneReserved() returns (s: System)
    ensures Reachable(0, s) && s == Init(0).(plane := s.plane) && s.plane.serving
    ensures s.plane.sagas == map[0 := C.Saga(C.Inserting, 0, 1, [0], None)]
    ensures s.plane.insts == I.Tables(map[], []) && s.plane.nextInst == 0
    ensures s.plane.slots == map[0 := Slot(0, 0, 1, [0], "", Reserved, None)]
  {
    s := OneSlot();
    assert Candidates(s.plane.slots, 0, 1) == {0} == R.Ids([0]);
    s := CentralStep(0, s, C.Reserve(0, 0, 1, [0]));
    s := CentralStep(0, s, C.Resolve(0, true));
  }

  // ... and inserts its row.
  lemma OneRow() returns (s: System)
    ensures Reachable(0, s) && s == Init(0).(plane := s.plane) && s.plane.serving
    ensures s.plane.sagas == map[0 := C.Saga(C.Binding, 0, 1, [0], Some(0))]
    ensures s.plane.slots == map[0 := Slot(0, 0, 1, [0], "", Reserved, None)]
    ensures s.plane.insts.rows == map[0 := I.Row(0, None, 1, [0], Pending, None, "")]
  {
    s := OneReserved();
    assert C.Indices(s.plane.slots, [0]) == [0];
    s := CentralStep(0, s, C.Insert(0, true, None));
  }

  // It binds and dispatches.
  lemma OneInstance() returns (s: System)
    ensures Reachable(0, s) && s == Init(0).(plane := s.plane)
    ensures s.plane.slots == map[0 := Slot(0, 0, 1, [0], "", InUse, Some(0))]
    ensures s.plane.insts.rows == map[0 := I.Row(0, None, 1, [0], Pending, None, "")]
  {
    s := OneRow();
    s := CentralStep(0, s, C.Bind(0, true));
    s := CentralStep(0, s, C.Dispatch(0, true));
  }

  // The agent starts to create the machine ...
  lemma OneBegun() returns (s: System)
    ensures Reachable(0, s) && s == Init(0).(plane := s.plane, agent := s.agent)
    ensures s.plane.slots == map[0 := Slot(0, 0, 1, [0], "", InUse, Some(0))]
    ensures s.plane.insts.rows == map[0 := I.Row(0, None, 1, [0], Pending, None, "")]
    ensures s.agent == A.Agent([A.Thread(0, A.Create, 0, A.Owning(0, A.Working), {})], [A.OpSlot(A.Create, 0, false, false, 0)],
                               map[0 := 0], 0, [A.Report(0, A.SayProvisioning)])
  {
    s := OneInstance();
    s := LocalStep(0, s, A.Arrive(0, A.Create));
    s := LocalStep(0, s, A.Lock(0));
    s := LocalStep(0, s, A.Begin(0));
  }

  // ... says that it runs ...
  lemma OneMachine() returns (s: System)
    ensures Reachable(0, s) && s == Init(0).(plane := s.plane, agent := s.agent)
    ensures s.plane.slots == map[0 := Slot(0, 0, 1, [0], "", InUse, Some(0))]
    ensures s.plane.insts.rows == map[0 := I.Row(0, None, 1, [0], Pending, None, "")]
    ensures s.agent.log == [A.Report(0, A.SayProvisioning), A.Report(0, A.SayRunning)]
    ensures |s.agent.threads| == 1 && s.agent.inFlight == map[] && s.agent.session == 0
  {
    s := OneBegun();
    s := LocalStep(0, s, A.Release(0));
    s := LocalStep(0, s, A.CloseDone(0));
    s := LocalStep(0, s, A.Announce(0));
  }

  // ... and destroys it.
  lemma OneTeardown() returns (s: System)
    ensures Reachable(0, s) && s == Init(0).(plane := s.plane, agent := s.agent)
    ensures s.plane.slots == map[0 := Slot(0, 0, 1, [0], "", InUse, Some(0))]
    ensures s.plane.insts.rows == map[0 := I.Row(0, None, 1, [0], Pending, None, "")]
    ensures s.agent.log == [A.Report(0, A.SayProvisioning), A.Report(0, A.SayRunning), A.Report(0, A.SayStopping), A.Report(0, A.SayStopped)]
  {
    s := OneMachine();
    s := LocalStep(0, s, A.Arrive(0, A.Destroy));
    s := LocalStep(0, s, A.Lock(1));
    s := LocalStep(0, s, A.Begin(1));
    s := LocalStep(0, s, A.Stop(1));
  }

  lemma DeliverStep(s: System, ok: bool, i: InstanceId) returns (s': System)
    requires Reachable(0, s) && Enabled(s, Deliver(ok, None, "")) && s.agent.log[s.applied].id == i && i in s.plane.insts.rows
    ensures Reachable(0, s') && s'.agent == s.agent && s'.applied == s.applied + 1 && s'.plane.slots == s.plane.slots
    ensures i in s'.plane.insts.rows
    ensures var from, to := s.plane.insts.rows[i].state, Target(s.agent.log[s.applied].word);
            && s'.plane.insts.rows[i].state == (if ok && CanTransition(from, to) then to else from)
            && s'.releasing == if ok && IsTerminal(to) then Some(i) else None
  {
    Extend(0, s, Deliver(ok, None, ""));
    s' := Apply(s, Deliver(ok, None, ""));
    DeliverMoves(s, Deliver(ok, None, ""), i);
  }

  /** A running row that holds no slot is reached: the report STOPPING is lost to an error, so
      STOPPED finds the row running, is rejected, and still releases. */
  lemma RunningWithoutSlots() returns (s: System)
    ensures Reachable(0, s)
    ensures 0 in s.plane.insts.rows && s.plane.insts.rows[0].state.Running? && HeldBy(s.plane.slots, 0) == {}
  {
    s := OneTeardown();
    s := DeliverStep(s, true, 0);
    s := DeliverStep(s, true, 0);
    s := DeliverStep(s, false, 0);
    s := DeliverStep(s, true, 0);
    Extend(0, s, Finish(true));
    s := Apply(s, Finish(true));
  }

  // ---- and when it does not ----

  /** So unless an earlier report about the instance was lost to an error, the row is
      terminal once STOPPED has been handled, whatever state it was in before the destroy
      and whatever ran in between. */
  lemma StoppedLands(systems: seq<System>, acts: seq<Action>, j: nat, i: InstanceId)
    requires Run(systems, acts) && Inv(systems[0]) && j < |acts|
    requires HandlesStopped(systems[j], acts[j], i)
    requires systems[j].plane.insts.rows[i].node == systems[j].node && i !in systems[j].tainted
    ensures i in systems[j + 1].plane.insts.rows && IsTerminal(systems[j + 1].plane.insts.rows[i].state)
    ensures systems[j + 1].releasing == Some(i)
  {
    RunKeeps(systems, acts, j);
    var s := systems[j];
    assert QuietWhileStopping(s, i);
    assert Step(s, acts[j], systems[j + 1]);
    StoppedLandsIff(s, acts[j], i);
  }

  lemma {:induction false} TerminalStays(systems: seq<System>, acts: seq<Action>, j: nat, k: nat, i: InstanceId)
    requires Run(systems, acts) && Inv(systems[0]) && j <= k < |systems|
    requires i < systems[j].plane.nextInst
    requires i in systems[k].plane.insts.rows
    ensures i in systems[j].plane.insts.rows
    ensures IsTerminal(systems[j].plane.insts.rows[i].state) ==>
              systems[k].plane.insts.rows[i].state == systems[j].plane.insts.rows[i].state
    decreases k - j
  {
    if j < k {
      RunKeeps(systems, acts, j);
      var s, x := systems[j], acts[j];
      assert Step(s, x, systems[j + 1]);
      if Effect(s, x).Some? {
        CR.RowStep(s.plane, Effect(s, x).value, i);
        if i in systems[j + 1].plane.insts.rows {
          TerminalStays(systems, acts, j + 1, k, i);
        } else {
          GoneStays(systems, acts, j + 1, k, i);
        }
      } else {
        TerminalStays(systems, acts, j + 1, k, i);
      }
    }
  }

  lemma {:induction false} GoneStays(systems: seq<System>, acts: seq<Action>, j: nat, k: nat, i: InstanceId)
    requires Run(systems, acts) && Inv(systems[0]) && j <= k < |systems|
    requires i < systems[j].plane.nextInst && i !in systems[j].plane.insts.rows
    ensures i !in systems[k].plane.insts.rows
    decreases k - j
  {
    if j < k {
      RunKeeps(systems, acts, j);
      var s, x := systems[j], acts[j];
      assert Step(s, x, systems[j + 1]);
      if Effect(s, x).Some? {
        CR.RowStep(s.plane, Effect(s, x).value, i);
      }
      GoneStays(systems, acts, j + 1, k, i);
    }
  }

  lemma {:induction false} HoldsNothingStays(systems: seq<System>, acts: seq<Action>, j: nat, k: nat, i: InstanceId)
    requires Run(systems, acts) && Inv(systems[0]) && j <= k < |systems|
    requires CR.PastBind(systems[j].plane, i) && HeldBy(systems[j].plane.slots, i) == {}
    ensures HeldBy(systems[k].plane.slots, i) == {}
    decreases k - j
  {
    if j < k {
      RunKeeps(systems, acts, j);
      var s, x := systems[j], acts[j];
      assert Step(s, x, systems[j + 1]);
      if Effect(s, x).Some? {
        CR.PastBindStep(s.plane, Effect(s, x).value, i);
        forall n | n in HeldBy(systems[j + 1].plane.slots, i) ensures n in HeldBy(s.plane.slots, i) {
          CR.HoldingsStep(s.plane, Effect(s, x).value, i, n);
        }
      }
      HoldsNothingStays(systems, acts, j + 1, k, i);
    }
  }

  /** After STOPPED: at every later moment the row is gone or terminal. */
  lemma StoppedIsFinal(systems: seq<System>, acts: seq<Action>, node: NodeId, j: nat, k: nat, i: InstanceId)
    requires Run(systems, acts) && systems[0] == Init(node) && j < k < |systems|
    requires HandlesStopped(systems[j], acts[j], i)
    requires systems[j].plane.insts.rows[i].node == systems[j].node && i !in systems[j].tainted
    ensures i in systems[k].plane.insts.rows ==> IsTerminal(systems[k].plane.insts.rows[i].state)
  {
    InitInv(node);
    StoppedLands(systems, acts, j, i);
    RunKeeps(systems, acts, j + 1);
    if i in systems[k].plane.insts.rows {
      TerminalStays(systems, acts, j + 1, k, i);
    }
  }

  /** And once the release that follows has gone through, an instance whose create was past
      Bind holds no slot ever again. */
  lemma ReleasedIsFinal(systems: seq<System>, acts: seq<Action>, node: NodeId, m: nat, k: nat, i: InstanceId)
    requires Run(systems, acts) && systems[0] == Init(node) && m < k < |systems|
    requires acts[m] == Finish(true) && systems[m].releasing == Some(i) && CR.PastBind(systems[m].plane, i)
    ensures HeldBy(systems[k].plane.slots, i) == {}
  {
    InitInv(node);
    RunKeeps(systems, acts, m);
    var s := systems[m];
    assert Step(s, acts[m], systems[m + 1]);
    CR.PastBindStep(s.plane, C.Vacate(i), i);
    HoldsNothingStays(systems, acts, m + 1, k, i);
  }

  // ---- the other reports ----

  function OnWire(w: A.Word): G.WireState {
    match w
    case SayProvisioning => G.WProvisioning
    case SayRunning => G.WRunning
    case SayStopping => G.WStopping
    case SayStopped => G.WStopped
    case SayFailed => G.WFailed
  }

  /** Delivering a report and finishing it is what ApplyInstanceStatus does with the word on the
      wire: the same target, and by Heard the same row. */
  lemma DeliverIsHeard(s: System, x: Action, i: InstanceId)
    requires Enabled(s, x) && x.Deliver? && x.ok && s.agent.log[s.applied].id == i && i in s.plane.insts.rows
    ensures var w := s.agent.log[s.applied].word;
            && G.MapInstanceState(OnWire(w)) == Some(Target(w))
            && G.Heard(OnWire(w), s.plane.insts.rows[i], Apply(s, x).plane.insts.rows[i], x.ip, x.error)
  {
    G.HeardRow(s.plane.insts, i, OnWire(s.agent.log[s.applied].word), x.ip, x.error);
  }

  /** A FAILED that is handled always lands, with its error; and it lets go of the slots next. */
  lemma FailedLands(s: System, x: Action, i: InstanceId)
    requires Enabled(s, x) && x.Deliver? && x.ok && i in s.plane.insts.rows
    requires s.agent.log[s.applied] == A.Report(i, A.SayFailed)
    ensures var r, r' := s.plane.insts.rows[i], Apply(s, x).plane.insts.rows[i];
            && (r.state != Stopped ==> r'.state == Failed && (x.error != "" ==> r'.errorMessage == x.error))
            && (r.state == Stopped ==> r' == r)
    ensures Apply(s, x).releasing == Some(i)
  {
    DeliverIsHeard(s, x, i);
  }

  // Some step so far was a create's RUNNING about the instance.
  ghost predicate Announced(systems: seq<System>, acts: seq<Action>, n: nat, i: InstanceId)
    requires n <= |acts| < |systems|
  {
    exists k :: 0 <= k < n && IsAnnouncement(systems[k], acts[k], i)
  }

  predicate IsAnnouncement(s: System, x: Action, i: InstanceId) {
    && x.Local? && (x.x.Announce? || (x.x.Publish? && x.x.found))
    && x.x.t < |s.agent.threads| && s.agent.threads[x.x.t].id == i && s.agent.threads[x.x.t].kind.Create?
    && (s.agent.threads[x.x.t].pc.Announcing? || s.agent.threads[x.x.t].pc.Polling?)
  }

  // A report that the step adds to the stream says RUNNING only if it is an announcement.
  lemma NewReport(s: System, x: Action, j: nat)
    requires A.AgentInv(s.agent) && Enabled(s, x) && |s.agent.log| <= j < |Apply(s, x).agent.log|
    ensures j == |s.agent.log|
    ensures Apply(s, x).agent.log[j].word.SayRunning? ==> IsAnnouncement(s, x, Apply(s, x).agent.log[j].id)
  {
    assert x.Local?;
    if x.x.Announce? || x.x.Publish? {
      assert A.ThreadOk(s.agent, x.x.t);
    }
  }

  lemma OldReport(s: System, x: Action, j: nat)
    requires Enabled(s, x) && j < |s.agent.log| && j < |Apply(s, x).agent.log|
    ensures Apply(s, x).agent.log[j] == s.agent.log[j]
  {
  }

  lemma BecomesRunning(s: System, x: Action, i: InstanceId)
    requires C.InstInv(s.plane) && Enabled(s, x)
    requires i in Apply(s, x).plane.insts.rows && Apply(s, x).plane.insts.rows[i].state.Running?
    requires Apply(s, x).plane.insts.rows[i].node == s.node
    ensures || (i in s.plane.insts.rows && s.plane.insts.rows[i].state.Running? && s.plane.insts.rows[i].node == s.node)
            || (x.Deliver? && s.agent.log[s.applied] == A.Report(i, A.SayRunning))
  {
    match x
    case Local(_) =>
    case Central(c) => RowMoves(s, c, i);
    case Deliver(_, _, _) => DeliverMoves(s, x, i);
    case Finish(_) =>
  }

  // What the run so far has announced covers the stream and the rows.
  ghost predicate Covered(systems: seq<System>, acts: seq<Action>, n: nat, node: NodeId)
    requires n <= |acts| < |systems|
  {
    var s := systems[n];
    && s.node == node
    && (forall j :: 0 <= j < |s.agent.log| && s.agent.log[j].word.SayRunning? ==> Announced(systems, acts, n, s.agent.log[j].id))
    && forall i :: i in s.plane.insts.rows && s.plane.insts.rows[i].state.Running? && s.plane.insts.rows[i].node == node ==>
         Announced(systems, acts, n, i)
  }

  lemma AnnouncedStays(systems: seq<System>, acts: seq<Action>, n: nat, i: InstanceId)
    requires n < |acts| < |systems| && (Announced(systems, acts, n, i) || IsAnnouncement(systems[n], acts[n], i))
    ensures Announced(systems, acts, n + 1, i)
  {
  }

  lemma CoveredStep(systems: seq<System>, acts: seq<Action>, n: nat, node: NodeId)
    requires n < |acts| < |systems| && Step(systems[n], acts[n], systems[n + 1]) && Inv(systems[n])
    requires Covered(systems, acts, n, node)
    ensures Covered(systems, acts, n + 1, node)
  {
    var s, x, s' := systems[n], acts[n], systems[n + 1];
    forall j | 0 <= j < |s'.agent.log| && s'.agent.log[j].word.SayRunning?
      ensures Announced(systems, acts, n + 1, s'.agent.log[j].id)
    {
      if j < |s.agent.log| {
        OldReport(s, x, j);
      } else {
        NewReport(s, x, j);
      }
      AnnouncedStays(systems, acts, n, s'.agent.log[j].id);
    }
    forall i | i in s'.plane.insts.rows && s'.plane.insts.rows[i].state.Running? && s'.plane.insts.rows[i].node == node
      ensures Announced(systems, acts, n + 1, i)
    {
      BecomesRunning(s, x, i);
      AnnouncedStays(systems, acts, n, i);
    }
  }

  lemma CoveredInRun(systems: seq<System>, acts: seq<Action>, node: NodeId, n: nat)
    requires Run(systems, acts) && systems[0] == Init(node) && n < |acts| && Covered(systems, acts, n, node)
    ensures Covered(systems, acts, n + 1, node)
  {
    InitInv(node);
    RunKeeps(systems, acts, n);
    assert Step(systems[n], acts[n], systems[n + 1]);
    CoveredStep(systems, acts, n, node);
  }

  /** End to end: in no run does a row of the node become running unless a create of that
      instance got through its work, released its slot and said so. */
  lemma {:induction false} RunningWasAnnounced(systems: seq<System>, acts: seq<Action>, node: NodeId, n: nat)
    requires Run(systems, acts) && systems[0] == Init(node) && n < |systems|
    ensures Covered(systems, acts, n, node)
    ensures var rows := systems[n].plane.insts.rows;
            forall i :: i in rows && rows[i].state.Running? && rows[i].node == node ==> Announced(systems, acts, n, i)
  {
    if n > 0 {
      RunningWasAnnounced(systems, acts, node, n - 1);
      CoveredInRun(systems, acts, node, n - 1);
    }
  }
}
