/** What holds of every run of the control plane, whatever the interleaving. */
module ControlPlaneRuns {
  import opened Wrappers
  import opened Lifecycle
  import opened SlotTable
  import I = InstanceTable
  import Profile
  import R = SlotRepo
  import opened ControlPlane

  ghost predicate Step(s: Plane, a: Action, s': Plane) {
    Enabled(s, a) && s' == Apply(s, a)
  }

  ghost predicate Run(states: seq<Plane>, acts: seq<Action>) {
    && |states| == |acts| + 1
    && forall k :: 0 <= k < |acts| ==> Step(states[k], acts[k], states[k + 1])
  }

  ghost predicate Reaches(states: seq<Plane>, acts: seq<Action>, s: Plane) {
    Run(states, acts) && states[0] == INIT && states[|acts|] == s
  }

  ghost predicate Reachable(s: Plane) {
    exists states, acts :: Reaches(states, acts, s)
  }

  lemma {:induction false} RunKeeps(states: seq<Plane>, acts: seq<Action>, k: nat)
    requires Run(states, acts) && Inv(states[0]) && k < |states|
    ensures Inv(states[k])
  {
    if k > 0 {
      RunKeeps(states, acts, k - 1);
      assert Step(states[k - 1], acts[k - 1], states[k]);
      StepKeeps(states[k - 1], acts[k - 1]);
    }
  }

  lemma ReachableInv(s: Plane)
    requires Reachable(s)
    ensures Inv(s)
  {
    var states, acts :| Reaches(states, acts, s);
    RunKeeps(states, acts, |acts|);
  }

  // ---- exclusivity ----

  /** Two different instances bound on one node never share a GPU. */
  lemma GpuExclusive(s: Plane, a: SlotId, b: SlotId, x: InstanceId, y: InstanceId, g: int)
    requires Reachable(s) && a in s.slots && b in s.slots && x != y
    requires s.slots[a].holder == Some(x) && s.slots[b].holder == Some(y)
    requires s.slots[a].node == s.slots[b].node
    ensures !(g in s.slots[a].gpus && g in s.slots[b].gpus)
  {
    ReachableInv(s);
  }

  /** A bound slot and its holder's row agree on node, size and slot index, through every
      step, profile replacement included. */
  lemma HoldersAgree(s: Plane, i: SlotId, x: InstanceId)
    requires Reachable(s) && i in s.slots && s.slots[i].holder == Some(x)
    ensures x in s.insts.rows && s.slots[i].status.InUse?
    ensures Agree(s.slots[i], s.insts.rows[x]) && s.slots[i].gpuCount == |s.slots[i].gpus|
  {
    ReachableInv(s);
    assert SlotOk(s, i);
  }

  // ---- who owns the reserved rows ----

  function LiveSlots(s: Plane): set<SlotId> {
    set q, i | q in s.sagas && Live(s.sagas[q]) && i in s.sagas[q].res :: i
  }

  lemma ReservedRows(s: Plane)
    requires Inv(s)
    ensures LiveSlots(s) == s.owner.Keys
    ensures WithStatus(s.slots, Reserved) == LiveSlots(s) + s.orphans
    ensures LiveSlots(s) !! s.orphans
    ensures forall q, p, i ::
              (q in s.sagas && p in s.sagas && q != p && Live(s.sagas[q]) && Live(s.sagas[p]) && i in s.sagas[q].res)
              ==> i !in s.sagas[p].res
  {
    forall i ensures i in LiveSlots(s) <==> i in s.owner {
      if i in s.owner {
        assert SlotOk(s, i);
      }
      if q :| q in s.sagas && Live(s.sagas[q]) && i in s.sagas[q].res {
        assert SagaOk(s, q);
      }
    }
    forall i ensures i in WithStatus(s.slots, Reserved) <==> i in s.owner || i in s.orphans {
      if i in s.slots {
        assert SlotOk(s, i);
      }
    }
    forall i | i in s.owner ensures i !in s.orphans {
      assert SlotOk(s, i);
    }
    forall q, p, i | q in s.sagas && p in s.sagas && q != p && Live(s.sagas[q]) && Live(s.sagas[p])
                     && i in s.sagas[q].res ensures i !in s.sagas[p].res {
      assert SagaOk(s, q) && SagaOk(s, p);
    }
  }

  // The slots that, since the last recovery, a crash cut off from a live request or a request
  // failed to give back.
  function LeftBehind(states: seq<Plane>, acts: seq<Action>, n: nat): set<SlotId>
    requires n <= |acts| < |states|
  {
    if n == 0 then {}
    else
      var s, before := states[n - 1], LeftBehind(states, acts, n - 1);
      match acts[n - 1]
      case Recover => {}
      case Crash => before + LiveSlots(s)
      case ReleaseRes(q, ok) => if !ok && q in s.sagas then before + R.Ids(s.sagas[q].res) else before
      case _ => before
  }

  lemma OrphansAfter(s: Plane, a: Action)
    requires Enabled(s, a)
    ensures Apply(s, a).orphans
         == match a
            case Recover => {}
            case Crash => s.orphans + s.owner.Keys
            case ReleaseRes(q, ok) => if !ok && q in s.sagas then s.orphans + R.Ids(s.sagas[q].res) else s.orphans
            case _ => s.orphans
  {
  }

  lemma {:induction false} OrphansAreLeftBehind(states: seq<Plane>, acts: seq<Action>, n: nat)
    requires Run(states, acts) && states[0] == INIT && n < |states|
    ensures states[n].orphans == LeftBehind(states, acts, n)
  {
    if n > 0 {
      OrphansAreLeftBehind(states, acts, n - 1);
      RunKeeps(states, acts, n - 1);
      assert Step(states[n - 1], acts[n - 1], states[n]);
      OrphansAfter(states[n - 1], acts[n - 1]);
      ReservedRows(states[n - 1]);
    }
  }

  /** In every run the reserved rows are exactly the live reservations, which are pairwise
      disjoint, plus what crashes and failed releases have left since the last recovery. */
  lemma ReservationLedger(states: seq<Plane>, acts: seq<Action>, n: nat)
    requires Run(states, acts) && states[0] == INIT && n < |states|
    ensures var s := states[n];
            && WithStatus(s.slots, Reserved) == LiveSlots(s) + LeftBehind(states, acts, n)
            && LiveSlots(s) !! LeftBehind(states, acts, n)
            && forall q, p, i ::
                 (q in s.sagas && p in s.sagas && q != p && Live(s.sagas[q]) && Live(s.sagas[p]) && i in s.sagas[q].res)
                 ==> i !in s.sagas[p].res
  {
    RunKeeps(states, acts, n);
    ReservedRows(states[n]);
    OrphansAreLeftBehind(states, acts, n);
  }

  /** A request waiting to bind always finds its slots still reserved: only a missing
      instance row (or the connection) can stop it. */
  lemma LiveIsBindable(s: Plane, q: ReqId)
    requires Reachable(s) && At(s, q, Binding)
    ensures s.sagas[q].inst.Some?
    ensures CanBind(s, s.sagas[q]) <==> s.sagas[q].inst.value in s.insts.rows
  {
    ReachableInv(s);
    assert SagaOk(s, q);
    forall i | i in s.sagas[q].res ensures i in s.slots && s.slots[i].status.Reserved? {
      assert SlotOk(s, i);
    }
  }

  /** A profile sync never touches a slot that a live request or an instance needs. */
  lemma SyncSparesLive(s: Plane, a: Action, i: SlotId)
    requires Reachable(s) && Enabled(s, a) && a.Sync?
    requires i in LiveSlots(s) || (i in s.slots && s.slots[i].holder.Some?)
    ensures i in s.slots && i in Apply(s, a).slots && Apply(s, a).slots[i] == s.slots[i]
  {
    ReachableInv(s);
    if q :| q in s.sagas && Live(s.sagas[q]) && i in s.sagas[q].res {
      assert SagaOk(s, q);
    }
    assert SlotOk(s, i);
    SyncKeepsSlots(s, a);
  }

  /** Boot recovery leaves no reserved row and changes no other row. */
  lemma RecoveryIsExact(s: Plane)
    requires Reachable(s) && !s.serving
    ensures var t := Apply(s, Recover).slots;
            && WithStatus(t, Reserved) == {} && t.Keys == s.slots.Keys
            && forall i :: i in s.slots ==>
                 t[i] == if s.slots[i].status.Reserved? then Freed(s.slots[i]) else s.slots[i]
  {
    ReachableInv(s);
    forall i | i in s.slots ensures s.slots[i].status.Reserved? ==> s.slots[i].holder.None? {
      assert SlotOk(s, i);
    }
  }

  // A recovery has run since the process last started.
  predicate Recovered(acts: seq<Action>, n: nat)
    requires n <= |acts|
  {
    n > 0 && !acts[n - 1].Crash? && (acts[n - 1].Recover? || Recovered(acts, n - 1))
  }

  lemma ServingAfter(s: Plane, a: Action)
    requires Enabled(s, a)
    ensures Apply(s, a).serving == (if a.Crash? then false else a.Recover? || s.serving)
  {
  }

  lemma {:induction false} ServingIff(states: seq<Plane>, acts: seq<Action>, n: nat)
    requires Run(states, acts) && states[0] == INIT && n < |states|
    ensures states[n].serving <==> Recovered(acts, n)
  {
    if n > 0 {
      ServingIff(states, acts, n - 1);
      assert Step(states[n - 1], acts[n - 1], states[n]);
      ServingAfter(states[n - 1], acts[n - 1]);
    }
  }

  /** No request is taken before the boot recovery has run, at the first start or after a crash. */
  lemma RequestsAwaitRecovery(states: seq<Plane>, acts: seq<Action>, k: nat)
    requires Run(states, acts) && states[0] == INIT && k < |acts| && (acts[k].Reserve? || acts[k].StartPlain?)
    ensures Recovered(acts, k)
  {
    assert Step(states[k], acts[k], states[k + 1]);
    ServingIff(states, acts, k);
  }

  // ---- in_use without a holder ----

  /** "in_use exactly when a holder is set" holds in a state if and only if no slot has
      been stranded. */
  lemma InUseAccount(s: Plane)
    requires Reachable(s)
    ensures s.stranded == {} <==> forall i :: i in s.slots ==> (s.slots[i].status.InUse? <==> s.slots[i].holder.Some?)
  {
    ReachableInv(s);
    forall i | i in s.slots ensures i in s.stranded <==> (s.slots[i].status.InUse? && s.slots[i].holder.None?) {
      assert SlotOk(s, i);
    }
    forall i | i in s.slots ensures s.slots[i].holder.Some? ==> s.slots[i].status.InUse? {
      assert SlotOk(s, i);
    }
    if s.stranded != {} {
      var i :| i in s.stranded;
      assert i in s.slots;
    }
  }

  // The rows in use without a holder.
  function Headless(t: Table): set<SlotId> {
    set i | i in t && t[i].status.InUse? && t[i].holder.None?
  }

  lemma HeadlessAreStranded(s: Plane)
    requires Inv(s)
    ensures Headless(s.slots) == s.stranded
  {
    forall i | i in s.slots ensures i in s.stranded <==> i in Headless(s.slots) {
      assert SlotOk(s, i);
    }
  }

  lemma RequestsStrandNothing(s: Plane, a: Action)
    requires Enabled(s, a) && Mover(a).Some?
    ensures Apply(s, a).stranded == s.stranded
  {
  }

  lemma StrandedAfter(s: Plane, a: Action)
    requires Enabled(s, a)
    ensures Apply(s, a).stranded == s.stranded + if a.Remove? then HeldBy(s.slots, a.id) else {}
  {
    if Mover(a).Some? {
      RequestsStrandNothing(s, a);
    }
  }

  /** In any step the rows that come to be in use without a holder are exactly those a deleted
      instance still held; and no step takes a row out of that state. */
  lemma WhatStrands(s: Plane, a: Action)
    requires Inv(s) && Enabled(s, a)
    ensures Headless(Apply(s, a).slots) == Headless(s.slots) + if a.Remove? then HeldBy(s.slots, a.id) else {}
    ensures a.Remove? ==> Headless(s.slots) !! HeldBy(s.slots, a.id)
  {
    StepKeeps(s, a);
    HeadlessAreStranded(s);
    HeadlessAreStranded(Apply(s, a));
    StrandedAfter(s, a);
  }

  /** The exact condition, over whole runs: no slot is stranded at the end if and only if
      every deleted row held nothing at the moment of its deletion. */
  lemma {:induction false} StrandedIff(states: seq<Plane>, acts: seq<Action>, n: nat)
    requires Run(states, acts) && states[0] == INIT && n < |states|
    ensures states[n].stranded == {} <==>
            forall k :: 0 <= k < n && acts[k].Remove? ==> HeldBy(states[k].slots, acts[k].id) == {}
  {
    if n > 0 {
      StrandedIff(states, acts, n - 1);
      RunKeeps(states, acts, n - 1);
      assert Step(states[n - 1], acts[n - 1], states[n]);
      StrandedAfter(states[n - 1], acts[n - 1]);
    }
  }

  lemma StrandedStep(s: Plane, a: Action, i: SlotId)
    requires Inv(s) && Enabled(s, a) && i in s.stranded
    ensures i in s.slots && i in Apply(s, a).stranded
    ensures i in Apply(s, a).slots && Apply(s, a).slots[i] == s.slots[i]
  {
    assert SlotOk(s, i);
    if a.Sync? {
      SyncKeepsSlots(s, a);
    } else if a.Bind? {
      assert SagaOk(s, a.req);
    }
  }

  /** A stranded slot is lost for good: no action of any run gives it back, not even a
      restart, and its node can never take a new profile. */
  lemma {:induction false} StrandedForever(states: seq<Plane>, acts: seq<Action>, j: nat, k: nat, i: SlotId)
    requires Run(states, acts) && Inv(states[0]) && j <= k < |states| && i in states[j].stranded
    ensures i in states[j].slots && i in states[k].stranded
    ensures i in states[k].slots && states[k].slots[i] == states[j].slots[i]
    ensures i in NonFree(states[k].slots, states[j].slots[i].node)
    decreases k - j
  {
    RunKeeps(states, acts, j);
    assert SlotOk(states[j], i);
    if j < k {
      assert Step(states[j], acts[j], states[j + 1]);
      StrandedStep(states[j], acts[j], i);
      StrandedForever(states, acts, j + 1, k, i);
    }
  }

  lemma Extend(s: Plane, a: Action)
    requires Reachable(s) && Enabled(s, a)
    ensures Reachable(Apply(s, a))
  {
    var states, acts :| Reaches(states, acts, s);
    var states', acts' := states + [Apply(s, a)], acts + [a];
    forall k | 0 <= k < |acts'| ensures Step(states'[k], acts'[k], states'[k + 1]) {
      if k < |acts| {
        assert Step(states[k], acts[k], states[k + 1]);
      }
    }
    assert Reaches(states', acts', Apply(s, a));
  }

  lemma OneSlotNode() returns (s: Plane)
    ensures Reachable(s) && s.serving && s.sagas == map[] && s.insts == I.Tables(map[], []) && s.nextInst == 0
    ensures s.slots == map[0 := Slot(0, 0, 1, [0], "", Free, None)]
  {
    assert Reaches([INIT], [], INIT);
    Extend(INIT, Recover);
    s := Apply(INIT, Recover);
    var layout := [Profile.SlotYaml(1, [0], "")];
    assert Profile.Flat(layout, 1) == Profile.Flat(layout, 0) + [0] == [0];
    Extend(s, Sync(0, layout, [0]));
    s := Apply(s, Sync(0, layout, [0]));
  }

  lemma OneRequestReserving() returns (s: Plane)
    ensures Reachable(s) && s.sagas == map[0 := Saga(Inserting, 0, 1, [0], None)]
    ensures s.slots == map[0 := Slot(0, 0, 1, [0], "", Reserved, None)]
    ensures s.insts == I.Tables(map[], []) && s.nextInst == 0
  {
    s := OneSlotNode();
    assert Candidates(s.slots, 0, 1) == {0} == R.Ids([0]);
    Extend(s, Reserve(0, 0, 1, [0]));
    s := Apply(s, Reserve(0, 0, 1, [0]));
    Extend(s, Resolve(0, true));
    s := Apply(s, Resolve(0, true));
  }

  lemma OneRequestBinding() returns (s: Plane)
    ensures Reachable(s) && s.sagas == map[0 := Saga(Binding, 0, 1, [0], Some(0))]
    ensures s.slots == map[0 := Slot(0, 0, 1, [0], "", Reserved, None)]
    ensures s.insts.rows == map[0 := I.Row(0, None, 1, [0], Pending, None, "")]
  {
    s := OneRequestReserving();
    assert Indices(s.slots, [0]) == [0];
    Extend(s, Insert(0, true, None));
    s := Apply(s, Insert(0, true, None));
  }

  lemma OneReapedBinding() returns (s: Plane)
    ensures Reachable(s) && s.sagas == map[0 := Saga(Binding, 0, 1, [0], Some(0))]
    ensures s.slots == map[0 := Slot(0, 0, 1, [0], "", Reserved, None)]
    ensures s.insts.rows.Keys == {0} && s.insts.rows[0].state.Failed?
  {
    s := OneRequestBinding();
    var reaped := Report(0, Failed, I.Options("node_offline", "agent heartbeat timed out", None, false));
    Extend(s, reaped);
    s := Apply(s, reaped);
    Extend(s, Vacate(0));
    s := Apply(s, Vacate(0));
  }

  /** Stranding does happen: the reaper fails an instance between its row's insert and its
      Bind, the operator's delete releases (nothing yet), Bind succeeds, the row goes. */
  lemma DeleteCanStrand() returns (s: Plane)
    ensures Reachable(s) && 0 in s.slots && 0 in s.stranded
    ensures s.slots[0] == Slot(0, 0, 1, [0], "", InUse, None) && s.insts.rows == map[]
  {
    s := OneReapedBinding();
    Extend(s, Bind(0, true));
    s := Apply(s, Bind(0, true));
    assert s.slots == map[0 := Slot(0, 0, 1, [0], "", InUse, Some(0))];
    Extend(s, Remove(0));
    s := Apply(s, Remove(0));
  }

  // ---- release is final ----

  // The instance exists or existed, and its own create request is not waiting to bind it.
  ghost predicate PastBind(s: Plane, x: InstanceId) {
    && x < s.nextInst
    && forall q :: q in s.sagas && s.sagas[q].pc.Binding? ==> s.sagas[q].inst != Some(x)
  }

  // No step touches a request it does not move, a crash apart.
  lemma OthersStayAside(s: Plane, a: Action, q: ReqId)
    requires Enabled(s, a) && Mover(a).None? && q in Apply(s, a).sagas
    ensures q in s.sagas && Apply(s, a).sagas[q] == s.sagas[q]
  {
  }

  lemma OthersStayStarted(s: Plane, a: Action, q: ReqId)
    requires Enabled(s, a) && Mover(a) != Some(q) && q in Apply(s, a).sagas
    requires a.Reserve? || a.StartPlain? || a.Resolve? || a.Insert?
    ensures q in s.sagas && Apply(s, a).sagas[q] == s.sagas[q]
  {
  }

  lemma OthersStayEnding(s: Plane, a: Action, q: ReqId)
    requires Enabled(s, a) && Mover(a) != Some(q) && q in Apply(s, a).sagas
    requires a.Bind? || a.Dispatch? || a.ReleaseRes? || a.ReleaseInst? || a.MarkFailed?
    ensures q in s.sagas && Apply(s, a).sagas[q] == s.sagas[q]
  {
  }

  lemma OthersStay(s: Plane, a: Action, q: ReqId)
    requires Enabled(s, a) && Mover(a) != Some(q) && q in Apply(s, a).sagas
    ensures q in s.sagas && Apply(s, a).sagas[q] == s.sagas[q]
  {
    match a
    case Report(_, _, _) | Vacate(_) | Remove(_) | Sync(_, _, _) | Crash | Recover => OthersStayAside(s, a, q);
    case Reserve(_, _, _, _) | StartPlain(_, _) | Resolve(_, _) | Insert(_, _, _) => OthersStayStarted(s, a, q);
    case Bind(_, _) | Dispatch(_, _) | ReleaseRes(_, _) | ReleaseInst(_, _) | MarkFailed(_, _, _) => OthersStayEnding(s, a, q);
  }

  // A request comes to wait for Bind by inserting its row, and nothing else touches it there.
  lemma WhoBinds(s: Plane, a: Action, q: ReqId)
    requires Enabled(s, a) && At(Apply(s, a), q, Binding)
    ensures if a.Insert? && a.req == q then Apply(s, a).sagas[q].inst == Some(s.nextInst)
            else q in s.sagas && s.sagas[q] == Apply(s, a).sagas[q]
  {
    if Mover(a) != Some(q) {
      OthersStay(s, a, q);
    }
  }

  lemma NextGrows(s: Plane, a: Action)
    requires Enabled(s, a)
    ensures s.nextInst <= Apply(s, a).nextInst
  {
  }

  lemma PastBindStep(s: Plane, a: Action, x: InstanceId)
    requires Enabled(s, a) && PastBind(s, x)
    ensures PastBind(Apply(s, a), x)
  {
    var s' := Apply(s, a);
    forall q | q in s'.sagas && s'.sagas[q].pc.Binding? ensures s'.sagas[q].inst != Some(x) {
      WhoBinds(s, a, q);
    }
    NextGrows(s, a);
  }

  // Only Bind gives a row a holder.
  lemma HolderOnlyLost(s: Plane, a: Action, i: SlotId)
    requires Enabled(s, a) && !a.Bind? && !a.Sync? && i in Apply(s, a).slots
    ensures i in s.slots && Apply(s, a).slots[i].holder in {None, s.slots[i].holder}
  {
  }

  lemma HoldingsStep(s: Plane, a: Action, x: InstanceId, i: SlotId)
    requires Inv(s) && Enabled(s, a) && PastBind(s, x)
    requires i in HeldBy(Apply(s, a).slots, x)
    ensures i in HeldBy(s.slots, x)
  {
    if a.Sync? {
      SyncKeepsSlots(s, a);
      SyncRows(s, a, i);
    } else if a.Bind? {
      assert s.sagas[a.req].inst != Some(x);
    } else {
      HolderOnlyLost(s, a, i);
    }
  }

  /** Once past Bind an instance only loses slots; after its release no step of any run
      binds a slot to it again. */
  lemma {:induction false} HoldingsShrink(states: seq<Plane>, acts: seq<Action>, j: nat, k: nat, x: InstanceId)
    requires Run(states, acts) && Inv(states[0]) && j <= k < |states| && PastBind(states[j], x)
    ensures PastBind(states[k], x)
    ensures HeldBy(states[k].slots, x) <= HeldBy(states[j].slots, x)
    decreases k - j
  {
    if j < k {
      RunKeeps(states, acts, j);
      assert Step(states[j], acts[j], states[j + 1]);
      PastBindStep(states[j], acts[j], x);
      forall i | i in HeldBy(states[j + 1].slots, x) ensures i in HeldBy(states[j].slots, x) {
        HoldingsStep(states[j], acts[j], x, i);
      }
      HoldingsShrink(states, acts, j + 1, k, x);
    }
  }

  // ---- rows ----

  // The steps that insert, move or delete a row.
  predicate TouchesRows(a: Action) {
    a.Insert? || a.MarkFailed? || a.Report? || a.Remove?
  }

  lemma RowsStay(s: Plane, a: Action)
    requires Enabled(s, a) && !TouchesRows(a)
    ensures Apply(s, a).insts == s.insts && Apply(s, a).nextInst == s.nextInst
  {
  }

  lemma RowStep(s: Plane, a: Action, x: InstanceId)
    requires Inv(s) && Enabled(s, a) && x < s.nextInst
    ensures x < Apply(s, a).nextInst
    ensures x in Apply(s, a).insts.rows ==> x in s.insts.rows && I.Evolves(s.insts.rows[x], Apply(s, a).insts.rows[x])
  {
    if a.Report? {
      I.TransitionEvolves(s.insts, a.id, a.to, a.opts);
    } else if a.MarkFailed? {
      I.TransitionEvolves(s.insts, s.sagas[a.req].inst.value, Failed, a.opts);
    } else if !TouchesRows(a) {
      RowsStay(s, a);
    }
  }

  /** Over any run a row only moves forward: terminal states, recorded addresses and
      recorded errors stay, and a deleted id never comes back. */
  lemma {:induction false} RowsEvolve(states: seq<Plane>, acts: seq<Action>, j: nat, k: nat, x: InstanceId)
    requires Run(states, acts) && Inv(states[0]) && j <= k < |states| && x < states[j].nextInst
    requires x in states[k].insts.rows
    ensures x in states[j].insts.rows && I.Evolves(states[j].insts.rows[x], states[k].insts.rows[x])
    decreases k - j
  {
    if j < k {
      RunKeeps(states, acts, j);
      assert Step(states[j], acts[j], states[j + 1]);
      RowStep(states[j], acts[j], x);
      RowsEvolve(states, acts, j + 1, k, x);
    }
  }

  // Step k inserted the row of instance x, for this owner.
  predicate Inserts(states: seq<Plane>, acts: seq<Action>, k: nat, x: InstanceId, owner: Option<UserId>)
    requires k < |acts| && k < |states|
  {
    acts[k].Insert? && acts[k].ok && acts[k].owner == owner && states[k].nextInst == x
  }

  lemma NewRow(s: Plane, a: Action, x: InstanceId)
    requires Enabled(s, a) && a.Insert? && x in Apply(s, a).insts.rows && x !in s.insts.rows
    ensures a.ok && x == s.nextInst && Apply(s, a).insts.rows[x].owner == a.owner
  {
  }

  lemma NoNewRow(s: Plane, a: Action, x: InstanceId)
    requires Enabled(s, a) && !a.Insert? && x in Apply(s, a).insts.rows
    ensures x in s.insts.rows
  {
    if a.Report? {
      I.TransitionEvolves(s.insts, a.id, a.to, a.opts);
    } else if a.MarkFailed? {
      I.TransitionEvolves(s.insts, s.sagas[a.req].inst.value, Failed, a.opts);
    } else if !a.Remove? {
      RowsStay(s, a);
    }
  }

  /** Every row belongs to the owner its insert named. */
  lemma {:induction false} RowWasInserted(states: seq<Plane>, acts: seq<Action>, n: nat, x: InstanceId) returns (k: nat)
    requires Run(states, acts) && states[0] == INIT && n < |states| && x in states[n].insts.rows
    ensures k < n && Inserts(states, acts, k, x, states[n].insts.rows[x].owner)
  {
    RunKeeps(states, acts, n - 1);
    assert Step(states[n - 1], acts[n - 1], states[n]);
    if x in states[n - 1].insts.rows {
      RowStep(states[n - 1], acts[n - 1], x);
      k := RowWasInserted(states, acts, n - 1, x);
    } else {
      if !acts[n - 1].Insert? {
        NoNewRow(states[n - 1], acts[n - 1], x);
      }
      NewRow(states[n - 1], acts[n - 1], x);
      k := n - 1;
    }
  }

  // A row that is gone stays gone, since ids are not drawn twice.
  lemma RowsGoByRemove(s: Plane, a: Action, x: InstanceId)
    requires Inv(s) && Enabled(s, a) && x < s.nextInst
    ensures x in Apply(s, a).insts.rows <==> x in s.insts.rows && a != Remove(x)
  {
    if a.Report? {
      I.TransitionEvolves(s.insts, a.id, a.to, a.opts);
    } else if a.MarkFailed? {
      I.TransitionEvolves(s.insts, s.sagas[a.req].inst.value, Failed, a.opts);
    } else if !TouchesRows(a) {
      RowsStay(s, a);
    }
  }

  lemma RowStepInRun(states: seq<Plane>, acts: seq<Action>, j: nat, k: nat, x: InstanceId)
    requires Run(states, acts) && Inv(states[0]) && j <= k < |acts| && x in states[j].insts.rows
    ensures x in states[k + 1].insts.rows <==> x in states[k].insts.rows && acts[k] != Remove(x)
    ensures acts[k] == Remove(x) ==> x in states[k].insts.rows && IsTerminal(states[k].insts.rows[x].state)
  {
    RunKeeps(states, acts, j);
    RunKeeps(states, acts, k);
    NextGrowsInRun(states, acts, j, k);
    assert Step(states[k], acts[k], states[k + 1]);
    RowsGoByRemove(states[k], acts[k], x);
  }

  /** No report removes a row: over any run it is gone if and only if an operator's delete of
      it was carried out, which is possible on a terminal row only. */
  lemma RowGoneIff(states: seq<Plane>, acts: seq<Action>, j: nat, k: nat, x: InstanceId)
    requires Run(states, acts) && Inv(states[0]) && j <= k < |states| && x in states[j].insts.rows
    ensures x !in states[k].insts.rows <==> exists m :: j <= m < k && acts[m] == Remove(x)
    ensures forall m :: j <= m < k && acts[m] == Remove(x) ==>
              x in states[m].insts.rows && IsTerminal(states[m].insts.rows[x].state)
  {
    forall m | j <= m < k
      ensures x in states[m + 1].insts.rows <==> x in states[m].insts.rows && acts[m] != Remove(x)
      ensures acts[m] == Remove(x) ==> x in states[m].insts.rows && IsTerminal(states[m].insts.rows[x].state)
    {
      RowStepInRun(states, acts, j, m, x);
    }
    GoneIff(states, acts, j, k, x);
  }

  lemma {:induction false} GoneIff(states: seq<Plane>, acts: seq<Action>, j: nat, k: nat, x: InstanceId)
    requires j <= k < |states| && k <= |acts| && x in states[j].insts.rows
    requires forall m :: j <= m < k ==> (x in states[m + 1].insts.rows <==> x in states[m].insts.rows && acts[m] != Remove(x))
    ensures x !in states[k].insts.rows <==> exists m :: j <= m < k && acts[m] == Remove(x)
  {
    if j < k {
      GoneIff(states, acts, j, k - 1, x);
    }
  }

  lemma {:induction false} NextGrowsInRun(states: seq<Plane>, acts: seq<Action>, j: nat, k: nat)
    requires Run(states, acts) && j <= k < |states|
    ensures states[j].nextInst <= states[k].nextInst
  {
    if j < k {
      NextGrowsInRun(states, acts, j, k - 1);
      assert Step(states[k - 1], acts[k - 1], states[k]);
      NextGrows(states[k - 1], acts[k - 1]);
    }
  }

  /** The audit log of every reachable state replays to its rows, with at most four real
      changes per instance. */
  lemma AuditAlways(s: Plane, x: InstanceId)
    requires Reachable(s) && x in s.insts.rows
    ensures I.ReplaysAt(s.insts, x)
    ensures Changes(I.Visited(I.Log(s.insts.events, x))) <= Rank(s.insts.rows[x].state) <= 4
  {
    ReachableInv(s);
    I.AuditBound(s.insts, x);
  }
}
