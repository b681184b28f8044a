/** How a create request ends when any other requests, reports, deletes, syncs and crashes run
    between its steps. CreateSaga has the same outcome for a request run alone. */
module SagaRuns {
  import opened Wrappers
  import opened Lifecycle
  import opened SlotTable
  import opened ControlPlane
  import opened ControlPlaneRuns
  import I = InstanceTable
  import R = SlotRepo

  predicate Begins(a: Action, q: ReqId) {
    (a.Reserve? || a.StartPlain?) && a.req == q
  }

  // A compensation of the request that did not go through.
  predicate UndoFails(a: Action, q: ReqId) {
    (a.ReleaseRes? || a.ReleaseInst? || a.MarkFailed?) && a.req == q && !a.ok
  }

  // Since the request began, each of its compensations has gone through.
  predicate Clean(acts: seq<Action>, n: nat, q: ReqId)
    requires n <= |acts|
  {
    n == 0 || Begins(acts[n - 1], q) || (Clean(acts, n - 1, q) && !UndoFails(acts[n - 1], q))
  }

  // Since the request bound its slots, nobody has released or removed the instance.
  predicate Undisturbed(acts: seq<Action>, n: nat, q: ReqId, x: InstanceId)
    requires n <= |acts|
  {
    n > 0 && (acts[n - 1] == Bind(q, true)
              || (Undisturbed(acts, n - 1, q, x) && acts[n - 1] != Vacate(x) && acts[n - 1] != Remove(x)))
  }

  // What the request's instance can hold, and how it has fared.
  ghost predicate Fate(s: Plane, q: ReqId, clean: bool)
    requires q in s.sagas
  {
    var g := s.sagas[q];
    g.inst.Some? ==>
      var held := HeldBy(s.slots, g.inst.value);
      && held <= R.Ids(g.res)
      && (g.pc.Binding? || g.pc.UndoBind? || g.pc.MarkBindFailed? ==> held == {})
      && (clean && (g.pc.MarkDispatchFailed? || g.pc.Aborted?) ==> held == {})
      && (clean && g.pc.Aborted? && g.inst.value in s.insts.rows ==> IsTerminal(s.insts.rows[g.inst.value].state))
  }

  // ---- what the others do to the request's instance ----

  lemma OtherBindSpares(s: Plane, a: Action, q: ReqId, i: SlotId)
    requires Inv(s) && Enabled(s, a) && a.Bind? && a.req != q && q in s.sagas && s.sagas[q].inst.Some?
    requires i in Apply(s, a).slots
    ensures Apply(s, a).slots[i].holder == s.sagas[q].inst ==> i in s.slots && s.slots[i].holder == s.sagas[q].inst
  {
    assert SagaOk(s, q) && SagaOk(s, a.req);
  }

  lemma OthersOnlyTake(s: Plane, a: Action, q: ReqId)
    requires Inv(s) && Enabled(s, a) && Mover(a) != Some(q) && q in s.sagas && s.sagas[q].inst.Some?
    ensures HeldBy(Apply(s, a).slots, s.sagas[q].inst.value) <= HeldBy(s.slots, s.sagas[q].inst.value)
  {
    var x := s.sagas[q].inst.value;
    forall i | i in HeldBy(Apply(s, a).slots, x) ensures i in HeldBy(s.slots, x) {
      if a.Sync? {
        SyncKeepsSlots(s, a);
        SyncRows(s, a, i);
      } else if a.Bind? {
        OtherBindSpares(s, a, q, i);
      } else {
        HolderOnlyLost(s, a, i);
      }
    }
  }

  lemma OtherStep(s: Plane, a: Action, q: ReqId, clean: bool)
    requires Inv(s) && Enabled(s, a) && Mover(a) != Some(q) && q in Apply(s, a).sagas
    requires q in s.sagas ==> Fate(s, q, clean)
    ensures Fate(Apply(s, a), q, clean)
  {
    OthersStay(s, a, q);
    if s.sagas[q].inst.Some? {
      assert SagaOk(s, q);
      OthersOnlyTake(s, a, q);
      RowStep(s, a, s.sagas[q].inst.value);
    }
  }

  // ---- the request's own steps ----

  lemma InsertFate(s: Plane, q: ReqId, ok: bool, owner: Option<UserId>, clean: bool)
    requires Inv(s) && Enabled(s, Insert(q, ok, owner))
    ensures Fate(Apply(s, Insert(q, ok, owner)), q, clean)
  {
    assert SagaOk(s, q);
    forall i | i in s.slots ensures s.slots[i].holder != Some(s.nextInst) {
      assert SlotOk(s, i);
    }
  }

  lemma BindFate(s: Plane, q: ReqId, ok: bool, clean: bool)
    requires Inv(s) && Enabled(s, Bind(q, ok)) && Fate(s, q, clean)
    ensures Fate(Apply(s, Bind(q, ok)), q, clean)
    ensures ok ==> HeldBy(Apply(s, Bind(q, ok)).slots, s.sagas[q].inst.value) == R.Ids(s.sagas[q].res)
  {
    assert SagaOk(s, q);
    if ok {
      var x := s.sagas[q].inst.value;
      forall i | i in s.slots ensures s.slots[i].holder != Some(x) {
        assert i !in HeldBy(s.slots, x);
      }
    }
  }

  lemma ReleaseFate(s: Plane, a: Action, q: ReqId, clean: bool)
    requires Inv(s) && Enabled(s, a) && (a.ReleaseRes? || a.ReleaseInst?) && a.req == q && Fate(s, q, clean)
    ensures Fate(Apply(s, a), q, clean && !UndoFails(a, q))
  {
    assert SagaOk(s, q);
    if s.sagas[q].inst.Some? {
      var x := s.sagas[q].inst.value;
      forall i | i in HeldBy(Apply(s, a).slots, x) ensures i in HeldBy(s.slots, x) {
        HolderOnlyLost(s, a, i);
      }
    }
  }

  lemma MarkFate(s: Plane, a: Action, q: ReqId, clean: bool)
    requires Inv(s) && Enabled(s, a) && a.MarkFailed? && a.req == q && Fate(s, q, clean)
    ensures Fate(Apply(s, a), q, clean && !UndoFails(a, q))
  {
    var x := s.sagas[q].inst.value;
    if x in s.insts.rows && !IsTerminal(s.insts.rows[x].state) {
      assert CanTransition(s.insts.rows[x].state, Failed);
    }
    I.TransitionEvolves(s.insts, x, Failed, a.opts);
  }

  lemma MoveFate(s: Plane, a: Action, q: ReqId, clean: bool)
    requires Inv(s) && Enabled(s, a) && (a.Resolve? || a.Dispatch?) && a.req == q && Fate(s, q, clean)
    ensures Fate(Apply(s, a), q, clean)
  {
    assert SagaOk(s, q);
  }

  lemma BeginFate(s: Plane, a: Action, q: ReqId)
    requires Enabled(s, a) && Begins(a, q)
    ensures q in Apply(s, a).sagas && Fate(Apply(s, a), q, true)
  {
  }

  predicate IsUndo(a: Action) {
    a.ReleaseRes? || a.ReleaseInst? || a.MarkFailed?
  }

  lemma UndoStep(s: Plane, a: Action, q: ReqId, clean: bool)
    requires Inv(s) && Enabled(s, a) && Mover(a) == Some(q) && IsUndo(a) && Fate(s, q, clean)
    ensures q in Apply(s, a).sagas && Fate(Apply(s, a), q, clean && !UndoFails(a, q))
  {
    if a.MarkFailed? {
      MarkFate(s, a, q, clean);
    } else {
      ReleaseFate(s, a, q, clean);
    }
  }

  lemma DoStep(s: Plane, a: Action, q: ReqId, clean: bool)
    requires Inv(s) && Enabled(s, a) && Mover(a) == Some(q) && !IsUndo(a) && !Begins(a, q) && Fate(s, q, clean)
    ensures q in Apply(s, a).sagas && Fate(Apply(s, a), q, clean)
  {
    if a.Insert? {
      InsertFate(s, q, a.ok, a.owner, clean);
    } else if a.Bind? {
      BindFate(s, q, a.ok, clean);
    } else {
      MoveFate(s, a, q, clean);
    }
  }

  // ---- keeping what was bound ----

  // No request's step takes a slot from an instance, unless it releases that instance.
  lemma RequestsKeepHolder(s: Plane, a: Action, x: InstanceId, i: SlotId)
    requires Inv(s) && Enabled(s, a) && Mover(a).Some? && i in HeldBy(s.slots, x)
    requires a.ReleaseInst? ==> s.sagas[a.req].inst != Some(x)
    ensures i in HeldBy(Apply(s, a).slots, x)
  {
    assert SlotOk(s, i);
    if a.Bind? {
      assert SagaOk(s, a.req);
    }
  }

  // Only a release or a removal of the instance takes a slot from it.
  lemma HolderKept(s: Plane, a: Action, x: InstanceId, i: SlotId)
    requires Inv(s) && Enabled(s, a) && i in HeldBy(s.slots, x) && a != Vacate(x) && a != Remove(x)
    requires a.ReleaseInst? ==> s.sagas[a.req].inst != Some(x)
    ensures i in HeldBy(Apply(s, a).slots, x)
  {
    if Mover(a).Some? {
      RequestsKeepHolder(s, a, x, i);
    } else if a.Sync? {
      assert SlotOk(s, i);
      SyncKeepsSlots(s, a);
    } else {
      assert SlotOk(s, i);
    }
  }

  lemma OwnSlotsKept(s: Plane, a: Action, q: ReqId)
    requires Inv(s) && Enabled(s, a) && Mover(a) != Some(q) && q in s.sagas && s.sagas[q].inst.Some?
    requires a != Vacate(s.sagas[q].inst.value) && a != Remove(s.sagas[q].inst.value)
    ensures HeldBy(s.slots, s.sagas[q].inst.value) <= HeldBy(Apply(s, a).slots, s.sagas[q].inst.value)
  {
    assert SagaOk(s, q);
    if a.ReleaseInst? {
      assert SagaOk(s, a.req);
    }
    forall i | i in HeldBy(s.slots, s.sagas[q].inst.value) ensures i in HeldBy(Apply(s, a).slots, s.sagas[q].inst.value) {
      HolderKept(s, a, s.sagas[q].inst.value, i);
    }
  }

  // ---- whole runs ----

  lemma StepFate(s: Plane, a: Action, q: ReqId, clean: bool)
    requires Inv(s) && Enabled(s, a) && q in Apply(s, a).sagas && (q in s.sagas ==> Fate(s, q, clean))
    ensures Fate(Apply(s, a), q, Begins(a, q) || (clean && !UndoFails(a, q)))
  {
    if Mover(a) == Some(q) {
      if Begins(a, q) {
        BeginFate(s, a, q);
      } else if IsUndo(a) {
        UndoStep(s, a, q, clean);
      } else {
        DoStep(s, a, q, clean);
      }
    } else {
      OthersStay(s, a, q);
      OtherStep(s, a, q, clean);
    }
  }

  ghost predicate FateAt(states: seq<Plane>, acts: seq<Action>, n: nat, q: ReqId)
    requires n <= |acts| < |states|
  {
    q in states[n].sagas ==> Fate(states[n], q, Clean(acts, n, q))
  }

  lemma NextFate(states: seq<Plane>, acts: seq<Action>, n: nat, q: ReqId)
    requires n < |acts| < |states| && Step(states[n], acts[n], states[n + 1]) && Inv(states[n]) && FateAt(states, acts, n, q)
    ensures FateAt(states, acts, n + 1, q)
  {
    if q in states[n + 1].sagas {
      StepFate(states[n], acts[n], q, Clean(acts, n, q));
    }
  }

  lemma {:induction false} FateInRun(states: seq<Plane>, acts: seq<Action>, n: nat, q: ReqId)
    requires Run(states, acts) && states[0] == INIT && n < |states|
    ensures FateAt(states, acts, n, q)
  {
    if n > 0 {
      FateInRun(states, acts, n - 1, q);
      RunKeeps(states, acts, n - 1);
      assert Step(states[n - 1], acts[n - 1], states[n]);
      NextFate(states, acts, n - 1, q);
    }
  }

  // ---- success and failure ----

  // Since the request began its dispatch has gone through.
  predicate Dispatched(acts: seq<Action>, n: nat, q: ReqId)
    requires n <= |acts|
  {
    n > 0 && !Begins(acts[n - 1], q) && (acts[n - 1] == Dispatch(q, true) || Dispatched(acts, n - 1, q))
  }

  predicate Fails(a: Action, q: ReqId) {
    (a.Resolve? || a.Insert? || a.Bind? || a.Dispatch?) && a.req == q && !a.ok
  }

  // Since the request began one of its forward steps has failed.
  predicate HasFailed(acts: seq<Action>, n: nat, q: ReqId)
    requires n <= |acts|
  {
    n > 0 && !Begins(acts[n - 1], q) && (Fails(acts[n - 1], q) || HasFailed(acts, n - 1, q))
  }

  predicate Underway(pc: Pc) {
    pc.Resolving? || pc.Inserting? || pc.Binding? || pc.Dispatching?
  }

  // Where a request stands that has, or has not, dispatched or failed.
  predicate Stands(pc: Pc, dispatched: bool, failed: bool) {
    if pc.Succeeded? then dispatched && !failed
    else if Underway(pc) then !dispatched && !failed
    else !dispatched && failed
  }

  lemma ForwardStands(s: Plane, a: Action, q: ReqId)
    requires Enabled(s, a) && Mover(a) == Some(q) && (a.Resolve? || a.Insert? || a.Bind? || a.Dispatch?)
    ensures q in s.sagas && q in Apply(s, a).sagas && Underway(s.sagas[q].pc)
    ensures var pc := Apply(s, a).sagas[q].pc;
            if Fails(a, q) then !pc.Succeeded? && !Underway(pc) else if a.Dispatch? then pc.Succeeded? else Underway(pc)
  {
  }

  lemma UndoStands(s: Plane, a: Action, q: ReqId)
    requires Enabled(s, a) && Mover(a) == Some(q) && IsUndo(a)
    ensures q in s.sagas && q in Apply(s, a).sagas
    ensures forall pc :: pc == s.sagas[q].pc || pc == Apply(s, a).sagas[q].pc ==> !pc.Succeeded? && !Underway(pc)
  {
  }

  lemma BeginStands(s: Plane, a: Action, q: ReqId)
    requires Enabled(s, a) && Begins(a, q)
    ensures q in Apply(s, a).sagas && Underway(Apply(s, a).sagas[q].pc)
  {
  }

  lemma MoverStands(s: Plane, a: Action, q: ReqId, dispatched: bool, failed: bool)
    requires Enabled(s, a) && Mover(a) == Some(q) && (q in s.sagas ==> Stands(s.sagas[q].pc, dispatched, failed))
    ensures q in Apply(s, a).sagas
    ensures Stands(Apply(s, a).sagas[q].pc, !Begins(a, q) && (a == Dispatch(q, true) || dispatched),
                   !Begins(a, q) && (Fails(a, q) || failed))
  {
    match a
    case Reserve(_, _, _, _) | StartPlain(_, _) => BeginStands(s, a, q);
    case Resolve(_, _) | Insert(_, _, _) | Bind(_, _) | Dispatch(_, _) => ForwardStands(s, a, q);
    case ReleaseRes(_, _) | ReleaseInst(_, _) | MarkFailed(_, _, _) => UndoStands(s, a, q);
    case Report(_, _, _) | Vacate(_) | Remove(_) | Sync(_, _, _) | Crash | Recover =>
  }

  /** A request has succeeded if and only if its dispatch went through, and is being undone or
      ended in failure if and only if one of its steps failed. */
  lemma {:induction false} OutcomeIff(states: seq<Plane>, acts: seq<Action>, n: nat, q: ReqId)
    requires Run(states, acts) && states[0] == INIT && n < |states| && q in states[n].sagas
    ensures states[n].sagas[q].pc.Succeeded? <==> Dispatched(acts, n, q)
    ensures !Underway(states[n].sagas[q].pc) && !states[n].sagas[q].pc.Succeeded? <==> HasFailed(acts, n, q)
  {
    var s, a := states[n - 1], acts[n - 1];
    assert Step(s, a, states[n]);
    if q in s.sagas {
      OutcomeIff(states, acts, n - 1, q);
    }
    if Mover(a) == Some(q) {
      MoverStands(s, a, q, Dispatched(acts, n - 1, q), HasFailed(acts, n - 1, q));
    } else {
      OthersStay(s, a, q);
    }
  }

  // The request has dispatched, or is about to.
  predicate IsBound(s: Plane, q: ReqId) {
    q in s.sagas && (s.sagas[q].pc.Dispatching? || s.sagas[q].pc.Succeeded?) && s.sagas[q].inst.Some?
  }

  // Of its own steps only the bind, and the insert of a request without slots, take a request
  // to where it dispatches.
  lemma UnboundAfter(s: Plane, a: Action, q: ReqId)
    requires Inv(s) && Enabled(s, a) && Mover(a) == Some(q) && !a.Dispatch? && a != Bind(q, true)
    ensures IsBound(Apply(s, a), q) ==> Apply(s, a).sagas[q].res == []
  {
    if a.Insert? {
      assert SagaOk(s, q);
    }
  }

  lemma StepBound(s: Plane, a: Action, q: ReqId)
    requires Inv(s) && Enabled(s, a) && IsBound(Apply(s, a), q) && a != Bind(q, true) && Apply(s, a).sagas[q].res != []
    ensures IsBound(s, q) && s.sagas[q].inst == Apply(s, a).sagas[q].inst && s.sagas[q].res == Apply(s, a).sagas[q].res
    ensures Mover(a) == Some(q) ==> Apply(s, a).slots == s.slots
  {
    if Mover(a) != Some(q) {
      OthersStay(s, a, q);
    } else if !a.Dispatch? {
      UnboundAfter(s, a, q);
    }
  }

  lemma {:induction false} HoldsInRun(states: seq<Plane>, acts: seq<Action>, n: nat, q: ReqId, x: InstanceId)
    requires Run(states, acts) && states[0] == INIT && n < |states|
    requires IsBound(states[n], q) && states[n].sagas[q].inst == Some(x) && Undisturbed(acts, n, q, x)
    ensures R.Ids(states[n].sagas[q].res) <= HeldBy(states[n].slots, x)
  {
    var s, a := states[n - 1], acts[n - 1];
    RunKeeps(states, acts, n - 1);
    assert Step(s, a, states[n]);
    if a == Bind(q, true) {
      FateInRun(states, acts, n - 1, q);
      BindFate(s, q, true, Clean(acts, n - 1, q));
    } else if states[n].sagas[q].res != [] {
      StepBound(s, a, q);
      HoldsInRun(states, acts, n - 1, q, x);
      if Mover(a) != Some(q) {
        OwnSlotsKept(s, a, q);
      }
    }
  }

  lemma ReleasedHoldsNothing(s: Plane, a: Action, x: InstanceId)
    requires Enabled(s, a) && (a == Vacate(x) || a == Remove(x))
    ensures HeldBy(Apply(s, a).slots, x) == {}
  {
  }

  // Once somebody has released or removed the instance, it holds nothing ever after.
  lemma {:induction false} LosesAllInRun(states: seq<Plane>, acts: seq<Action>, n: nat, q: ReqId, x: InstanceId)
    requires Run(states, acts) && states[0] == INIT && n < |states|
    requires IsBound(states[n], q) && states[n].sagas[q].inst == Some(x) && !Undisturbed(acts, n, q, x)
    ensures HeldBy(states[n].slots, x) == {}
  {
    if states[n].sagas[q].res == [] {
      FateInRun(states, acts, n, q);
    } else {
      var s, a := states[n - 1], acts[n - 1];
      RunKeeps(states, acts, n - 1);
      assert Step(s, a, states[n]);
      StepBound(s, a, q);
      if a == Vacate(x) || a == Remove(x) {
        ReleasedHoldsNothing(s, a, x);
      } else {
        LosesAllInRun(states, acts, n - 1, q, x);
        if Mover(a) != Some(q) {
          OthersOnlyTake(s, a, q);
        }
      }
    }
  }

  /** All or nothing, whatever runs in between. A request that has ended in failure, all its
      compensations having gone through, owns no reserved row; its instance holds nothing and
      its row is terminal or gone. A request that has bound its slots gave them to its instance
      alone: the instance has them all until somebody releases or removes it, and none after. */
  lemma SagaOutcome(states: seq<Plane>, acts: seq<Action>, n: nat, q: ReqId)
    requires Run(states, acts) && states[0] == INIT && n < |states| && q in states[n].sagas
    ensures var s := states[n]; var g := s.sagas[q];
            g.pc.Aborted? && Clean(acts, n, q) ==>
              && (forall i :: i in s.owner ==> s.owner[i] != q)
              && (g.inst.Some? ==>
                    && HeldBy(s.slots, g.inst.value) == {}
                    && (g.inst.value in s.insts.rows ==> IsTerminal(s.insts.rows[g.inst.value].state)))
    ensures var s := states[n]; var g := s.sagas[q];
            IsBound(s, q) ==>
              HeldBy(s.slots, g.inst.value) == if Undisturbed(acts, n, q, g.inst.value) then R.Ids(g.res) else {}
  {
    RunKeeps(states, acts, n);
    FateInRun(states, acts, n, q);
    forall i | i in states[n].owner ensures states[n].owner[i] == q ==> Live(states[n].sagas[q]) {
      assert SlotOk(states[n], i);
    }
    if IsBound(states[n], q) {
      var x := states[n].sagas[q].inst.value;
      if Undisturbed(acts, n, q, x) {
        HoldsInRun(states, acts, n, q, x);
      } else {
        LosesAllInRun(states, acts, n, q, x);
      }
    }
  }
}
