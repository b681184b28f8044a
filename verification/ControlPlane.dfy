/** The control plane as one transition system: any number of create requests in flight,
    interleaved with agent reports, the reaper, deletes, profile syncs, crashes and boot
    recovery. Every action is one database transaction (or one dispatch). */
module ControlPlane {
  import opened Wrappers
  import opened Lifecycle
  import opened SlotTable
  import I = InstanceTable
  import Profile
  import R = SlotRepo

  type ReqId = nat

  // Where runCreate stands. Undo* and Mark*Failed are its compensation branches.
  datatype Pc =
    | Resolving
    | Inserting
    | Binding
    | Dispatching
    | UndoReserve
    | UndoBind
    | MarkBindFailed
    | UndoDispatch
    | MarkDispatchFailed
    | Succeeded
    | Aborted

  datatype Saga = Saga(pc: Pc, node: NodeId, size: int, res: seq<SlotId>, inst: Option<InstanceId>)

  // The last four fields but one are history, never read by an action: which request
  // reserved a row, which reserved rows no request owns any more, which in_use rows lost
  // their holder, and which request inserted an instance.
  datatype Plane = Plane(
    slots: Table,
    nextSlot: SlotId,
    insts: I.Tables,
    nextInst: InstanceId,
    sagas: map<ReqId, Saga>,
    owner: map<SlotId, ReqId>,
    orphans: set<SlotId>,
    stranded: set<SlotId>,
    author: map<InstanceId, ReqId>,
    serving: bool)

  datatype Action =
    | Reserve(req: ReqId, node: NodeId, size: int, res: seq<SlotId>)
    | StartPlain(req: ReqId, node: NodeId)                 // gpu_count = 0: nothing to reserve
    | Resolve(req: ReqId, ok: bool)
    | Insert(req: ReqId, ok: bool, owner: Option<UserId>)
    | Bind(req: ReqId, ok: bool)
    | Dispatch(req: ReqId, ok: bool)
    | ReleaseRes(req: ReqId, ok: bool)                     // compensation: ReleaseReserved
    | ReleaseInst(req: ReqId, ok: bool)                    // compensation: ReleaseForInstance
    | MarkFailed(req: ReqId, ok: bool, opts: I.Options)    // compensation: Transition to failed
    | Report(id: InstanceId, to: State, opts: I.Options)   // Transition by a report, the reaper or a delete
    | Vacate(id: InstanceId)                               // ReleaseForInstance by a report, the reaper or a delete
    | Remove(id: InstanceId)                               // DELETE of a terminal row
    | Sync(node: NodeId, layout: seq<Profile.SlotYaml>, hosts: seq<int>)
    | Crash
    | Recover

  const INIT := Plane(map[], 0, I.Tables(map[], []), 0, map[], map[], {}, {}, map[], false)

  // The request still owns its reservation.
  predicate Live(g: Saga) {
    g.pc.Resolving? || g.pc.Inserting? || g.pc.Binding? || g.pc.UndoReserve? || g.pc.UndoBind?
  }

  function Indices(t: Table, res: seq<SlotId>): seq<int>
    requires forall i :: i in res ==> i in t
  {
    seq(|res|, k requires 0 <= k < |res| => t[res[k]].index)
  }

  predicate At(s: Plane, q: ReqId, pc: Pc) {
    q in s.sagas && s.sagas[q].pc == pc
  }

  // BindToInstance can succeed: all slots still reserved, and the row the foreign key needs is there.
  ghost predicate CanBind(s: Plane, g: Saga) {
    R.Bindable(s.slots, g.res) && g.inst.Some? && g.inst.value in s.insts.rows
  }

  ghost predicate Enabled(s: Plane, a: Action) {
    match a
    case Reserve(q, node, size, res) =>
      s.serving && q !in s.sagas && size > 0
      && R.Distinct(res) && |res| == 1 && Picked(s.slots, node, size, 1, R.Ids(res))
    case StartPlain(q, node) => s.serving && q !in s.sagas
    case Resolve(q, ok) => At(s, q, Resolving)
    case Insert(q, ok, owner) => At(s, q, Inserting) && forall i :: i in s.sagas[q].res ==> i in s.slots
    case Bind(q, ok) => At(s, q, Binding) && (ok ==> CanBind(s, s.sagas[q]))
    case Dispatch(q, ok) => At(s, q, Dispatching)
    case ReleaseRes(q, ok) => At(s, q, UndoReserve) || At(s, q, UndoBind)
    case ReleaseInst(q, ok) => At(s, q, UndoDispatch) && s.sagas[q].inst.Some?
    case MarkFailed(q, ok, opts) => (At(s, q, MarkBindFailed) || At(s, q, MarkDispatchFailed)) && s.sagas[q].inst.Some?
    case Report(id, to, opts) => true
    case Vacate(id) => true
    case Remove(id) => id in s.insts.rows && IsTerminal(s.insts.rows[id].state)
    case Sync(node, layout, hosts) => Profile.Acceptable(layout, hosts) && NonFree(s.slots, node) == {}
    case Crash => true
    case Recover => !s.serving
  }

  function Move(s: Plane, q: ReqId, pc: Pc): Plane
    requires q in s.sagas
  {
    s.(sagas := s.sagas[q := s.sagas[q].(pc := pc)])
  }

  ghost function Apply(s: Plane, a: Action): Plane
    requires Enabled(s, a)
  {
    match a
    case Reserve(q, node, size, res) =>
      s.(slots := SetReserved(s.slots, R.Ids(res)),
         owner := s.owner + map i | i in R.Ids(res) :: q,
         sagas := s.sagas[q := Saga(Resolving, node, size, res, None)])
    case StartPlain(q, node) => s.(sagas := s.sagas[q := Saga(Inserting, node, 0, [], None)])
    case Resolve(q, ok) => Move(s, q, if ok then Inserting else UndoReserve)
    case Insert(q, ok, owner) =>
      var g := s.sagas[q];
      if ok then
        s.(insts := I.Create(s.insts, s.nextInst, I.Input(owner, g.node, g.size, Indices(s.slots, g.res))),
           nextInst := s.nextInst + 1,
           author := s.author[s.nextInst := q],
           sagas := s.sagas[q := g.(pc := if g.size > 0 then Binding else Dispatching, inst := Some(s.nextInst))])
      else Move(s, q, if g.size > 0 then UndoReserve else Aborted)
    case Bind(q, ok) =>
      if ok then Settle(Move(s, q, Dispatching), s.sagas[q].res).(slots := SetInUse(s.slots, R.Ids(s.sagas[q].res), s.sagas[q].inst.value))
      else Move(s, q, UndoBind)
    case Dispatch(q, ok) =>
      Move(s, q, if ok then Succeeded else if s.sagas[q].size > 0 then UndoDispatch else MarkDispatchFailed)
    case ReleaseRes(q, ok) =>
      var res := s.sagas[q].res;
      var s' := Settle(Move(s, q, if s.sagas[q].pc.UndoReserve? then Aborted else MarkBindFailed), res);
      if ok then s'.(slots := SlotTable.ReleaseReserved(s.slots, R.Ids(res))) else s'.(orphans := s.orphans + R.Ids(res))
    case ReleaseInst(q, ok) =>
      var s' := Move(s, q, MarkDispatchFailed);
      if ok then s'.(slots := ReleaseHolder(s.slots, s.sagas[q].inst.value)) else s'
    case MarkFailed(q, ok, opts) =>
      var s' := Move(s, q, Aborted);
      if ok then s'.(insts := I.Transition(s.insts, s.sagas[q].inst.value, Failed, opts)) else s'
    case Report(id, to, opts) => s.(insts := I.Transition(s.insts, id, to, opts))
    case Vacate(id) => s.(slots := ReleaseHolder(s.slots, id))
    case Remove(id) =>
      s.(insts := I.Delete(s.insts, id),
         slots := ClearHolder(s.slots, id),
         stranded := s.stranded + HeldBy(s.slots, id))
    case Sync(node, layout, hosts) =>
      s.(slots := InsertAll(DropNode(s.slots, node), node, s.nextSlot, Profile.Wire(layout)),
         nextSlot := s.nextSlot + |layout|)
    case Crash => s.(sagas := map[], owner := map[], orphans := s.orphans + s.owner.Keys, serving := false)
    case Recover => s.(slots := ReleaseOrphans(s.slots), orphans := {}, serving := true)
  }

  // The request an action moves.
  function Mover(a: Action): Option<ReqId> {
    match a
    case Reserve(q, _, _, _) => Some(q)
    case StartPlain(q, _) => Some(q)
    case Resolve(q, _) => Some(q)
    case Insert(q, _, _) => Some(q)
    case Bind(q, _) => Some(q)
    case Dispatch(q, _) => Some(q)
    case ReleaseRes(q, _) => Some(q)
    case ReleaseInst(q, _) => Some(q)
    case MarkFailed(q, _, _) => Some(q)
    case Report(_, _, _) | Vacate(_) | Remove(_) | Sync(_, _, _) | Crash | Recover => None
  }

  // The reservation is over: its rows have no owning request any more.
  function Settle(s: Plane, res: seq<SlotId>): Plane {
    s.(owner := s.owner - R.Ids(res))
  }

  // ---- the invariant ----

  // A slot and the row of its holder tell the same story.
  predicate Agree(t: Slot, r: I.Row) {
    r.node == t.node && r.gpuCount == t.gpuCount && t.index in r.slotIndices
  }

  ghost predicate SlotOk(s: Plane, i: SlotId)
    requires i in s.slots
  {
    var t := s.slots[i];
    && i < s.nextSlot
    && (t.status.Reserved? <==> i in s.orphans || i in s.owner)
    && !(i in s.orphans && i in s.owner)
    && (i in s.owner ==> s.owner[i] in s.sagas && Live(s.sagas[s.owner[i]]) && i in s.sagas[s.owner[i]].res)
    && (i in s.stranded <==> t.status.InUse? && t.holder.None?)
    && (t.holder.Some? ==> t.status.InUse? && t.holder.value in s.insts.rows && Agree(t, s.insts.rows[t.holder.value]))
  }

  ghost predicate SlotInv(s: Plane) {
    && s.orphans <= s.slots.Keys && s.stranded <= s.slots.Keys && s.owner.Keys <= s.slots.Keys
    && forall i :: i in s.slots ==> SlotOk(s, i)
  }

  // A live request owns each slot of its reservation.
  predicate OwnsAll(s: Plane, q: ReqId, g: Saga) {
    forall i :: i in g.res ==>
      i in s.owner && s.owner[i] == q && i in s.slots && s.slots[i].node == g.node && s.slots[i].gpuCount == g.size
  }

  // Before Bind the instance holds nothing, and its row (unless deleted) fits the reservation.
  ghost predicate BindingOk(s: Plane, g: Saga) {
    && g.inst.Some?
    && (forall i :: i in s.slots ==> s.slots[i].holder != g.inst)
    && (g.inst.value in s.insts.rows ==>
          forall i :: i in g.res && i in s.slots ==> Agree(s.slots[i], s.insts.rows[g.inst.value]))
  }

  ghost predicate SagaOk(s: Plane, q: ReqId)
    requires q in s.sagas
  {
    var g := s.sagas[q];
    && g.size >= 0 && (g.size > 0 <==> g.res != [])
    && R.Distinct(g.res)
    && (g.inst.Some? ==> g.inst.value < s.nextInst && g.inst.value in s.author && s.author[g.inst.value] == q)
    && (g.inst.None? <==> g.pc.Resolving? || g.pc.UndoReserve? || g.pc.Inserting? || (g.pc.Aborted? && g.inst.None?))
    && (g.pc.Resolving? || g.pc.Binding? || g.pc.UndoReserve? || g.pc.UndoBind? || g.pc.UndoDispatch? ==> g.size > 0)
    && (Live(g) ==> OwnsAll(s, q, g))
    && (g.pc.Binding? ==> BindingOk(s, g))
  }

  ghost predicate SagaInv(s: Plane) {
    && (!s.serving ==> s.sagas == map[])
    && forall q :: q in s.sagas ==> SagaOk(s, q)
  }

  // A slot has the size it claims; within a node, slot indices are unique and no GPU
  // belongs to two slots.
  ghost predicate GpuInv(t: Table) {
    && (forall i :: i in t ==> t[i].gpuCount == |t[i].gpus|)
    && UniqueIndices(t)
    && forall i, j, g :: i in t && j in t && i != j && t[i].node == t[j].node && g in t[i].gpus ==> g !in t[j].gpus
  }

  ghost predicate InstInv(s: Plane) {
    && I.Replays(s.insts)
    && forall i :: i in s.insts.rows ==> i < s.nextInst
  }

  ghost predicate Inv(s: Plane) {
    SlotInv(s) && SagaInv(s) && GpuInv(s.slots) && InstInv(s)
  }

  // ---- every action keeps the invariant ----

  // Only status and holder changed, and no row was added.
  ghost predicate SameShape(t: Table, t': Table) {
    && t'.Keys <= t.Keys
    && forall i :: i in t' ==> t'[i] == t[i].(status := t'[i].status, holder := t'[i].holder)
  }

  lemma GpuKept(t: Table, t': Table)
    requires GpuInv(t) && SameShape(t, t')
    ensures GpuInv(t')
  {
  }

  // A request that does not move keeps its standing if the step touches neither its rows nor
  // its instance.
  lemma SagaSpared(s: Plane, s': Plane, p: ReqId)
    requires p in s.sagas && p in s'.sagas && s'.sagas[p] == s.sagas[p] && SagaOk(s, p)
    requires s.nextInst <= s'.nextInst && forall x :: x in s.author ==> x in s'.author && s'.author[x] == s.author[x]
    requires Live(s.sagas[p]) ==> forall i :: i in s.sagas[p].res && i in s.slots && i in s.owner ==>
               i in s'.slots && i in s'.owner && s'.owner[i] == s.owner[i]
               && s'.slots[i] == s.slots[i].(status := s'.slots[i].status, holder := s'.slots[i].holder)
    requires forall i :: i in s'.slots && s'.slots[i].holder == s.sagas[p].inst && s.sagas[p].inst.Some? ==>
               i in s.slots && s.slots[i].holder == s.sagas[p].inst
    requires s'.insts.rows == s.insts.rows
    ensures SagaOk(s', p)
  {
  }

  lemma ReserveKeeps(s: Plane, a: Action)
    requires Inv(s) && Enabled(s, a) && a.Reserve?
    ensures Inv(Apply(s, a))
  {
    ReserveKeepsSlots(s, a);
    ReserveKeepsSagas(s, a);
    GpuKept(s.slots, Apply(s, a).slots);
  }

  lemma ReserveKeepsSlots(s: Plane, a: Action)
    requires SlotInv(s) && Enabled(s, a) && a.Reserve?
    ensures SlotInv(Apply(s, a))
  {
    var s' := Apply(s, a);
    forall i | i in s'.slots ensures SlotOk(s', i) {
      assert SlotOk(s, i);
    }
  }

  lemma ReserveSpares(s: Plane, a: Action, q: ReqId)
    requires SlotInv(s) && SagaInv(s) && Enabled(s, a) && a.Reserve? && q in s.sagas
    ensures q in Apply(s, a).sagas && SagaOk(Apply(s, a), q)
  {
    forall i | i in s.owner ensures i !in a.res {
      assert SlotOk(s, i);
      assert i in R.Ids(a.res) <==> i in a.res;
    }
    assert SagaOk(s, q);
    SagaSpared(s, Apply(s, a), q);
  }

  lemma ReserveStarts(s: Plane, a: Action)
    requires Enabled(s, a) && a.Reserve?
    ensures SagaOk(Apply(s, a), a.req)
  {
    assert a.res[0] in R.Ids(a.res);
  }

  lemma ReserveKeepsSagas(s: Plane, a: Action)
    requires SlotInv(s) && SagaInv(s) && Enabled(s, a) && a.Reserve?
    ensures SagaInv(Apply(s, a))
  {
    var s' := Apply(s, a);
    forall q | q in s'.sagas ensures SagaOk(s', q) {
      if q == a.req {
        ReserveStarts(s, a);
      } else {
        ReserveSpares(s, a, q);
      }
    }
  }

  // One request moves; the tables and everybody's reservations stay as they are.
  lemma SagaMoves(s: Plane, q: ReqId, g: Saga)
    requires Inv(s) && s.serving && SagaOk(s.(sagas := s.sagas[q := g]), q)
    requires q in s.sagas && Live(s.sagas[q]) ==> Live(g) && g.res == s.sagas[q].res
    ensures Inv(s.(sagas := s.sagas[q := g]))
  {
    var s' := s.(sagas := s.sagas[q := g]);
    forall i | i in s'.slots ensures SlotOk(s', i) {
      assert SlotOk(s, i);
    }
    forall p | p in s'.sagas ensures SagaOk(s', p) {
      if p != q {
        assert SagaOk(s, p);
      }
    }
  }

  lemma StartPlainKeeps(s: Plane, q: ReqId, node: NodeId)
    requires Inv(s) && Enabled(s, StartPlain(q, node))
    ensures Inv(Apply(s, StartPlain(q, node)))
  {
    SagaMoves(s, q, Saga(Inserting, node, 0, [], None));
  }

  lemma ResolveKeeps(s: Plane, q: ReqId, ok: bool)
    requires Inv(s) && Enabled(s, Resolve(q, ok))
    ensures Inv(Apply(s, Resolve(q, ok)))
  {
    assert SagaOk(s, q);
    SagaMoves(s, q, s.sagas[q].(pc := if ok then Inserting else UndoReserve));
  }

  lemma DispatchKeeps(s: Plane, q: ReqId, ok: bool)
    requires Inv(s) && Enabled(s, Dispatch(q, ok))
    ensures Inv(Apply(s, Dispatch(q, ok)))
  {
    assert SagaOk(s, q);
    SagaMoves(s, q, s.sagas[q].(
      pc := if ok then Succeeded else if s.sagas[q].size > 0 then UndoDispatch else MarkDispatchFailed));
  }

  lemma InsertKeeps(s: Plane, a: Action)
    requires Inv(s) && Enabled(s, a) && a.Insert?
    ensures Inv(Apply(s, a))
  {
    InsertKeepsSlots(s, a);
    InsertKeepsSagas(s, a);
    if a.ok {
      var g := s.sagas[a.req];
      I.CreateReplays(s.insts, s.nextInst, I.Input(a.owner, g.node, g.size, Indices(s.slots, g.res)));
    }
  }

  lemma InsertKeepsSlots(s: Plane, a: Action)
    requires SlotInv(s) && InstInv(s) && SagaInv(s) && Enabled(s, a) && a.Insert?
    ensures SlotInv(Apply(s, a))
  {
    var s' := Apply(s, a);
    assert SagaOk(s, a.req);
    forall i | i in s'.slots ensures SlotOk(s', i) {
      assert SlotOk(s, i);
    }
  }

  lemma InsertKeepsSagas(s: Plane, a: Action)
    requires SlotInv(s) && InstInv(s) && SagaInv(s) && Enabled(s, a) && a.Insert?
    ensures SagaInv(Apply(s, a))
  {
    var s' := Apply(s, a);
    forall q | q in s'.sagas ensures SagaOk(s', q) {
      assert SagaOk(s, q);
      if q == a.req && a.ok {
        var g := s.sagas[q];
        forall k | 0 <= k < |g.res| ensures s.slots[g.res[k]].index in Indices(s.slots, g.res) {
          assert Indices(s.slots, g.res)[k] == s.slots[g.res[k]].index;
        }
        forall i | i in s.slots ensures s.slots[i].holder != Some(s.nextInst) {
          assert SlotOk(s, i);
        }
      }
    }
  }

  lemma BindKeeps(s: Plane, a: Action)
    requires Inv(s) && Enabled(s, a) && a.Bind?
    ensures Inv(Apply(s, a))
  {
    BindKeepsSlots(s, a);
    BindKeepsSagas(s, a);
    GpuKept(s.slots, Apply(s, a).slots);
  }

  lemma BindKeepsSlots(s: Plane, a: Action)
    requires SlotInv(s) && SagaInv(s) && Enabled(s, a) && a.Bind?
    ensures SlotInv(Apply(s, a))
  {
    var s' := Apply(s, a);
    assert SagaOk(s, a.req);
    forall i | i in s'.slots ensures SlotOk(s', i) {
      assert SlotOk(s, i);
    }
  }

  lemma BindSpares(s: Plane, q: ReqId, ok: bool, p: ReqId)
    requires SlotInv(s) && SagaInv(s) && Enabled(s, Bind(q, ok)) && p in s.sagas && p != q
    ensures p in Apply(s, Bind(q, ok)).sagas && SagaOk(Apply(s, Bind(q, ok)), p)
  {
    assert SagaOk(s, q) && SagaOk(s, p);
    SagaSpared(s, Apply(s, Bind(q, ok)), p);
  }

  lemma BindKeepsSagas(s: Plane, a: Action)
    requires SlotInv(s) && SagaInv(s) && Enabled(s, a) && a.Bind?
    ensures SagaInv(Apply(s, a))
  {
    var s' := Apply(s, a);
    forall p | p in s'.sagas ensures SagaOk(s', p) {
      if p == a.req {
        assert SagaOk(s, p);
      } else {
        BindSpares(s, a.req, a.ok, p);
      }
    }
  }

  lemma ReleaseResKeeps(s: Plane, a: Action)
    requires Inv(s) && Enabled(s, a) && a.ReleaseRes?
    ensures Inv(Apply(s, a))
  {
    ReleaseResKeepsSlots(s, a);
    ReleaseResKeepsSagas(s, a);
    GpuKept(s.slots, Apply(s, a).slots);
  }

  lemma ReleaseResKeepsSlots(s: Plane, a: Action)
    requires SlotInv(s) && SagaInv(s) && Enabled(s, a) && a.ReleaseRes?
    ensures SlotInv(Apply(s, a))
  {
    var s' := Apply(s, a);
    assert SagaOk(s, a.req);
    forall i | i in s'.slots ensures SlotOk(s', i) {
      assert SlotOk(s, i);
    }
  }

  // The other requests own none of the rows that are given up.
  lemma ReleaseResSpares(s: Plane, a: Action, q: ReqId)
    requires SlotInv(s) && SagaInv(s) && Enabled(s, a) && a.ReleaseRes? && q in s.sagas && q != a.req
    ensures q in Apply(s, a).sagas && SagaOk(Apply(s, a), q)
  {
    assert SagaOk(s, a.req) && SagaOk(s, q);
    SagaSpared(s, Apply(s, a), q);
  }

  lemma ReleaseResKeepsSagas(s: Plane, a: Action)
    requires SlotInv(s) && SagaInv(s) && Enabled(s, a) && a.ReleaseRes?
    ensures SagaInv(Apply(s, a))
  {
    var s' := Apply(s, a);
    forall q | q in s'.sagas ensures SagaOk(s', q) {
      if q == a.req {
        assert SagaOk(s, q);
      } else {
        ReleaseResSpares(s, a, q);
      }
    }
  }

  // ReleaseForInstance, whoever calls it.
  lemma FreeKeeps(s: Plane, id: InstanceId)
    requires Inv(s)
    ensures Inv(s.(slots := ReleaseHolder(s.slots, id)))
  {
    var s' := s.(slots := ReleaseHolder(s.slots, id));
    forall i | i in s'.slots ensures SlotOk(s', i) {
      assert SlotOk(s, i);
    }
    forall q | q in s'.sagas ensures SagaOk(s', q) {
      assert SagaOk(s, q);
      SagaSpared(s, s', q);
    }
    GpuKept(s.slots, s'.slots);
  }

  // Transition, whoever calls it.
  lemma TransitionKeeps(s: Plane, id: InstanceId, to: State, opts: I.Options)
    requires Inv(s)
    ensures Inv(s.(insts := I.Transition(s.insts, id, to, opts)))
  {
    var s' := s.(insts := I.Transition(s.insts, id, to, opts));
    I.TransitionReplays(s.insts, id, to, opts);
    I.TransitionEvolves(s.insts, id, to, opts);
    forall i | i in s'.slots ensures SlotOk(s', i) {
      assert SlotOk(s, i);
    }
    forall q | q in s'.sagas ensures SagaOk(s', q) {
      assert SagaOk(s, q);
    }
  }

  // A request that owns nothing any more moves on to its next compensation or its end.
  lemma MoveKeeps(s: Plane, q: ReqId, pc: Pc)
    requires Inv(s) && q in s.sagas && !Live(s.sagas[q])
    requires pc.Aborted? || (pc.MarkDispatchFailed? && s.sagas[q].inst.Some?)
    ensures Inv(Move(s, q, pc))
  {
    var s' := Move(s, q, pc);
    forall i | i in s'.slots ensures SlotOk(s', i) {
      assert SlotOk(s, i);
    }
    forall p | p in s'.sagas ensures SagaOk(s', p) {
      assert SagaOk(s, p);
    }
  }

  lemma RemoveKeepsSlots(s: Plane, a: Action)
    requires SlotInv(s) && Enabled(s, a) && a.Remove?
    ensures SlotInv(Apply(s, a))
  {
    var s' := Apply(s, a);
    forall i | i in s'.slots ensures SlotOk(s', i) {
      assert SlotOk(s, i);
    }
  }

  lemma RemoveKeeps(s: Plane, a: Action)
    requires Inv(s) && Enabled(s, a) && a.Remove?
    ensures Inv(Apply(s, a))
  {
    var s' := Apply(s, a);
    I.DeleteReplays(s.insts, a.id);
    RemoveKeepsSlots(s, a);
    forall q | q in s'.sagas ensures SagaOk(s', q) {
      assert SagaOk(s, q);
    }
    GpuKept(s.slots, s'.slots);
  }

  lemma CrashKeeps(s: Plane, a: Action)
    requires Inv(s) && Enabled(s, a) && (a.Crash? || a.Recover?)
    ensures Inv(Apply(s, a))
  {
    var s' := Apply(s, a);
    forall i | i in s'.slots ensures SlotOk(s', i) {
      assert SlotOk(s, i);
    }
    GpuKept(s.slots, s'.slots);
  }

  // After a sync the node's rows are exactly the reported slots.
  lemma SyncedRows(t: Table, node: NodeId, first: SlotId, w: seq<Spec>, i: SlotId)
    requires (forall j :: j in t ==> j < first) && i in InsertAll(DropNode(t, node), node, first, w)
    ensures var t' := InsertAll(DropNode(t, node), node, first, w);
            && (t'[i].node == node <==> i >= first)
            && (i >= first ==> i - first < |w| && t'[i] == NewSlot(node, w[i - first]))
            && (i < first ==> i in t && t'[i] == t[i])
  {
  }

  lemma SyncRows(s: Plane, a: Action, i: SlotId)
    requires Enabled(s, a) && a.Sync? && i in Apply(s, a).slots
    requires forall j :: j in s.slots ==> j < s.nextSlot
    ensures Apply(s, a).slots[i].node == a.node <==> i >= s.nextSlot
    ensures i >= s.nextSlot ==> i - s.nextSlot < |a.layout|
                                && Apply(s, a).slots[i] == NewSlot(a.node, Profile.Wire(a.layout)[i - s.nextSlot])
    ensures i < s.nextSlot ==> i in s.slots && Apply(s, a).slots[i] == s.slots[i]
  {
    SyncedRows(s.slots, a.node, s.nextSlot, Profile.Wire(a.layout), i);
  }

  lemma SyncedGpus(t: Table, node: NodeId, first: SlotId, w: seq<Spec>)
    requires GpuInv(t) && (forall j :: j in t ==> j < first) && GoodSpecs(w)
    requires forall i :: 0 <= i < |w| ==> w[i].gpuCount == |w[i].gpus|
    requires forall i, j, g :: 0 <= i < j < |w| && g in w[i].gpus ==> g !in w[j].gpus
    ensures GpuInv(InsertAll(DropNode(t, node), node, first, w))
  {
    var t' := InsertAll(DropNode(t, node), node, first, w);
    forall i | i in t' ensures t'[i].gpuCount == |t'[i].gpus| {
      SyncedRows(t, node, first, w, i);
    }
    forall i, j | i in t' && j in t' && i != j && t'[i].node == t'[j].node ensures t'[i].index != t'[j].index {
      SyncedRows(t, node, first, w, i);
      SyncedRows(t, node, first, w, j);
    }
    forall i, j, g | i in t' && j in t' && i != j && t'[i].node == t'[j].node && g in t'[i].gpus ensures g !in t'[j].gpus {
      SyncedRows(t, node, first, w, i);
      SyncedRows(t, node, first, w, j);
      if i >= first && j < i {
        forall h | h in t'[j].gpus ensures h !in t'[i].gpus {
          assert h in w[j - first].gpus;
        }
      }
    }
  }

  lemma SyncKeepsGpus(s: Plane, a: Action)
    requires GpuInv(s.slots) && Enabled(s, a) && a.Sync?
    requires forall i :: i in s.slots ==> i < s.nextSlot
    ensures GpuInv(Apply(s, a).slots)
  {
    Profile.WireIsGood(a.layout, a.hosts);
    SyncedGpus(s.slots, a.node, s.nextSlot, Profile.Wire(a.layout));
  }

  lemma SyncKeepsSlots(s: Plane, a: Action)
    requires SlotInv(s) && Enabled(s, a) && a.Sync?
    ensures SlotInv(Apply(s, a))
    ensures forall i :: i in s.slots && !s.slots[i].status.Free? ==> i in Apply(s, a).slots && Apply(s, a).slots[i] == s.slots[i]
    ensures forall i :: i in s.slots ==> i < s.nextSlot
  {
    var s' := Apply(s, a);
    forall i | i in s.slots ensures i < s.nextSlot && (s.slots[i].node != a.node || s.slots[i].status.Free?) {
      assert SlotOk(s, i);
      assert i !in NonFree(s.slots, a.node);
    }
    forall i | i in s.orphans + s.stranded + s.owner.Keys ensures i in s'.slots {
      assert SlotOk(s, i);
    }
    forall i | i in s'.slots ensures SlotOk(s', i) {
      SyncRows(s, a, i);
      if i in s.slots {
        assert SlotOk(s, i);
      } else {
        assert i !in s.owner && i !in s.orphans && i !in s.stranded;
      }
    }
  }

  lemma SyncKeepsSagas(s: Plane, a: Action)
    requires SlotInv(s) && SagaInv(s) && Enabled(s, a) && a.Sync?
    ensures SagaInv(Apply(s, a))
  {
    var s' := Apply(s, a);
    SyncKeepsSlots(s, a);
    forall q | q in s'.sagas ensures SagaOk(s', q) {
      assert SagaOk(s, q);
      var g := s.sagas[q];
      forall i | i in g.res && Live(g) ensures i in s'.slots && s'.slots[i] == s.slots[i] {
        assert SlotOk(s, i);
      }
      if g.pc.Binding? {
        forall i | i in s'.slots ensures s'.slots[i].holder != g.inst {
          SyncRows(s, a, i);
        }
      }
    }
  }

  lemma SyncKeeps(s: Plane, a: Action)
    requires Inv(s) && Enabled(s, a) && a.Sync?
    ensures Inv(Apply(s, a))
  {
    SyncKeepsSlots(s, a);
    SyncKeepsSagas(s, a);
    SyncKeepsGpus(s, a);
  }

  /** Every action, from every state that satisfies it, keeps the invariant. */
  lemma StepKeeps(s: Plane, a: Action)
    requires Inv(s) && Enabled(s, a)
    ensures Inv(Apply(s, a))
  {
    match a
    case Reserve(_, _, _, _) => ReserveKeeps(s, a);
    case StartPlain(q, node) => StartPlainKeeps(s, q, node);
    case Resolve(q, ok) => ResolveKeeps(s, q, ok);
    case Insert(_, _, _) => InsertKeeps(s, a);
    case Bind(_, _) => BindKeeps(s, a);
    case Dispatch(q, ok) => DispatchKeeps(s, q, ok);
    case ReleaseRes(_, _) => ReleaseResKeeps(s, a);
    case ReleaseInst(q, ok) =>
      MoveKeeps(s, q, MarkDispatchFailed);
      if ok { FreeKeeps(Move(s, q, MarkDispatchFailed), s.sagas[q].inst.value); }
    case MarkFailed(q, ok, opts) =>
      MoveKeeps(s, q, Aborted);
      if ok { TransitionKeeps(Move(s, q, Aborted), s.sagas[q].inst.value, Failed, opts); }
    case Report(id, to, opts) => TransitionKeeps(s, id, to, opts);
    case Vacate(id) => FreeKeeps(s, id);
    case Remove(_) => RemoveKeeps(s, a);
    case Sync(_, _, _) => SyncKeeps(s, a);
    case Crash => CrashKeeps(s, a);
    case Recover => CrashKeeps(s, a);
  }
}
