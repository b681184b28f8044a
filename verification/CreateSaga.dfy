/** api/admin_instances.go: the reserve, insert, bind, dispatch sequence of runCreate and its
    compensations, on the real repositories, run alone. ControlPlane interleaves it. */
module CreateSaga {
  import opened Wrappers
  import opened Lifecycle
  import opened SlotTable
  import opened Database
  import I = InstanceTable
  import S = SlotRepo
  import N = InstanceRepo

  datatype Gpu = Gpu(index: int, pci: string, companions: seq<string>)

  // ---- PCI resolution ----

  predicate Reported(gpus: seq<Gpu>, n: nat, index: int)
    requires n <= |gpus|
  {
    exists j :: 0 <= j < n && gpus[j].index == index
  }

  // Of the first n GPUs the last one reported under the index.
  predicate LastAt(gpus: seq<Gpu>, n: nat, index: int, j: int) {
    0 <= j < n <= |gpus| && gpus[j].index == index && forall l :: j < l < n ==> gpus[l].index != index
  }

  predicate AllKnown(gpus: seq<Gpu>, indices: seq<int>) {
    forall k :: 0 <= k < |indices| ==> Reported(gpus, |gpus|, indices[k])
  }

  // From offset lo to hi stand the address of the last GPU reported under the index and then
  // all its companions.
  ghost predicate Stands(gpus: seq<Gpu>, index: int, pci: seq<string>, lo: nat, hi: nat) {
    exists j :: LastAt(gpus, |gpus|, index, j)
                && hi == lo + 1 + |gpus[j].companions| && hi <= |pci|
                && pci[lo] == gpus[j].pci && pci[lo + 1..hi] == gpus[j].companions
  }

  // The offsets at which the listed GPUs begin, and the end of the list.
  ghost predicate Laid(gpus: seq<Gpu>, indices: seq<int>, pci: seq<string>, at: seq<nat>) {
    && |at| == |indices| + 1 && at[0] == 0 && at[|indices|] == |pci|
    && forall k :: 0 <= k < |indices| ==> Stands(gpus, indices[k], pci, at[k], at[k + 1])
  }

  /** The listed GPUs one after the other, each with its companions, and nothing else. */
  ghost predicate Lists(gpus: seq<Gpu>, indices: seq<int>, pci: seq<string>) {
    exists at: seq<nat> :: Laid(gpus, indices, pci, at)
  }

  lemma StandsLonger(gpus: seq<Gpu>, index: int, pci: seq<string>, more: seq<string>, lo: nat, hi: nat)
    requires Stands(gpus, index, pci, lo, hi)
    ensures Stands(gpus, index, pci + more, lo, hi)
  {
    var j :| LastAt(gpus, |gpus|, index, j) && hi == lo + 1 + |gpus[j].companions| && hi <= |pci|
             && pci[lo] == gpus[j].pci && pci[lo + 1..hi] == gpus[j].companions;
    assert (pci + more)[lo + 1..hi] == pci[lo + 1..hi];
  }

  lemma ListsMore(gpus: seq<Gpu>, indices: seq<int>, pci: seq<string>, index: int, j: int)
    requires Lists(gpus, indices, pci) && LastAt(gpus, |gpus|, index, j)
    ensures Lists(gpus, indices + [index], pci + [gpus[j].pci] + gpus[j].companions)
  {
    var at: seq<nat> :| Laid(gpus, indices, pci, at);
    var more := [gpus[j].pci] + gpus[j].companions;
    var pci' := pci + more;
    assert pci' == pci + [gpus[j].pci] + gpus[j].companions;
    assert pci'[|pci| + 1..|pci'|] == gpus[j].companions;
    assert Stands(gpus, index, pci', |pci|, |pci'|);
    forall k | 0 <= k < |indices| ensures Stands(gpus, indices[k], pci', at[k], at[k + 1]) {
      StandsLonger(gpus, indices[k], pci, more, at[k], at[k + 1]);
    }
    assert Laid(gpus, indices + [index], pci', at + [|pci'|]);
  }

  lemma {:induction false} SameOffsets(gpus: seq<Gpu>, indices: seq<int>, p: seq<string>, at: seq<nat>, q: seq<string>, bt: seq<nat>, n: nat)
    requires Laid(gpus, indices, p, at) && Laid(gpus, indices, q, bt) && n <= |indices|
    ensures at[n] == bt[n] && at[n] <= |p| && at[n] <= |q| && p[..at[n]] == q[..at[n]]
  {
    if n > 0 {
      SameOffsets(gpus, indices, p, at, q, bt, n - 1);
      var lo, hi := at[n - 1], at[n];
      assert Stands(gpus, indices[n - 1], p, lo, hi) && Stands(gpus, indices[n - 1], q, lo, bt[n]);
      assert p[..hi] == p[..lo] + [p[lo]] + p[lo + 1..hi];
      assert q[..hi] == q[..lo] + [q[lo]] + q[lo + 1..hi];
    }
  }

  /** There is only one such list. */
  lemma ListsOnce(gpus: seq<Gpu>, indices: seq<int>, p: seq<string>, q: seq<string>)
    requires Lists(gpus, indices, p) && Lists(gpus, indices, q)
    ensures p == q
  {
    var at: seq<nat> :| Laid(gpus, indices, p, at);
    var bt: seq<nat> :| Laid(gpus, indices, q, bt);
    SameOffsets(gpus, indices, p, at, q, bt, |indices|);
    assert p[..|p|] == p && q[..|q|] == q;
  }

  // None stands for a missing or unparsable topology column.
  method ResolvePassthroughPci(topology: Option<seq<Gpu>>, indices: seq<int>) returns (r: Option<seq<string>>)
    ensures r.Some? <==> topology.Some? && AllKnown(topology.value, indices)
    ensures r.Some? ==> Lists(topology.value, indices, r.value)
  {
    if topology.None? { return None; }
    var gpus := topology.value;
    var byIndex := IndexGpus(gpus);
    var out: seq<string> := [];
    assert Laid(gpus, [], [], [0]);
    for k := 0 to |indices|
      invariant AllKnown(gpus, indices[..k]) && Lists(gpus, indices[..k], out)
    {
      if indices[k] !in byIndex {
        assert !Reported(gpus, |gpus|, indices[k]);
        return None;
      }
      assert indices[..k + 1] == indices[..k] + [indices[k]];
      var g := byIndex[indices[k]];
      ghost var j :| LastAt(gpus, |gpus|, indices[k], j) && g == gpus[j];
      ListsMore(gpus, indices[..k], out, indices[k], j);
      out := out + [g.pci] + g.companions;
    }
    assert indices[..|indices|] == indices;
    return Some(out);
  }

  ghost predicate Indexed(gpus: seq<Gpu>, n: nat, byIndex: map<int, Gpu>)
    requires n <= |gpus|
  {
    && (forall x :: x in byIndex <==> Reported(gpus, n, x))
    && forall x :: x in byIndex ==> exists j :: LastAt(gpus, n, x, j) && byIndex[x] == gpus[j]
  }

  lemma IndexNext(gpus: seq<Gpu>, n: nat, byIndex: map<int, Gpu>)
    requires n < |gpus| && Indexed(gpus, n, byIndex)
    ensures Indexed(gpus, n + 1, byIndex[gpus[n].index := gpus[n]])
  {
    var more := byIndex[gpus[n].index := gpus[n]];
    forall x | x in more ensures exists j :: LastAt(gpus, n + 1, x, j) && more[x] == gpus[j] {
      if x == gpus[n].index {
        assert LastAt(gpus, n + 1, x, n);
      } else {
        LastStays(gpus, n, x, byIndex[x]);
      }
    }
    forall x ensures x in more <==> Reported(gpus, n + 1, x) {
      ReportedNext(gpus, n, x);
    }
  }

  lemma ReportedNext(gpus: seq<Gpu>, n: nat, x: int)
    requires n < |gpus|
    ensures Reported(gpus, n + 1, x) <==> Reported(gpus, n, x) || x == gpus[n].index
  {
  }

  lemma LastStays(gpus: seq<Gpu>, n: nat, x: int, g: Gpu)
    requires n < |gpus| && x != gpus[n].index && exists j :: LastAt(gpus, n, x, j) && g == gpus[j]
    ensures exists j :: LastAt(gpus, n + 1, x, j) && g == gpus[j]
  {
    var j :| LastAt(gpus, n, x, j) && g == gpus[j];
    assert LastAt(gpus, n + 1, x, j);
  }

  // The first loop: a later GPU replaces an earlier one of the same index.
  method IndexGpus(gpus: seq<Gpu>) returns (byIndex: map<int, Gpu>)
    ensures Indexed(gpus, |gpus|, byIndex)
  {
    byIndex := map[];
    for k := 0 to |gpus|
      invariant Indexed(gpus, k, byIndex)
    {
      IndexNext(gpus, k, byIndex);
      byIndex := byIndex[gpus[k].index := gpus[k]];
    }
  }

  // ---- runCreate ----

  // Statement budgets of each transaction (see SlotRepo), whether the dispatch fails, and what
  // the error says that makes a row failed.
  datatype Faults = Faults(reserve: nat, insert: nat, bind: nat, dispatch: bool, undo: nat, mark: nat, message: string)

  datatype Shape = Shape(memory: int, vcpus: int)

  datatype Outcome = Created(id: InstanceId, pci: seq<string>) | Refused

  function FailedOptions(reason: string, message: string): I.Options {
    I.Options(reason, message, None, false)
  }

  // A refused request leaves the slots as they were; if it inserted a row, the row is failed
  // and says why.
  ghost predicate Undone(t: Table, d: I.Tables, t': Table, d': I.Tables, next: InstanceId, owner: Option<UserId>, message: string) {
    && t' == t
    && (d'.rows == d.rows || (next in d'.rows && d'.rows == d.rows[next := d'.rows[next]] && FailedRow(d'.rows[next], owner, message)))
  }

  predicate FailedRow(r: I.Row, owner: Option<UserId>, message: string) {
    r.state == Failed && r.owner == owner && r.errorMessage == message
  }

  // A created instance is pending, the requester's, and holds exactly the slot that was picked
  // for it.
  ghost predicate Granted(t: Table, d: I.Tables, t': Table, d': I.Tables, id: InstanceId, node: NodeId, size: int,
                          owner: Option<UserId>, i: SlotId) {
    && Picked(t, node, size, 1, {i}) && i in t
    && t' == t[i := t[i].(status := InUse, holder := Some(id))]
    && HeldBy(t', id) == {i}
    && id !in d.rows && d'.rows == d.rows[id := I.Row(node, owner, size, [t[i].index], Pending, None, "")]
  }

  // Some slot can be had, and whichever it is, the topology knows its GPUs.
  ghost predicate Resolvable(t: Table, node: NodeId, size: int, topology: Option<seq<Gpu>>) {
    && Candidates(t, node, size) != {} && topology.Some?
    && forall i :: i in Candidates(t, node, size) ==> AllKnown(topology.value, t[i].gpus)
  }

  lemma ReleaseUndoesReserve(t: Table, ids: set<SlotId>)
    requires forall i :: i in ids ==> i in t && t[i].status.Free?
    requires forall i :: i in t && t[i].status.Free? ==> t[i].holder.None?
    ensures ReleaseReserved(SetReserved(t, ids), ids) == t
  {
  }

  lemma ReleaseUndoesBind(t: Table, ids: set<SlotId>, id: InstanceId)
    requires forall i :: i in ids ==> i in t && t[i].status.Free?
    requires forall i :: i in t && t[i].status.Free? ==> t[i].holder.None?
    requires HeldBy(t, id) == {}
    ensures SetInUse(SetReserved(t, ids), ids, id) == SetInUse(t, ids, id)
    ensures ReleaseHolder(SetInUse(t, ids, id), id) == t
    ensures ids <= t.Keys ==> HeldBy(SetInUse(t, ids, id), id) == ids
  {
    forall i | i in t ensures t[i].holder != Some(id) {
      assert i !in HeldBy(t, id);
    }
  }

  class InstanceHandlers {
    const db: Database
    const slots: S.SlotRepo
    const instances: N.InstanceRepo

    constructor (db: Database)
      ensures this.db == db && slots.db == db && instances.db == db
    {
      this.db := db;
      slots := new S.SlotRepo(db);
      instances := new N.InstanceRepo(db);
    }

    // Free rows have no holder, and nothing refers to ids not handed out yet.
    ghost predicate Ready()
      reads this, db
    {
      && slots.db == db && instances.db == db
      && (forall i :: i in db.slots && db.slots[i].status.Free? ==> db.slots[i].holder.None?)
      && HeldBy(db.slots, db.nextInstance) == {}
      && db.nextInstance !in db.instances.rows
      && I.Replays(db.instances)
    }

    // The row can be inserted, whatever its slots.
    predicate Admissible(node: NodeId, owner: Option<UserId>, shape: Shape)
      reads instances.db`hashes, instances.db`users
    {
      instances.Admissible(I.Input(owner, node, 0, []), shape.memory, shape.vcpus)
    }

    // reserveIfNeeded for gpu_count > 0.
    method ReserveAndResolve(node: NodeId, size: int, topology: Option<seq<Gpu>>, f: Faults)
      returns (res: seq<SlotId>, pci: Option<seq<string>>)
      requires Ready() && size > 0
      modifies db`slots
      ensures pci.Some? ==> |res| == 1 && Picked(old(db.slots), node, size, 1, {res[0]})
                            && res[0] in old(db.slots) && db.slots == SetReserved(old(db.slots), {res[0]})
                            && topology.Some? && AllKnown(topology.value, old(db.slots)[res[0]].gpus)
                            && Lists(topology.value, old(db.slots)[res[0]].gpus, pci.value)
      ensures pci.None? && f.undo > 0 ==> db.slots == old(db.slots)
      ensures pci.Some? ==> f.reserve >= 3
      ensures f.reserve >= 3 && Resolvable(old(db.slots), node, size, topology) ==> pci.Some?
    {
      var r := slots.Reserve(node, size, 1, f.reserve);
      if r.Err? { return [], None; }
      res := r.value;
      assert S.Ids(res) == {res[0]};
      pci := ResolvePassthroughPci(topology, db.slots[res[0]].gpus);
      if pci.None? {
        var _ := slots.ReleaseReserved(res, f.undo);
        ReleaseUndoesReserve(old(db.slots), {res[0]});
      }
    }

    /** All or nothing at every failure point: either the instance exists and holds
        exactly the slot picked for it, and exactly that slot's GPUs with their companions
        are dispatched; or, when the compensations themselves succeed, every slot is as it
        was and a row that was inserted is failed. */
    method RunCreate(node: NodeId, size: int, owner: Option<UserId>, shape: Shape, topology: Option<seq<Gpu>>, f: Faults)
      returns (out: Outcome)
      requires Ready() && size > 0
      modifies db`slots, db`instances, db`nextInstance
      ensures out.Created? ==> exists i ::
                && Granted(old(db.slots), old(db.instances), db.slots, db.instances, out.id, node, size, owner, i)
                && topology.Some? && AllKnown(topology.value, old(db.slots)[i].gpus)
                && Lists(topology.value, old(db.slots)[i].gpus, out.pci)
      ensures out.Refused? && f.undo > 0 && f.mark >= 4 ==>
                Undone(old(db.slots), old(db.instances), db.slots, db.instances, old(db.nextInstance), owner, f.message)
      ensures out.Created? ==> f.reserve >= 3 && f.insert >= 3 && f.bind > 1 && !f.dispatch && Admissible(node, owner, shape)
      ensures f.reserve >= 3 && f.insert >= 3 && f.bind > 1 && !f.dispatch && Admissible(node, owner, shape)
              && Resolvable(old(db.slots), node, size, topology)
              ==> out.Created?
      ensures I.Replays(db.instances)
    {
      var res, pci := ReserveAndResolve(node, size, topology, f);
      if pci.None? { return Refused; }
      assert S.Ids(res) == {res[0]};
      var id := InsertAndBind(old(db.slots), res, node, size, owner, shape, f);
      return if id.Some? then Created(id.value, pci.value) else Refused;
    }

    // What follows the reservation: t is the slot table before it.
    method InsertAndBind(ghost t: Table, res: seq<SlotId>, node: NodeId, size: int, owner: Option<UserId>, shape: Shape, f: Faults)
      returns (id: Option<InstanceId>)
      requires slots.db == db && instances.db == db && I.Replays(db.instances) && size > 0
      requires |res| == 1 && res[0] in t && Picked(t, node, size, 1, {res[0]}) && db.slots == SetReserved(t, {res[0]})
      requires forall i :: i in t && t[i].status.Free? ==> t[i].holder.None?
      requires HeldBy(t, db.nextInstance) == {} && db.nextInstance !in db.instances.rows
      modifies db`slots, db`instances, db`nextInstance
      ensures id.Some? <==> f.insert >= 3 && f.bind > 1 && !f.dispatch && Admissible(node, owner, shape)
      ensures id.Some? ==> Granted(t, old(db.instances), db.slots, db.instances, id.value, node, size, owner, res[0])
      ensures id.None? && f.undo > 0 && f.mark >= 4 ==>
                Undone(t, old(db.instances), db.slots, db.instances, old(db.nextInstance), owner, f.message)
      ensures I.Replays(db.instances)
    {
      assert S.Ids(res) == {res[0]};
      assert res[0] in Candidates(t, node, size);
      id := instances.Insert(I.Input(owner, node, size, [db.slots[res[0]].index]), shape.memory, shape.vcpus, f.insert);
      if id.None? {
        var _ := slots.ReleaseReserved(res, f.undo);
        ReleaseUndoesReserve(t, {res[0]});
        return;
      }
      var ok := BindAndDispatch(t, res, id.value, f);
      if !ok { id := None; }
    }

    // The last two steps and their compensations: t is the slot table before the reservation.
    method BindAndDispatch(ghost t: Table, res: seq<SlotId>, id: InstanceId, f: Faults) returns (ok: bool)
      requires slots.db == db && instances.db == db && I.Replays(db.instances)
      requires |res| == 1 && res[0] in t && t[res[0]].status.Free? && db.slots == SetReserved(t, {res[0]})
      requires forall i :: i in t && t[i].status.Free? ==> t[i].holder.None?
      requires HeldBy(t, id) == {} && id in db.instances.rows && db.instances.rows[id].state == Pending
      requires db.instances.rows[id].errorMessage == ""
      modifies db`slots, db`instances
      ensures ok <==> f.bind > 1 && !f.dispatch
      ensures ok ==> db.slots == t[res[0] := t[res[0]].(status := InUse, holder := Some(id))]
                     && HeldBy(db.slots, id) == {res[0]} && db.instances == old(db.instances)
      ensures !ok && f.undo > 0 ==> db.slots == t
      ensures !ok && f.mark >= 4 ==>
                && db.instances.rows == old(db.instances.rows)[id := old(db.instances.rows)[id].(state := Failed, errorMessage := f.message)]
                && db.instances.events == old(db.instances.events)
                   + [I.Event(id, Some(Pending), Failed, if f.bind > 1 then "dispatch_failed" else "bind_failed")]
      ensures I.Replays(db.instances)
    {
      assert S.Ids(res) == {res[0]};
      ReleaseUndoesReserve(t, {res[0]});
      ReleaseUndoesBind(t, {res[0]}, id);
      var reason := "bind_failed";
      ok := slots.BindToInstance(res, id, f.bind);
      if ok {
        if !f.dispatch { return; }
        var _ := slots.ReleaseForInstance(id, f.undo);
        reason := "dispatch_failed";
      } else {
        var _ := slots.ReleaseReserved(res, f.undo);
      }
      MarkFailed(id, reason, f);
      ok := false;
    }

    // markFailed of a row that has just been inserted.
    method MarkFailed(id: InstanceId, reason: string, f: Faults)
      requires instances.db == db && I.Replays(db.instances)
      requires id in db.instances.rows && db.instances.rows[id].state == Pending && db.instances.rows[id].errorMessage == ""
      modifies db`instances
      ensures f.mark >= 4 ==>
                && db.instances.rows == old(db.instances.rows)[id := old(db.instances.rows)[id].(state := Failed, errorMessage := f.message)]
                && db.instances.events == old(db.instances.events) + [I.Event(id, Some(Pending), Failed, reason)]
      ensures I.Replays(db.instances)
    {
      var _ := instances.Transition(id, Failed, FailedOptions(reason, f.message), f.mark);
    }

    /** gpu_count = 0: no slot is read or written. */
    method RunCreatePlain(node: NodeId, owner: Option<UserId>, shape: Shape, f: Faults) returns (out: Outcome)
      requires Ready()
      modifies db`instances, db`nextInstance
      ensures out.Created? ==>
                && out.pci == [] && out.id !in old(db.instances.rows)
                && db.instances.rows == old(db.instances.rows)[out.id := I.Row(node, owner, 0, [], Pending, None, "")]
      ensures out.Refused? && f.mark >= 4 ==>
                Undone(old(db.slots), old(db.instances), db.slots, db.instances, old(db.nextInstance), owner, f.message)
      ensures out.Created? <==> f.insert >= 3 && !f.dispatch && Admissible(node, owner, shape)
      ensures I.Replays(db.instances)
    {
      var id := instances.Insert(I.Input(owner, node, 0, []), shape.memory, shape.vcpus, f.insert);
      if id.None? { return Refused; }
      if f.dispatch {
        MarkFailed(id.value, "dispatch_failed", f);
        return Refused;
      }
      return Created(id.value, []);
    }
  }
}
