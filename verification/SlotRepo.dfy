/** slot/repo.go: each method is one transaction on gpu_slots. Work is done on a copy of
    the table and stored back at commit, so an error anywhere before that rolls back.

    The parameter `fault` is the number of statements (commit included) that the database
    still serves; the statement after those fails. */
module SlotRepo {
  import opened Wrappers
  import opened SlotTable
  import opened Database

  datatype ReserveError = BadCount | NoFreeSlots(have: nat, need: nat) | DbDown

  datatype SyncResult = SyncUnchanged | SyncReplaced | SyncDegraded | SyncFailed

  ghost predicate Distinct(s: seq<SlotId>) {
    forall j, k :: 0 <= j < k < |s| ==> s[j] != s[k]
  }

  function Ids(s: seq<SlotId>): set<SlotId> {
    set i | i in s
  }

  // Every row named by res is there and still reserved, and none is named twice.
  ghost predicate Bindable(t: Table, res: seq<SlotId>) {
    && Distinct(res)
    && forall i :: i in res ==> i in t && t[i].status.Reserved?
  }

  // The rows picked so far are a correct choice whatever is still to come: none of the rows
  // left precedes one of them.
  ghost predicate PickedSoFar(t: Table, all: set<SlotId>, picked: seq<SlotId>, left: set<SlotId>)
    requires all <= t.Keys
  {
    && Distinct(picked) && |Ids(picked)| == |picked|
    && left !! Ids(picked) && left + Ids(picked) == all
    && forall a, b :: a in Ids(picked) && b in left ==> Precedes(t[a], t[b])
  }

  lemma IdsAppend(picked: seq<SlotId>, m: SlotId)
    ensures Ids(picked + [m]) == Ids(picked) + {m}
  {}

  lemma PickOne(t: Table, all: set<SlotId>, picked: seq<SlotId>, left: set<SlotId>, m: SlotId)
    requires all <= t.Keys && PickedSoFar(t, all, picked, left)
    requires m in left && forall i :: i in left ==> Precedes(t[m], t[i])
    ensures PickedSoFar(t, all, picked + [m], left - {m})
  {
    IdsAppend(picked, m);
    assert m !in Ids(picked);
    assert |Ids(picked) + {m}| == |picked| + 1;
    forall j | 0 <= j < |picked| ensures picked[j] != m {
      assert picked[j] in Ids(picked);
    }
  }

  lemma PickedEnough(t: Table, node: NodeId, size: int, count: nat, picked: seq<SlotId>, left: set<SlotId>)
    requires PickedSoFar(t, Candidates(t, node, size), picked, left)
    requires |picked| == count || (|picked| < count && left == {})
    ensures Picked(t, node, size, count, Ids(picked))
  {
    var all := Candidates(t, node, size);
    assert all - Ids(picked) == left;
    assert |all| == |left| + |Ids(picked)|;
  }

  lemma PickedInOrder(t: Table, node: NodeId, size: int, count: nat, picked: seq<SlotId>)
    requires Picked(t, node, size, count, Ids(picked))
    ensures forall a :: a in picked ==> a in t && t[a].node == node && t[a].gpuCount == size && t[a].status == Free
    ensures forall a, b :: a in picked && Left(t, node, size, picked, b) ==> Precedes(t[a], t[b])
  {
    forall a | a in picked ensures a in t && Eligible(t[a], node, size) {
      assert a in Ids(picked);
      assert a in Candidates(t, node, size);
    }
    forall a, b | a in picked && Left(t, node, size, picked, b) ensures Precedes(t[a], t[b]) {
      assert a in Ids(picked) && b in Candidates(t, node, size) - Ids(picked);
    }
  }

  lemma NonFreeIff(t: Table, node: NodeId)
    ensures |NonFree(t, node)| > 0 <==> exists i :: i in t && t[i].node == node && t[i].status != Free
  {
    if |NonFree(t, node)| > 0 {
      var i :| i in NonFree(t, node);
    }
    if i :| i in t && t[i].node == node && t[i].status != Free {
      assert i in NonFree(t, node);
    }
  }

  // A free row of the wanted size that was not taken.
  predicate Left(t: Table, node: NodeId, size: int, picked: seq<SlotId>, b: SlotId) {
    b in t && t[b].node == node && t[b].gpuCount == size && t[b].status == Free && b !in picked
  }

  class SlotRepo {
    const db: Database

    constructor (db: Database)
      ensures this.db == db
    {
      this.db := db;
    }

    // The row the ORDER BY puts first.
    method First(t: Table, ids: set<SlotId>) returns (m: SlotId)
      requires ids != {} && ids <= t.Keys
      ensures m in ids
      ensures forall i :: i in ids ==> Precedes(t[m], t[i])
    {
      m :| m in ids;
      BeforeIsOrder(t[m], t[m], t[m]);
      var rest := ids - {m};
      while rest != {}
        invariant rest <= ids && m in ids
        invariant forall i :: i in ids - rest ==> !Before(t[i], t[m])
        decreases rest
      {
        var x :| x in rest;
        rest := rest - {x};
        if Before(t[x], t[m]) {
          forall i | i in ids - rest ensures !Before(t[i], t[x]) {
            BeforeIsOrder(t[i], t[x], t[m]);
            BeforeIsOrder(t[x], t[i], t[x]);
          }
          m := x;
        }
      }
      forall i | i in ids ensures Precedes(t[m], t[i]) {
        BeforeIff(t[m], t[i]);
      }
    }

    // The picked CTE: takes the first remaining row until `count` are taken or none is left.
    method PickFree(t: Table, node: NodeId, size: int, count: nat) returns (picked: seq<SlotId>)
      ensures Distinct(picked) && |Ids(picked)| == |picked|
      ensures Picked(t, node, size, count, Ids(picked))
      ensures forall a :: a in picked ==> a in t && t[a].node == node && t[a].gpuCount == size && t[a].status == Free
      ensures forall a, b :: a in picked && Left(t, node, size, picked, b) ==>
                && (t[a].domain == "" ==> t[b].domain == "")
                && (t[a].domain != "" && t[b].domain != "" ==> !Smaller(t[b].domain, t[a].domain))
                && (t[a].domain == t[b].domain ==> t[a].index <= t[b].index)
    {
      var left := Candidates(t, node, size);
      picked := [];
      ghost var all := left;
      while |picked| < count && left != {}
        invariant |picked| <= count && PickedSoFar(t, all, picked, left)
        decreases left
      {
        var m := First(t, left);
        PickOne(t, all, picked, left, m);
        picked, left := picked + [m], left - {m};
      }
      PickedEnough(t, node, size, count, picked, left);
      PickedInOrder(t, node, size, count, picked);
    }

    /** Exact: with a live database it succeeds if and only if `count` eligible slots
        exist, takes a correct choice of exactly that many, and otherwise changes
        nothing. */
    method Reserve(node: NodeId, size: int, count: int, fault: nat) returns (r: Result<seq<SlotId>, ReserveError>)
      modifies db`slots
      ensures count <= 0 ==> r == Err(BadCount)
      ensures count > 0 && fault < 3 && |Candidates(old(db.slots), node, size)| >= count ==> r == Err(DbDown)
      ensures count > 0 && fault >= 2 && |Candidates(old(db.slots), node, size)| < count
              ==> r == Err(NoFreeSlots(|Candidates(old(db.slots), node, size)|, count))
      ensures r.Ok? <==> count > 0 && fault >= 3 && |Candidates(old(db.slots), node, size)| >= count
      ensures r.Ok? ==> Distinct(r.value) && |r.value| == count
                        && Picked(old(db.slots), node, size, count, Ids(r.value))
                        && db.slots == SetReserved(old(db.slots), Ids(r.value))
      ensures r.Ok? ==> forall a, b :: a in r.value && Left(old(db.slots), node, size, r.value, b) ==>
                a in old(db.slots) && var x, y := old(db.slots)[a], old(db.slots)[b];
                && (x.domain == "" ==> y.domain == "")
                && (x.domain != "" && y.domain != "" ==> !Smaller(y.domain, x.domain))
                && (x.domain == y.domain ==> x.index <= y.index)
      ensures r.Ok? ==> forall i :: i in old(db.slots) ==>
                i in db.slots && db.slots[i] == old(db.slots)[i].(status := if i in r.value then Reserved else old(db.slots)[i].status)
      ensures r.Err? ==> db.slots == old(db.slots)
    {
      if count <= 0 { return Err(BadCount); }
      if fault < 2 { return Err(DbDown); }
      var picked := PickFree(db.slots, node, size, count);
      if |picked| < count { return Err(NoFreeSlots(|picked|, count)); }
      if fault < 3 { return Err(DbDown); }
      db.slots := SetReserved(db.slots, Ids(picked));
      return Ok(picked);
    }

    /** All or nothing: every slot of the reservation becomes in_use by inst, or the table
        is untouched. The foreign key needs the instance row to exist. */
    method BindToInstance(res: seq<SlotId>, inst: InstanceId, fault: nat) returns (ok: bool)
      modifies db`slots
      ensures ok <==> fault > |res| && Bindable(old(db.slots), res) && (res != [] ==> inst in db.instances.rows)
      ensures db.slots == if ok then SetInUse(old(db.slots), Ids(res), inst) else old(db.slots)
      ensures ok ==> forall i :: i in res ==>
                i in old(db.slots) && old(db.slots)[i].status == Reserved
                && db.slots[i] == old(db.slots)[i].(status := InUse, holder := Some(inst))
      ensures ok ==> db.slots.Keys == old(db.slots).Keys && forall i :: i in db.slots && i !in res ==> db.slots[i] == old(db.slots)[i]
    {
      var t := db.slots;
      var work := t;
      for k := 0 to |res|
        invariant fault >= k && (k > 0 ==> inst in db.instances.rows)
        invariant Bindable(t, res[..k])
        invariant work == SetInUse(t, Ids(res[..k]), inst)
        invariant db.slots == t
      {
        assert res[..k + 1] == res[..k] + [res[k]];
        if fault == k || res[k] !in work || !work[res[k]].status.Reserved? || inst !in db.instances.rows {
          assert res[k] in res[..k] ==> exists j :: 0 <= j < k && res[j] == res[k];
          return false;
        }
        work := work[res[k] := work[res[k]].(status := InUse, holder := Some(inst))];
      }
      assert res[..|res|] == res;
      if fault == |res| { return false; }
      db.slots := work;
      return true;
    }

    /** Frees the slots of the reservation that are still reserved; a bound one is left
        alone. */
    method ReleaseReserved(res: seq<SlotId>, fault: nat) returns (ok: bool)
      modifies db`slots
      ensures ok <==> res == [] || fault > 0
      ensures db.slots == if ok then SlotTable.ReleaseReserved(old(db.slots), Ids(res)) else old(db.slots)
      ensures ok ==> db.slots.Keys == old(db.slots).Keys && forall i :: i in db.slots ==>
                db.slots[i] == if i in res && old(db.slots)[i].status == Reserved
                               then old(db.slots)[i].(status := Free, holder := None) else old(db.slots)[i]
    {
      if |res| == 0 {
        assert SlotTable.ReleaseReserved(db.slots, Ids(res)) == db.slots;
        return true;
      }
      if fault == 0 { return false; }
      db.slots := SlotTable.ReleaseReserved(db.slots, Ids(res));
      return true;
    }

    method ReleaseForInstance(inst: InstanceId, fault: nat) returns (r: Option<nat>)
      modifies db`slots
      ensures r == if fault > 0 then Some(|HeldBy(old(db.slots), inst)|) else None
      ensures db.slots == if fault > 0 then ReleaseHolder(old(db.slots), inst) else old(db.slots)
      ensures fault > 0 ==> db.slots.Keys == old(db.slots).Keys && forall i :: i in db.slots ==>
                db.slots[i] == if old(db.slots)[i].holder == Some(inst)
                               then old(db.slots)[i].(status := Free, holder := None) else old(db.slots)[i]
    {
      if fault == 0 { return None; }
      r := Some(|HeldBy(db.slots, inst)|);
      db.slots := ReleaseHolder(db.slots, inst);
    }

    method RecoverOrphanReservations(fault: nat) returns (ok: bool)
      modifies db`slots
      ensures ok <==> fault > 0
      ensures db.slots == if ok then ReleaseOrphans(old(db.slots)) else old(db.slots)
    {
      if fault == 0 { return false; }
      db.slots := ReleaseOrphans(db.slots);
      return true;
    }

    // One INSERT per spec; stops at the first one a constraint or the connection refuses.
    method InsertSlots(base: Table, node: NodeId, first: SlotId, specs: seq<Spec>, fault: nat) returns (r: Option<Table>)
      requires forall i :: i in base ==> i < first && base[i].node != node
      ensures r == if GoodSpecs(specs) && fault >= |specs| then Some(InsertAll(base, node, first, specs)) else None
    {
      var work := base;
      for k := 0 to |specs|
        invariant GoodPrefix(specs, k) && fault >= k
        invariant work == InsertSome(base, node, first, specs, k)
      {
        InsertNext(base, node, first, specs, k);
        GoodNext(specs, k);
        if fault == k || specs[k].gpuCount <= 0 || Taken(work, node, specs[k].index) { return None; }
        work := work[first + k := NewSlot(node, specs[k])];
      }
      return Some(work);
    }

    /** Replaces the node's slots by the reported ones in one transaction, and only when
        every slot of the node is free; a matching hash or any non-free slot leaves the
        table alone, and so does any failing insert. */
    method SyncFromProfile(node: NodeId, hash: string, specs: seq<Spec>, fault: nat) returns (r: SyncResult)
      requires forall i :: i in db.slots ==> i < db.nextSlot
      modifies db`slots, db`nextSlot, db`hashes
      ensures r == SyncReplaced <==>
              && node in old(db.hashes) && !(old(db.hashes)[node] == hash && hash != "")
              && (forall i :: i in old(db.slots) && old(db.slots)[i].node == node ==> old(db.slots)[i].status == Free)
              && (forall k :: 0 <= k < |specs| ==> specs[k].gpuCount > 0)
              && (forall j, k :: 0 <= j < k < |specs| ==> specs[j].index != specs[k].index)
              && fault >= |specs| + 5
      ensures r == SyncReplaced ==>
                && db.slots == InsertAll(DropNode(old(db.slots), node), node, old(db.nextSlot), specs)
                && db.nextSlot == old(db.nextSlot) + |specs|
                && db.hashes == old(db.hashes)[node := hash]
      ensures r == SyncReplaced ==> Replaced(old(db.slots), db.slots, node, old(db.nextSlot), specs)
      ensures r != SyncReplaced ==> db.slots == old(db.slots) && db.nextSlot == old(db.nextSlot) && db.hashes == old(db.hashes)
      ensures r == SyncUnchanged <==> fault >= 1 && node in old(db.hashes) && old(db.hashes)[node] == hash && hash != ""
      ensures r == SyncDegraded <==>
              && fault >= 2 && node in old(db.hashes) && !(old(db.hashes)[node] == hash && hash != "")
              && exists i :: i in old(db.slots) && old(db.slots)[i].node == node && old(db.slots)[i].status != Free
      ensures forall i :: i in db.slots ==> i < db.nextSlot
    {
      NonFreeIff(db.slots, node);
      if fault == 0 || node !in db.hashes { return SyncFailed; }
      if db.hashes[node] == hash && hash != "" { return SyncUnchanged; }
      if fault == 1 { return SyncFailed; }
      if |NonFree(db.slots, node)| > 0 { return SyncDegraded; }
      if fault == 2 { return SyncFailed; }
      var work := InsertSlots(DropNode(db.slots, node), node, db.nextSlot, specs, fault - 3);
      if work.None? || fault < |specs| + 5 { return SyncFailed; }
      InsertedReplace(db.slots, node, db.nextSlot, specs);
      db.slots, db.nextSlot := work.value, db.nextSlot + |specs|;
      db.hashes := db.hashes[node := hash];
      return SyncReplaced;
    }
  }
}
