/** The gpu_slots table and the meaning of each statement that touches it
    (dbstore/slots.sql.go). Every function here is one SQL statement. */
module SlotTable {
  import opened Wrappers

  // The schema also knows 'draining', which no statement of the program ever writes.
  datatype Status = Free | Reserved | InUse

  datatype Slot = Slot(
    node: NodeId,
    index: int,
    gpuCount: int,
    gpus: seq<int>,
    domain: string,
    status: Status,
    holder: Option<InstanceId>)

  type Table = map<SlotId, Slot>

  // What an agent reports for one slot (slot.ProfileSlot).
  datatype Spec = Spec(index: int, gpuCount: int, gpus: seq<int>, domain: string)

  // ---- the order of ReserveFreeSlots: NVLink first, then domain, then slot index ----

  predicate StringLess(a: string, b: string) {
    if b == [] then false
    else if a == [] then true
    else a[0] < b[0] || (a[0] == b[0] && StringLess(a[1..], b[1..]))
  }

  function Plain(s: Slot): int {
    if s.domain != "" then 0 else 1
  }

  predicate Before(a: Slot, b: Slot) {
    || Plain(a) < Plain(b)
    || (Plain(a) == Plain(b) && StringLess(a.domain, b.domain))
    || (Plain(a) == Plain(b) && a.domain == b.domain && a.index < b.index)
  }

  lemma {:induction false} StringOrder(a: string, b: string, c: string)
    ensures StringLess(a, b) && StringLess(b, c) ==> StringLess(a, c)
    ensures !StringLess(a, a)
    ensures StringLess(a, b) || StringLess(b, a) || a == b
    ensures !(StringLess(a, b) && StringLess(b, a))
  {
    if a != [] {
      if b != [] {
        StringOrder(a[1..], b[1..], if c == [] then [] else c[1..]);
        if a[0] == b[0] && a[1..] == b[1..] {
          assert a == [a[0]] + a[1..] && b == [b[0]] + b[1..];
        }
      } else {
        StringOrder(a[1..], [], []);
      }
    }
  }

  /** Before is a strict order, and two slots of one node it cannot separate have the
      same index. */
  lemma BeforeIsOrder(a: Slot, b: Slot, c: Slot)
    ensures Before(a, b) && Before(b, c) ==> Before(a, c)
    ensures !Before(a, a)
    ensures !Before(a, b) && !Before(b, a) ==> a.index == b.index
  {
    StringOrder(a.domain, b.domain, c.domain);
  }

  // a is smaller than b: a proper prefix of it, or smaller where they first differ.
  predicate Smaller(a: string, b: string) {
    exists k | 0 <= k <= |a| && k <= |b| :: a[..k] == b[..k] && k < |b| && (k == |a| || a[k] < b[k])
  }

  lemma {:induction false} StringLessIff(a: string, b: string)
    ensures StringLess(a, b) <==> Smaller(a, b)
  {
    if a != [] && b != [] && a[0] == b[0] {
      StringLessIff(a[1..], b[1..]);
      if k :| 0 <= k <= |a[1..]| && k <= |b[1..]| && a[1..][..k] == b[1..][..k] && k < |b[1..]| && (k == |a[1..]| || a[1..][k] < b[1..][k]) {
        assert a[..k + 1] == [a[0]] + a[1..][..k] && b[..k + 1] == [b[0]] + b[1..][..k];
        assert Smaller(a, b);
      }
      if k :| 0 <= k <= |a| && k <= |b| && a[..k] == b[..k] && k < |b| && (k == |a| || a[k] < b[k]) {
        assert k > 0;
        assert a[1..][..k - 1] == a[..k][1..] && b[1..][..k - 1] == b[..k][1..];
        assert Smaller(a[1..], b[1..]);
      }
    } else if a != [] && b != [] {
      forall k | 0 < k <= |a| && k <= |b| ensures a[..k] != b[..k] {
        assert a[..k][0] != b[..k][0];
      }
      assert a[..0] == b[..0];
    } else {
      assert a[..0] == b[..0];
    }
  }

  // Row a may be taken while row b is left: an NVLink row before a plain one, then the
  // smaller domain, then the smaller index.
  predicate Precedes(a: Slot, b: Slot) {
    && (a.domain == "" ==> b.domain == "")
    && (a.domain != "" && b.domain != "" ==> !Smaller(b.domain, a.domain))
    && (a.domain == b.domain ==> a.index <= b.index)
  }

  lemma BeforeIff(a: Slot, b: Slot)
    ensures Precedes(a, b) <==> !Before(b, a)
  {
    StringLessIff(b.domain, a.domain);
    StringOrder(b.domain, a.domain, b.domain);
  }

  // ---- statements ----

  predicate Eligible(s: Slot, node: NodeId, size: int) {
    s.node == node && s.status.Free? && s.gpuCount == size
  }

  function Candidates(t: Table, node: NodeId, size: int): set<SlotId> {
    set i | i in t && Eligible(t[i], node, size)
  }

  function Min(a: int, b: int): int {
    if a < b then a else b
  }

  /** What the picked CTE may return: at most `limit` eligible rows, and no eligible row
      left behind that the ORDER BY puts before a picked one. */
  ghost predicate Picked(t: Table, node: NodeId, size: int, limit: nat, ids: set<SlotId>) {
    && ids <= Candidates(t, node, size)
    && |ids| == Min(limit, |Candidates(t, node, size)|)
    && forall a, b :: a in ids && b in Candidates(t, node, size) - ids ==> Precedes(t[a], t[b])
  }

  function SetReserved(t: Table, ids: set<SlotId>): Table {
    map i | i in t :: if i in ids then t[i].(status := Reserved) else t[i]
  }

  function SetInUse(t: Table, ids: set<SlotId>, inst: InstanceId): Table {
    map i | i in t :: if i in ids then t[i].(status := InUse, holder := Some(inst)) else t[i]
  }

  function Freed(s: Slot): Slot {
    s.(status := Free, holder := None)
  }

  function ReleaseReserved(t: Table, ids: set<SlotId>): Table {
    map i | i in t :: if i in ids && t[i].status.Reserved? then Freed(t[i]) else t[i]
  }

  function ReleaseHolder(t: Table, inst: InstanceId): Table {
    map i | i in t :: if t[i].holder == Some(inst) then Freed(t[i]) else t[i]
  }

  function ReleaseOrphans(t: Table): Table {
    map i | i in t :: if t[i].status.Reserved? && t[i].holder.None? then Freed(t[i]) else t[i]
  }

  // The foreign key gpu_slots.current_instance_id is ON DELETE SET NULL: deleting an
  // instance row clears the holder and leaves the status alone.
  function ClearHolder(t: Table, inst: InstanceId): Table {
    map i | i in t :: if t[i].holder == Some(inst) then t[i].(holder := None) else t[i]
  }

  function DropNode(t: Table, node: NodeId): Table {
    map i | i in t && t[i].node != node :: t[i]
  }

  function NewSlot(node: NodeId, s: Spec): Slot {
    Slot(node, s.index, s.gpuCount, s.gpus, s.domain, Free, None)
  }

  function Block(first: SlotId, n: nat): (b: set<SlotId>)
    ensures forall i :: i in b <==> first <= i < first + n
  {
    if n == 0 then {} else Block(first, n - 1) + {first + n - 1}
  }

  // One INSERT for each of the first n specs; the new rows get the ids first, first + 1, ...
  function InsertSome(t: Table, node: NodeId, first: SlotId, specs: seq<Spec>, n: nat): Table
    requires n <= |specs|
  {
    t + map i | i in Block(first, n) :: NewSlot(node, specs[i - first])
  }

  function InsertAll(t: Table, node: NodeId, first: SlotId, specs: seq<Spec>): Table {
    InsertSome(t, node, first, specs, |specs|)
  }

  function NonFree(t: Table, node: NodeId): set<SlotId> {
    set i | i in t && t[i].node == node && !t[i].status.Free?
  }

  function HeldBy(t: Table, inst: InstanceId): set<SlotId> {
    set i | i in t && t[i].holder == Some(inst)
  }

  function WithStatus(t: Table, st: Status): set<SlotId> {
    set i | i in t && t[i].status == st
  }

  // unique (node_id, slot_index)
  ghost predicate UniqueIndices(t: Table) {
    forall a, b :: a in t && b in t && a != b && t[a].node == t[b].node ==> t[a].index != t[b].index
  }

  // check (gpu_count > 0) and the unique constraint, for the first n reported slots
  predicate GoodPrefix(specs: seq<Spec>, n: nat)
    requires n <= |specs|
  {
    && (forall k :: 0 <= k < n ==> specs[k].gpuCount > 0)
    && forall j, k :: 0 <= j < k < n ==> specs[j].index != specs[k].index
  }

  predicate GoodSpecs(specs: seq<Spec>) {
    GoodPrefix(specs, |specs|)
  }

  predicate Repeats(specs: seq<Spec>, n: nat, index: int)
    requires n <= |specs|
  {
    exists j :: 0 <= j < n && specs[j].index == index
  }

  // One more slot keeps a good report good exactly when its size is positive and its index new.
  lemma GoodNext(specs: seq<Spec>, k: nat)
    requires k < |specs| && GoodPrefix(specs, k)
    ensures GoodPrefix(specs, k + 1) <==>
            specs[k].gpuCount > 0 && !Repeats(specs, k, specs[k].index)
    ensures GoodSpecs(specs) ==> GoodPrefix(specs, k + 1)
  {}

  predicate Taken(t: Table, node: NodeId, index: int) {
    exists i | i in t :: t[i].node == node && t[i].index == index
  }

  // The rows of the new slots, and of no others, are the node's.
  lemma InsertedAt(base: Table, node: NodeId, first: SlotId, specs: seq<Spec>, k: nat, i: SlotId)
    requires k <= |specs| && (forall i :: i in base ==> i < first && base[i].node != node)
    requires i in InsertSome(base, node, first, specs, k)
    ensures var s := InsertSome(base, node, first, specs, k)[i];
            if i >= first then i < first + k && s == NewSlot(node, specs[i - first]) else s.node != node
  {}

  // The other nodes' rows are as before, and the node's are one free row for each spec.
  ghost predicate Replaced(t: Table, t': Table, node: NodeId, first: SlotId, specs: seq<Spec>) {
    && (forall i :: i in t' <==> (i in t && t[i].node != node) || first <= i < first + |specs|)
    && (forall i :: i in t && t[i].node != node && i in t' ==> t'[i] == t[i])
    && forall k :: 0 <= k < |specs| && first + k in t' ==>
         t'[first + k] == Slot(node, specs[k].index, specs[k].gpuCount, specs[k].gpus, specs[k].domain, Free, None)
  }

  lemma InsertedReplace(t: Table, node: NodeId, first: SlotId, specs: seq<Spec>)
    requires forall i :: i in t ==> i < first
    ensures Replaced(t, InsertAll(DropNode(t, node), node, first, specs), node, first, specs)
  {
  }

  lemma TakenIff(base: Table, node: NodeId, first: SlotId, specs: seq<Spec>, k: nat, index: int)
    requires k <= |specs| && (forall i :: i in base ==> i < first && base[i].node != node)
    ensures Taken(InsertSome(base, node, first, specs, k), node, index) <==> Repeats(specs, k, index)
  {
    var t := InsertSome(base, node, first, specs, k);
    if Repeats(specs, k, index) {
      var j :| 0 <= j < k && specs[j].index == index;
      assert first + j in t;
      InsertedAt(base, node, first, specs, k, first + j);
    }
    if i :| i in t && t[i].node == node && t[i].index == index {
      InsertedAt(base, node, first, specs, k, i);
      assert specs[i - first].index == index;
    }
  }

  lemma InsertNext(base: Table, node: NodeId, first: SlotId, specs: seq<Spec>, k: nat)
    requires k < |specs|
    requires forall i :: i in base ==> i < first && base[i].node != node
    ensures InsertSome(base, node, first, specs, k + 1)
         == InsertSome(base, node, first, specs, k)[first + k := NewSlot(node, specs[k])]
    ensures Taken(InsertSome(base, node, first, specs, k), node, specs[k].index) <==> Repeats(specs, k, specs[k].index)
  {
    TakenIff(base, node, first, specs, k, specs[k].index);
  }

  // ---- the choice is determined ----

  /** With unique slot indices the ORDER BY leaves no tie, so the reservation is a
      function of the table: exactly the first min(limit, available) eligible slots. */
  lemma PickedIsUnique(t: Table, node: NodeId, size: int, limit: nat, x: set<SlotId>, y: set<SlotId>)
    requires UniqueIndices(t)
    requires Picked(t, node, size, limit, x) && Picked(t, node, size, limit, y)
    ensures x == y
  {
    if x != y {
      if x <= y {
        ProperSubsetSmaller(x, y);
      } else if y <= x {
        ProperSubsetSmaller(y, x);
      } else {
        var a :| a in x && a !in y;
        var b :| b in y && b !in x;
        BeforeIff(t[a], t[b]);
        BeforeIff(t[b], t[a]);
        BeforeIsOrder(t[a], t[b], t[a]);
        assert false;
      }
    }
  }

  lemma ProperSubsetSmaller(x: set<SlotId>, y: set<SlotId>)
    requires x < y
    ensures |x| < |y|
  {
    assert y == x + (y - x);
  }

  // ---- N single-slot reserves ----

  // One Reserve(node, size, 1) call as a relation between tables; None means it failed.
  ghost predicate ReserveOne(t: Table, node: NodeId, size: int, got: Option<SlotId>, t': Table) {
    match got
    case Some(i) => Picked(t, node, size, 1, {i}) && t' == SetReserved(t, {i})
    case None => |Candidates(t, node, size)| < 1 && t' == t
  }

  ghost predicate ReserveRun(ts: seq<Table>, node: NodeId, size: int, got: seq<Option<SlotId>>) {
    && |ts| == |got| + 1
    && forall k :: 0 <= k < |got| ==> ReserveOne(ts[k], node, size, got[k], ts[k + 1])
  }

  // The slots won, and the number of successes, among the first n calls.
  function Winners(got: seq<Option<SlotId>>, n: nat): set<SlotId>
    requires n <= |got|
  {
    if n == 0 then {}
    else if got[n - 1].Some? then Winners(got, n - 1) + {got[n - 1].value}
    else Winners(got, n - 1)
  }

  function Successes(got: seq<Option<SlotId>>, n: nat): nat
    requires n <= |got|
  {
    if n == 0 then 0 else Successes(got, n - 1) + if got[n - 1].Some? then 1 else 0
  }

  lemma OneReserve(t: Table, node: NodeId, size: int, got: Option<SlotId>, t': Table)
    requires ReserveOne(t, node, size, got, t')
    ensures got.None? ==> Candidates(t, node, size) == {} && t' == t
    ensures got.Some? ==> got.value in Candidates(t, node, size)
    ensures got.Some? ==> Candidates(t', node, size) == Candidates(t, node, size) - {got.value}
  {
    if got.Some? {
      assert got.value in {got.value};
    }
  }

  lemma OneMoreWinner(all: set<SlotId>, left: set<SlotId>, won: set<SlotId>, n: nat, got: Option<SlotId>)
    requires won <= all && left == all - won && |won| == Min(n, |all|)
    requires if got.Some? then got.value in left else left == {}
    ensures var won' := if got.Some? then won + {got.value} else won;
            won' <= all && |won'| == Min(n + 1, |all|) == |won| + if got.Some? then 1 else 0
  {
    assert all == won + left;
    assert |all| == |won| + |left|;
  }

  // An element drawn on success, and none left on failure.
  ghost predicate Draw(before: set<SlotId>, got: Option<SlotId>, after: set<SlotId>) {
    if got.Some? then got.value in before && after == before - {got.value} else before == {} && after == before
  }

  ghost predicate Draws(cs: seq<set<SlotId>>, got: seq<Option<SlotId>>) {
    && |cs| == |got| + 1
    && forall k :: 0 <= k < |got| ==> Draw(cs[k], got[k], cs[k + 1])
  }

  lemma {:induction false} DrawsMin(cs: seq<set<SlotId>>, got: seq<Option<SlotId>>, n: nat)
    requires Draws(cs, got) && n <= |got|
    ensures |Winners(got, n)| == Successes(got, n) == Min(n, |cs[0]|)
    ensures Winners(got, n) <= cs[0] && cs[n] == cs[0] - Winners(got, n)
  {
    if n > 0 {
      DrawsMin(cs, got, n - 1);
      assert Draw(cs[n - 1], got[n - 1], cs[n]);
      OneMoreWinner(cs[0], cs[n - 1], Winners(got, n - 1), n - 1, got[n - 1]);
    }
  }

  /** N single-slot reserves against M eligible slots: exactly min(N, M) succeed, on
      pairwise distinct slots (as many winners as successes), all from the M. */
  lemma ExactlyMinSucceed(ts: seq<Table>, node: NodeId, size: int, got: seq<Option<SlotId>>)
    requires ReserveRun(ts, node, size, got)
    ensures Successes(got, |got|) == Min(|got|, |Candidates(ts[0], node, size)|)
    ensures |Winners(got, |got|)| == Successes(got, |got|)
    ensures Winners(got, |got|) <= Candidates(ts[0], node, size)
    ensures Candidates(ts[|got|], node, size) == Candidates(ts[0], node, size) - Winners(got, |got|)
  {
    var cs := seq(|ts|, k requires 0 <= k < |ts| => Candidates(ts[k], node, size));
    forall k | 0 <= k < |got| ensures Draw(cs[k], got[k], cs[k + 1]) {
      OneReserve(ts[k], node, size, got[k], ts[k + 1]);
    }
    DrawsMin(cs, got, |got|);
  }
}
