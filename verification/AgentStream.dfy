/** grpc/agent_stream.go: what main-api does with an agent's report, with a node that went
    silent, and (api/admin_instances.go) with a delete request. */
module AgentStream {
  import opened Wrappers
  import opened Lifecycle
  import opened SlotTable
  import opened Database
  import I = InstanceTable
  import S = SlotRepo
  import N = InstanceRepo

  // The wire enum; Unspecified stands for every value mapInstanceState does not know.
  datatype WireState = WProvisioning | WRunning | WStopping | WStopped | WFailed | Unspecified

  function MapInstanceState(w: WireState): Option<State> {
    match w
    case WProvisioning => Some(Provisioning)
    case WRunning => Some(Running)
    case WStopping => Some(Stopping)
    case WStopped => Some(Stopped)
    case WFailed => Some(Failed)
    case Unspecified => None
  }

  function ReportOptions(ip: Option<string>, error: string): I.Options {
    I.Options("agent_report", error, ip, false)
  }

  const OFFLINE := I.Options("node_offline", "agent heartbeat timed out; node marked offline", None, false)

  const DELETED := I.Options("admin_delete", "", None, false)

  // What the dispatcher answers: an agent that is not connected is no error to Delete.
  datatype Sending = Delivered | NotConnected | SendFailed

  // Asked: 202, the destroy was delivered or there is no agent; Undelivered: 502.
  datatype DeleteResult = NotFound | Removed | Asked | Undelivered | Broken

  // ListNonTerminalInstancesForNode: 'stopping' is not in the list.
  function Reapable(d: I.Tables, node: NodeId): set<InstanceId> {
    set i | i in d.rows && d.rows[i].node == node
            && (d.rows[i].state.Pending? || d.rows[i].state.Provisioning? || d.rows[i].state.Running?)
  }

  // A row in one of the states `from` moves to `to`, with a new address or error if there is
  // one; any other row stays as it is.
  ghost predicate Moves(x: I.Row, y: I.Row, from: set<State>, to: State, ip: Option<string>, error: string) {
    y == if x.state in from
         then x.(state := to, ip := if ip.Some? then ip else x.ip, errorMessage := if error != "" then error else x.errorMessage)
         else x
  }

  // Frees what the instance holds and changes no other row.
  ghost predicate Frees(t: Table, t': Table, id: InstanceId) {
    && t'.Keys == t.Keys
    && forall k :: k in t ==> t'[k] == if t[k].holder == Some(id) then t[k].(status := Free, holder := None) else t[k]
  }

  class AgentStreamService {
    const db: Database
    const slots: S.SlotRepo
    const instances: N.InstanceRepo

    constructor (db: Database)
      ensures this.db == db && slots.db == db && instances.db == db
    {
      this.db := db;
      slots := new S.SlotRepo(db);
      instances := new N.InstanceRepo(db);
    }

    /** A report moves the row exactly when the machine allows it. A terminal report frees
        the instance's slots whether or not the row moved; an unknown state, a missing row
        or a failing transaction frees nothing. */
    method ApplyInstanceStatus(id: InstanceId, w: WireState, ip: Option<string>, error: string, mark: nat, free: nat)
      returns (ok: bool)
      requires slots.db == db && instances.db == db && I.Replays(db.instances)
      modifies db`slots, db`instances
      ensures ok <==> (
                MapInstanceState(w).Some?
                && match I.Verdict(old(db.instances), id, MapInstanceState(w).value, ReportOptions(ip, error))
                   case Updated => mark >= 4
                   case Rejected => mark >= 1
                   case NotFound => false)
      ensures db.instances == if MapInstanceState(w).Some? && mark >= 4
                then I.Transition(old(db.instances), id, MapInstanceState(w).value, ReportOptions(ip, error))
                else old(db.instances)
      ensures db.slots == if ok && IsTerminal(MapInstanceState(w).value) && free > 0
                then ReleaseHolder(old(db.slots), id)
                else old(db.slots)
      ensures mark >= 4 && id in old(db.instances.rows) ==>
                && db.instances.rows.Keys == old(db.instances.rows).Keys
                && (forall i :: i in db.instances.rows && i != id ==> db.instances.rows[i] == old(db.instances.rows)[i])
                && Heard(w, old(db.instances.rows)[id], db.instances.rows[id], ip, error)
      ensures mark >= 4 && free > 0 && id in old(db.instances.rows) && (w == WStopped || w == WFailed) ==>
                ok && Frees(old(db.slots), db.slots, id)
      ensures db.instances.events != old(db.instances.events) ==>
                id in old(db.instances.rows) && id in db.instances.rows
                && db.instances.events == old(db.instances.events)
                   + [I.Event(id, Some(old(db.instances.rows)[id].state), db.instances.rows[id].state, "agent_report")]
      ensures w == WProvisioning || w == WRunning || w == WStopping || w == Unspecified ==> db.slots == old(db.slots)
      ensures w == Unspecified || id !in old(db.instances.rows) ==>
                !ok && db.instances == old(db.instances) && db.slots == old(db.slots)
      ensures I.Replays(db.instances)
    {
      var to := MapInstanceState(w);
      if to.None? { return false; }
      if id in db.instances.rows {
        HeardRow(db.instances, id, w, ip, error);
      }
      var r := instances.Transition(id, to.value, ReportOptions(ip, error), mark);
      if r.Err? && !r.error.InvalidTransition? { return false; }
      if IsTerminal(to.value) {
        var _ := slots.ReleaseForInstance(id, free);
      }
      return true;
    }

    /** Fails every pending, provisioning or running instance of the node and frees its
        slots; errors are per instance, and nothing else changes. When the instances could
        not be listed, nobody is reaped. */
    method Reap(node: NodeId, listed: bool, mark: InstanceId -> nat, free: InstanceId -> nat)
      requires slots.db == db && instances.db == db && I.Replays(db.instances)
      modifies db`slots, db`instances
      ensures !listed ==> db.instances == old(db.instances) && db.slots == old(db.slots)
      ensures listed ==> db.instances.rows.Keys == old(db.instances.rows).Keys && forall i :: i in db.instances.rows ==>
                var x := old(db.instances.rows)[i];
                db.instances.rows[i] == if x.node == node && x.state in {Pending, Provisioning, Running} && mark(i) >= 4
                  then x.(state := Failed, errorMessage := "agent heartbeat timed out; node marked offline") else x
      ensures listed ==> db.slots.Keys == old(db.slots).Keys && forall k :: k in db.slots ==>
                var t, rows := old(db.slots)[k], old(db.instances.rows);
                db.slots[k] == if t.holder.Some? && t.holder.value in rows && rows[t.holder.value].node == node
                                  && rows[t.holder.value].state in {Pending, Provisioning, Running}
                                  && mark(t.holder.value) >= 4 && free(t.holder.value) > 0
                  then t.(status := Free, holder := None) else t
      ensures I.Replays(db.instances)
    {
      if !listed { return; }
      ghost var d, t := db.instances, db.slots;
      ReapedRows(d, node, mark);
      ReapedSlots(d, t, node, mark, free);
      ReapAll(node, Reapable(db.instances, node), mark, free);
    }

    // The loop over the listed instances.
    method ReapAll(ghost node: NodeId, ids: set<InstanceId>, mark: InstanceId -> nat, free: InstanceId -> nat)
      requires slots.db == db && instances.db == db && I.Replays(db.instances) && ids == Reapable(db.instances, node)
      modifies db`slots, db`instances
      ensures db.instances.rows == FailedFor(old(db.instances.rows), ids, mark)
      ensures db.slots == FreedFor(old(db.slots), ids, mark, free)
      ensures I.Replays(db.instances)
    {
      ghost var d, t := db.instances, db.slots;
      var todo := ids;
      ghost var done: set<InstanceId> := {};
      while todo != {}
        invariant todo !! done && todo + done == Reapable(d, node)
        invariant I.Replays(db.instances) && db.instances.rows == FailedFor(d.rows, done, mark)
        invariant db.slots == FreedFor(t, done, mark, free)
        decreases todo
      {
        var id :| id in todo;
        FailedNext(d.rows, done, mark, id);
        FreedNext(t, done, mark, free, id);
        todo, done := todo - {id}, done + {id};
        ReapOne(id, mark(id), free(id));
      }
    }

    // The loop body: fail the instance, and unless that broke, free its slots.
    method ReapOne(id: InstanceId, mark: nat, free: nat)
      requires slots.db == db && instances.db == db && I.Replays(db.instances)
      requires id in db.instances.rows && !IsTerminal(db.instances.rows[id].state)
      modifies db`slots, db`instances
      ensures db.instances.rows == if mark >= 4 then old(db.instances.rows)[id := I.Touched(old(db.instances.rows)[id], Failed, OFFLINE)]
                                   else old(db.instances.rows)
      ensures mark >= 4 ==>
                db.instances.events == old(db.instances.events) + [I.Event(id, Some(old(db.instances.rows)[id].state), Failed, "node_offline")]
      ensures db.slots == if mark >= 4 && free > 0 then ReleaseHolder(old(db.slots), id) else old(db.slots)
      ensures I.Replays(db.instances)
    {
      assert CanTransition(db.instances.rows[id].state, Failed);
      var r := instances.Transition(id, Failed, OFFLINE, mark);
      if r.Ok? || r.error.InvalidTransition? {
        var _ := slots.ReleaseForInstance(id, free);
      }
    }

    /** DELETE of an instance. A terminal row is released and removed: run with a live
        database that strands no slot. Any other row is asked to stop: the row moves if the
        machine allows it, a destroy goes to the agent unless the transition broke, and a
        dispatcher that fails it is answered by an error that leaves the row moved. */
    method Delete(id: InstanceId, load: nat, mark: nat, send: Sending, free: nat, remove: nat) returns (r: DeleteResult, sent: bool)
      requires slots.db == db && instances.db == db && I.Replays(db.instances)
      modifies db`slots, db`instances
      ensures r == NotFound <==> load == 0 || id !in old(db.instances.rows)
      ensures sent ==> r != NotFound && !IsTerminal(old(db.instances.rows)[id].state)
      ensures r == NotFound ==> db.slots == old(db.slots) && db.instances == old(db.instances)
      ensures r != NotFound && IsTerminal(old(db.instances.rows)[id].state) ==> (
                && r == (if remove > 0 then Removed else Broken)
                && db.instances == (if remove > 0 then I.Delete(old(db.instances), id) else old(db.instances))
                && var t := if free > 0 then ReleaseHolder(old(db.slots), id) else old(db.slots);
                   db.slots == if remove > 0 then ClearHolder(t, id) else t)
      ensures free > 0 ==> ClearHolder(ReleaseHolder(old(db.slots), id), id) == ReleaseHolder(old(db.slots), id)
      ensures r != NotFound && !IsTerminal(old(db.instances.rows)[id].state) ==> (
                && sent == (mark >= if CanTransition(old(db.instances.rows)[id].state, Stopping) then 4 else 1)
                && r == (if !sent then Broken else if send.SendFailed? then Undelivered else Asked)
                && db.instances == (if mark >= 4 then I.Transition(old(db.instances), id, Stopping, DELETED) else old(db.instances))
                && db.slots == old(db.slots))
      ensures r != NotFound && mark >= 4 ==> (
                var st := old(db.instances.rows)[id].state;
                st != Stopped && st != Failed ==>
                  && sent && id in db.instances.rows
                  && Moves(old(db.instances.rows)[id], db.instances.rows[id], {Provisioning, Running, Stopping}, Stopping, None, ""))
      ensures sent && db.instances.events != old(db.instances.events) ==>
                db.instances.events == old(db.instances.events)
                                       + [I.Event(id, Some(old(db.instances.rows)[id].state), Stopping, "admin_delete")]
      ensures r == Removed ==> old(db.instances.rows)[id].state in {Stopped, Failed} && db.instances.rows == old(db.instances.rows) - {id}
      ensures r == Removed && free > 0 ==> Frees(old(db.slots), db.slots, id)
      ensures I.Replays(db.instances)
    {
      if load == 0 || id !in db.instances.rows { return NotFound, false; }
      if IsTerminal(db.instances.rows[id].state) {
        var _ := slots.ReleaseForInstance(id, free);
        var removed := instances.Remove(id, remove);
        return if removed then Removed else Broken, false;
      }
      var moved := instances.Transition(id, Stopping, DELETED, mark);
      if moved.Err? && !moved.error.InvalidTransition? { return Broken, false; }
      return if send.SendFailed? then Undelivered else Asked, true;
    }
  }

  // What a report makes of the row it is about, state by state.
  ghost predicate Heard(w: WireState, x: I.Row, y: I.Row, ip: Option<string>, error: string) {
    match w
    case WProvisioning => Moves(x, y, {Pending, Provisioning}, Provisioning, ip, error)
    case WRunning => Moves(x, y, {Provisioning, Running}, Running, ip, error)
    case WStopping => Moves(x, y, {Provisioning, Running, Stopping}, Stopping, ip, error)
    case WStopped => Moves(x, y, {Pending, Stopping, Stopped}, Stopped, ip, error)
    case WFailed => Moves(x, y, {Pending, Provisioning, Running, Stopping, Failed}, Failed, ip, error)
    case Unspecified => y == x
  }

  lemma HeardRow(d: I.Tables, id: InstanceId, w: WireState, ip: Option<string>, error: string)
    requires id in d.rows && MapInstanceState(w).Some?
    ensures var d' := I.Transition(d, id, MapInstanceState(w).value, ReportOptions(ip, error));
            && d'.rows.Keys == d.rows.Keys && (forall i :: i in d.rows && i != id ==> d'.rows[i] == d.rows[i])
            && Heard(w, d.rows[id], d'.rows[id], ip, error)
  {
    WhatFollows(d.rows[id].state, MapInstanceState(w).value);
  }

  lemma ReapedRows(d: I.Tables, node: NodeId, mark: InstanceId -> nat)
    ensures var rows := FailedFor(d.rows, Reapable(d, node), mark);
            && rows.Keys == d.rows.Keys
            && forall i :: i in d.rows ==>
                 rows[i] == if i in Reapable(d, node) && mark(i) >= 4
                            then d.rows[i].(state := Failed, errorMessage := "agent heartbeat timed out; node marked offline")
                            else d.rows[i]
  {
  }

  lemma ReapedSlots(d: I.Tables, t: Table, node: NodeId, mark: InstanceId -> nat, free: InstanceId -> nat)
    ensures var t' := FreedFor(t, Reapable(d, node), mark, free);
            && t'.Keys == t.Keys
            && forall k :: k in t ==>
                 t'[k] == if t[k].holder.Some? && t[k].holder.value in Reapable(d, node)
                             && mark(t[k].holder.value) >= 4 && free(t[k].holder.value) > 0
                          then t[k].(status := Free, holder := None) else t[k]
  {
  }

  // The rows after failing the instances in `ids` whose transaction went through.
  function FailedFor(rows: map<InstanceId, I.Row>, ids: set<InstanceId>, mark: InstanceId -> nat): map<InstanceId, I.Row> {
    map i | i in rows :: if i in ids && mark(i) >= 4 then I.Touched(rows[i], Failed, OFFLINE) else rows[i]
  }

  // The slots after freeing what the failed instances in `ids` held.
  function FreedFor(t: Table, ids: set<InstanceId>, mark: InstanceId -> nat, free: InstanceId -> nat): Table {
    map k | k in t ::
      if t[k].holder.Some? && t[k].holder.value in ids && mark(t[k].holder.value) >= 4 && free(t[k].holder.value) > 0
      then Freed(t[k]) else t[k]
  }

  lemma FailedNext(rows: map<InstanceId, I.Row>, ids: set<InstanceId>, mark: InstanceId -> nat, id: InstanceId)
    requires id in rows && id !in ids
    ensures FailedFor(rows, ids, mark)[id] == rows[id]
    ensures FailedFor(rows, ids + {id}, mark) ==
            if mark(id) >= 4 then FailedFor(rows, ids, mark)[id := I.Touched(rows[id], Failed, OFFLINE)] else FailedFor(rows, ids, mark)
  {
  }

  lemma FreedNext(t: Table, ids: set<InstanceId>, mark: InstanceId -> nat, free: InstanceId -> nat, id: InstanceId)
    ensures FreedFor(t, ids + {id}, mark, free) ==
            if mark(id) >= 4 && free(id) > 0 then ReleaseHolder(FreedFor(t, ids, mark, free), id) else FreedFor(t, ids, mark, free)
  {
  }
}
