/** instance/repo.go: rows and audit events change together or not at all. `fault` counts
    the statements the database still serves, as in SlotRepo. */
module InstanceRepo {
  import opened Wrappers
  import opened Lifecycle
  import opened InstanceTable
  import opened Database
  import SlotTable

  datatype TransitionError = LoadFailed | InvalidTransition | DbDown

  class InstanceRepo {
    const db: Database

    constructor (db: Database)
      ensures this.db == db
    {
      this.db := db;
    }

    // What the table's checks and its foreign keys to nodes and users let in.
    predicate Admissible(in_: Input, memory: int, vcpus: int)
      reads db`hashes, db`users
    {
      && in_.gpuCount >= 0 && memory > 0 && vcpus > 0
      && in_.node in db.hashes && (in_.owner.Some? ==> in_.owner.value in db.users)
    }

    method Insert(in_: Input, memory: int, vcpus: int, fault: nat) returns (r: Option<InstanceId>)
      requires db.nextInstance !in db.instances.rows && Replays(db.instances)
      modifies db`instances, db`nextInstance
      ensures r == if fault >= 3 && Admissible(in_, memory, vcpus) then Some(old(db.nextInstance)) else None
      ensures r.Some? ==> db.instances == Create(old(db.instances), r.value, in_) && db.nextInstance == r.value + 1
      ensures r.Some? ==>
                && db.instances.rows
                   == old(db.instances.rows)[r.value := Row(in_.node, in_.owner, in_.gpuCount, in_.slotIndices, Pending, None, "")]
                && db.instances.events == old(db.instances.events) + [Event(r.value, None, Pending, "created")]
      ensures r.None? ==> db.instances == old(db.instances) && db.nextInstance == old(db.nextInstance)
      ensures Replays(db.instances)
    {
      if fault == 0 || !Admissible(in_, memory, vcpus) { return None; }
      var id := db.nextInstance;
      var rows := db.instances.rows[id := Row(in_.node, in_.owner, in_.gpuCount, in_.slotIndices, Pending, None, "")];
      if fault == 1 { return None; }
      var events := db.instances.events + [Event(id, None, Pending, "created")];
      if fault == 2 { return None; }
      CreateReplays(db.instances, id, in_);
      db.instances, db.nextInstance := Tables(rows, events), id + 1;
      return Some(id);
    }

    method Transition(id: InstanceId, to: State, opts: Options, fault: nat) returns (r: Result<Row, TransitionError>)
      requires Replays(db.instances)
      modifies db`instances
      ensures r.Ok? <==> Verdict(old(db.instances), id, to, opts).Updated? && fault >= 4
      ensures r == Err(InvalidTransition) <==> Verdict(old(db.instances), id, to, opts).Rejected? && fault >= 1
      ensures r.Ok? ==> db.instances == InstanceTable.Transition(old(db.instances), id, to, opts)
      ensures r.Ok? ==>
                && id in old(db.instances.rows) && var x := old(db.instances.rows)[id];
                && (x.state == to ==> !opts.skipIdempotent)
                && r.value == x.(state := to,
                                 ip := if opts.ip.Some? then opts.ip else x.ip,
                                 errorMessage := if opts.errorMessage != "" then opts.errorMessage else x.errorMessage)
                && db.instances.rows == old(db.instances.rows)[id := r.value]
                && db.instances.events == old(db.instances.events) + [Event(id, Some(x.state), to, opts.reason)]
      ensures r.Err? ==> db.instances == old(db.instances)
      ensures Replays(db.instances)
    {
      if fault == 0 || id !in db.instances.rows { return Err(LoadFailed); }
      var current := db.instances.rows[id];
      var from := current.state;
      if from == to && opts.skipIdempotent { return Err(InvalidTransition); }
      if !CanTransition(from, to) { return Err(InvalidTransition); }
      if fault == 1 { return Err(DbDown); }
      var updated := Touched(current, to, opts);
      if fault == 2 { return Err(DbDown); }
      var events := db.instances.events + [Event(id, Some(from), to, opts.reason)];
      if fault == 3 { return Err(DbDown); }
      TransitionReplays(db.instances, id, to, opts);
      db.instances := Tables(db.instances.rows[id := updated], events);
      return Ok(updated);
    }

    /** Removes the row. The audit rows go with it (cascade), and every slot it still
        holds loses its holder but not its status (set null). */
    method Remove(id: InstanceId, fault: nat) returns (ok: bool)
      requires Replays(db.instances)
      modifies db`instances, db`slots
      ensures ok <==> fault > 0
      ensures ok ==> db.instances == Delete(old(db.instances), id) && db.slots == SlotTable.ClearHolder(old(db.slots), id)
      ensures ok ==>
                && db.instances.rows == old(db.instances.rows) - {id}
                && db.slots.Keys == old(db.slots).Keys && forall i :: i in db.slots ==>
                     db.slots[i] == if old(db.slots)[i].holder == Some(id) then old(db.slots)[i].(holder := None) else old(db.slots)[i]
      ensures !ok ==> db.instances == old(db.instances) && db.slots == old(db.slots)
      ensures Replays(db.instances)
    {
      if fault == 0 { return false; }
      DeleteReplays(db.instances, id);
      db.instances, db.slots := Delete(db.instances, id), SlotTable.ClearHolder(db.slots, id);
      return true;
    }
  }
}
