/** The tables the control plane writes, as one mutable object. */
module Database {
  import opened Wrappers
  import SlotTable
  import InstanceTable

  class Database {
    var slots: SlotTable.Table
    var nextSlot: SlotId                 // next value of gen_random_uuid() for gpu_slots
    var hashes: map<NodeId, string>      // nodes.profile_hash, one entry per node row
    var users: set<UserId>               // one element per user row
    var instances: InstanceTable.Tables
    var nextInstance: InstanceId         // next value of gen_random_uuid() for instances

    constructor ()
      ensures slots == map[] && hashes == map[] && users == {}
      ensures instances == InstanceTable.Tables(map[], [])
    {
      slots, nextSlot := map[], 0;
      hashes, users := map[], {};
      instances, nextInstance := InstanceTable.Tables(map[], []), 0;
    }
  }
}
