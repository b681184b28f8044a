/** Shared value types. */
module Wrappers {

  datatype Option<+T> = None | Some(value: T)

  datatype Result<+T, +E> = Ok(value: T) | Err(error: E)

  // Row identifiers are UUIDs in the database. They are only ever compared for
  // equality, so they are modelled as numbers handed out by a counter: a fresh
  // number plays the part of gen_random_uuid().
  type NodeId = nat
  type SlotId = nat
  type InstanceId = nat
  type UserId = nat
}
