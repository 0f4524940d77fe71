/**
 * Identifiers and fixed-width integers. Ids are UUIDs compared by value; the
 * parser of their text form belongs to the `uuid` crate and is supplied as a
 * function value where the server parses one.
 */
module Ids {
  import opened Wrappers

  /** A UUID, as an opaque 128-bit value. */
  datatype Uuid = Uuid(bits: nat)

  type UserId = Uuid
  type AppId = Uuid
  type SessionId = Uuid

  /** `Uuid::from_str`: the text form of a UUID, or `None` when it is not one. */
  type UuidParser = string -> Option<Uuid>

  newtype U64 = x: int | 0 <= x < 0x1_0000_0000_0000_0000
  newtype I64 = x: int | -0x8000_0000_0000_0000 <= x < 0x8000_0000_0000_0000
}
