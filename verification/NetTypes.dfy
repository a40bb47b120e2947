/** Identities and result wrappers shared by every component. */
module NetTypes {

  /** The largest value of a wide counter; counters never wrap, they are exhausted. */
  const U64_MAX: nat := 0xFFFF_FFFF_FFFF_FFFF

  datatype Option<+T> = None | Some(value: T)

  datatype Result<+T, +E> = Ok(value: T) | Err(error: E)

  /** The outcome of an operation whose success carries no value. */
  datatype Outcome<+E> = Done | Failed(error: E)

  datatype EntityId = EntityId(index: nat, generation: nat)

  function Min(a: int, b: int): int {
    if a <= b then a else b
  }

  function Max(a: int, b: int): int {
    if a <= b then b else a
  }

  /** `u64::saturating_add`. */
  function SaturatingAdd(a: nat, b: nat): nat {
    if a + b <= U64_MAX then a + b else U64_MAX
  }

  /** `saturating_sub` on any unsigned quantity. */
  function SaturatingSub(a: nat, b: nat): nat {
    if b <= a then a - b else 0
  }
}
