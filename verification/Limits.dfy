/** The capacity range and the error codes that driver, contract and simulator share. */
module Limits {
  const MIN_CAPACITY := 256
  const MAX_CAPACITY := 65536

  const EAGAIN := 11
  const ENOMEM := 12
  const EFAULT := 14
  const ENODEV := 19
  const EINVAL := 22
  const EMSGSIZE := 90

  predicate CapacityValid(capacity: int) {
    MIN_CAPACITY <= capacity <= MAX_CAPACITY
  }
}
