/** Value types shared by the models: optional values, outcomes that carry an
    error, Go's unsigned 64-bit integers and the window of a log that a bounded
    history keeps. */
module Common {

  datatype Option<+T> = None | Some(value: T)

  datatype Result<+T, +E> = Ok(value: T) | Err(error: E)

  const UINT64_LIMIT: nat := 0x1_0000_0000_0000_0000

  type uint64 = n: nat | n < UINT64_LIMIT

  /** Go's `n + 1` on `uint64`, which wraps. */
  function Increment(n: uint64): uint64 {
    (n + 1) % UINT64_LIMIT
  }

  /** The last `n` elements of `s`, or all of `s` when it is shorter. */
  function LastN<T>(s: seq<T>, n: nat): seq<T> {
    if |s| <= n then s else s[|s| - n..]
  }
}
