/** Machine integers the library relies on: `size_t` is 64 bits wide. */
module SizeT {
  /** 2^64, the number of distinct `size_t` values. */
  const Size64: nat := 0x1_0000_0000_0000_0000

  /** `BasicString::nPos` (`SIZE_MAX`): "not found" and "up to the end". */
  const NPos: nat := Size64 - 1

  /** Reduces an integer to the `size_t` it becomes by wrap-around. */
  function Wrap(x: int): (r: nat)
    ensures r < Size64
    ensures 0 <= x < Size64 ==> r == x
    ensures (r - x) % Size64 == 0
  {
    x % Size64
  }

  /** `size_t - 1` at zero is `SIZE_MAX`. */
  lemma WrapBelowZero()
    ensures Wrap(-1) == NPos
  {
  }
}

/** The exceptions the library throws, as values. */
module Errors {
  datatype Error =
    | OutOfRange    // std::out_of_range
    | BadCast       // std::bad_cast
    | BadString     // std::runtime_error("Bad String")

  datatype Result<T> = Ok(value: T) | Err(error: Error)

  datatype Outcome = Pass | Fail(error: Error)
}
