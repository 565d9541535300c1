/** Scalars, digests and failure values shared by every module of the model. */
module Types {

  /** One byte of a serialised value. */
  type byte = bv8

  /** Width in bytes of a SHA-256 digest, an ed25519 key and every other uint256. */
  const HASH_SIZE: nat := 32

  /** A uint256: a bucket hash, an account key, a pool or balance id. */
  type Hash = h: seq<byte> | |h| == HASH_SIZE witness seq(32, _ => 0)

  const UINT32_MODULUS: int := 0x1_0000_0000

  type uint32 = x: int | 0 <= x < UINT32_MODULUS

  type uint64 = x: int | 0 <= x < 0x1_0000_0000_0000_0000

  type int64 = x: int | -0x8000_0000_0000_0000 <= x < 0x8000_0000_0000_0000

  datatype Option<+T> = None | Some(value: T)

  /** What a C++ exception or a process abort looks like from the caller's side. */
  datatype Exception =
    | RuntimeError(what: string)   // std::runtime_error with its message
    | OutOfRange                   // std::out_of_range thrown by vector::at
    | AssertionFailed              // releaseAssertOrThrow on a false condition
    | NullEntry                    // a read through an entry handle that loaded nothing

  datatype Result<+T> =
    | Ok(value: T)
    | Threw(exception: Exception)
    | Aborted                      // abort() or releaseAssert: the process ends
}
