/** Fixed-width integers, account keys and the outcomes an invocation of the
    voting program can have. */
module Types {

  const U32_MAX: int := 0xFFFF_FFFF
  const U64_MAX: int := 0xFFFF_FFFF_FFFF_FFFF

  /** Rust `u32`. */
  type u32 = x: int | 0 <= x <= U32_MAX

  /** Rust `u64`. */
  type u64 = x: int | 0 <= x <= U64_MAX

  /** A public key: 32 opaque bytes, compared only for equality. */
  type Pubkey = s: seq<bv8> | |s| == 32 witness seq(32, _ => 0 as bv8)

  datatype Option<T> = None | Some(value: T)

  /** The `ProgramError` variants the voting program returns. */
  datatype ProgramError =
    | MissingRequiredSignature
    | InvalidAccountData
    | InvalidArgument
    | Custom(code: u32)
    | InvalidInstructionData
    | IllegalOwner
    | AccountDataTooSmall

  /** Custom error code for a second vote by the same key. */
  const DOUBLE_VOTE: u32 := 0
  /** Custom error code for a vote counter that would pass `u64::MAX`. */
  const COUNT_OVERFLOW: u32 := 1

  /** How an invocation that does not succeed ends: with a returned error, or
      with a Rust panic (an out-of-bounds index), which aborts it. */
  datatype Failure = Error(error: ProgramError) | Panic

  datatype Result<T> = Ok(value: T) | Fail(failure: Failure)

  /** Rust `u64::checked_add`. */
  function CheckedAdd(a: u64, b: u64): Option<u64>
  {
    if a + b <= U64_MAX then Some(a + b) else None
  }
}
