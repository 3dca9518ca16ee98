/** Types and machine limits shared by every module of the model. */
module Prelude {

  datatype Option<+T> = None | Some(value: T)

  /** Rust's `Result`; failure-compatible, so `:-` plays the part of `?`. */
  datatype Result<+T, +E> = Ok(value: T) | Err(error: E) {
    predicate IsFailure() {
      Err?
    }

    function PropagateFailure<U>(): Result<U, E>
      requires Err?
    {
      Err(error)
    }

    function Extract(): T
      requires Ok?
    {
      value
    }
  }

  type byte = b: int | 0 <= b < 256

  /** A 20-byte address hash. */
  type H160 = h: seq<byte> | |h| == 20 witness seq(20, _ => 0)

  const U32_MAX: nat := 0xFFFF_FFFF
  const U64_MAX: nat := 0xFFFF_FFFF_FFFF_FFFF
  /** `usize` on the 64-bit targets the daemon is built for. */
  const USIZE_MAX: nat := U64_MAX
  /** 2^96: the number of slots, and the bound on every varint. */
  const TWO_96: nat := 0x1_0000_0000_0000_0000_0000_0000
  const U128_MAX: nat := 0xFFFF_FFFF_FFFF_FFFF_FFFF_FFFF_FFFF_FFFF

  /** The error enum of the crate, without the message texts. */
  datatype Brc721Error =
    | ScriptTooShort
    | InvalidLength(expected: nat, actual: nat)
    | UnknownCommand(command: byte)
    | InvalidRebaseFlag(flag: byte)
    | InvalidSlotNumber(slot: nat)
    | InvalidGroupCount(count: nat)
    | InvalidRangeCount(count: nat)
    | InvalidSlotRange(start: nat, end: nat)
    | StorageError
    | TxError

  function Min(a: int, b: int): int {
    if a <= b then a else b
  }
}
