/** Types shared by every component: bytes, options, results and machine-word limits. */
module Basics {
  type Byte = b: int | 0 <= b < 256

  type Bytes = seq<Byte>

  const USIZE_MAX: nat := 0xFFFF_FFFF_FFFF_FFFF
  const U64_LIMIT: nat := 0x1_0000_0000_0000_0000
  const U32_LIMIT: nat := 0x1_0000_0000
  const U16_LIMIT: nat := 0x1_0000

  datatype Option<+T> = None | Some(value: T)

  /** The error kinds callers can distinguish; message texts are not modelled. */
  datatype Error = InvalidFormat | LimitExceeded | InvalidRange | InvalidInput | InvalidPath | Authentication | Io

  datatype Result<+T> = Ok(value: T) | Err(error: Error) {
    predicate IsFailure() {
      Err?
    }

    function PropagateFailure<U>(): Result<U>
      requires Err?
    {
      Err(error)
    }

    function Extract(): T
      requires Ok?
    {
      value
    }
  }

  function Min(a: int, b: int): int {
    if a <= b then a else b
  }

  function Max(a: int, b: int): int {
    if a <= b then b else a
  }
}
