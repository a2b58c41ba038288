/** Vocabulary shared by every model of the project: optional values, results and machine-word ranges. */
module Prelude {

  datatype Option<+T> = None | Some(value: T)

  datatype Result<+T, +E> = Ok(value: T) | Err(error: E)

  const TWO_TO_THE_32 := 0x1_0000_0000
  const TWO_TO_THE_63 := 0x8000_0000_0000_0000
  const TWO_TO_THE_64 := 0x1_0000_0000_0000_0000
  const INT64_MAX := TWO_TO_THE_63 - 1
  const INT64_MIN := -TWO_TO_THE_63
  const UINT64_MAX := TWO_TO_THE_64 - 1
  const UINT32_MAX := TWO_TO_THE_32 - 1

  type byte = x: int | 0 <= x < 0x100
  type uint16 = x: int | 0 <= x < 0x1_0000
  type uint32 = x: int | 0 <= x < TWO_TO_THE_32
  type uint64 = x: int | 0 <= x < TWO_TO_THE_64
  type int32 = x: int | -0x8000_0000 <= x < 0x8000_0000
  type int64 = x: int | -TWO_TO_THE_63 <= x < TWO_TO_THE_63

  type Bytes = seq<byte>

  function Zeros(n: nat): Bytes {
    seq(n, _ => 0)
  }

  lemma Regroup<T>(a: seq<T>, b: seq<T>, c: seq<T>)
    ensures (a + b) + c == a + (b + c)
  {
  }

  /** C++ integer division: truncates towards zero. */
  function TruncDiv(a: int, b: int): int
    requires b != 0
  {
    if a >= 0 then a / b else -(-a / b)
  }

  /** C++ remainder: takes the sign of the dividend. */
  function TruncRem(a: int, b: int): int
    requires b != 0
  {
    a - TruncDiv(a, b) * b
  }

  /** static_cast<uint64_t> of a signed word, and back. */
  function ToUnsigned64(x: int64): uint64 {
    if x >= 0 then x else x + TWO_TO_THE_64
  }

  function ToSigned64(x: uint64): int64 {
    if x < TWO_TO_THE_63 then x else x - TWO_TO_THE_64
  }
}
