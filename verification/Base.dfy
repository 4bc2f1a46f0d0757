/** Types shared by every component: bytes, digests, and the outcome of an operation that may fail. */
module Base {

  type Byte = b: int | 0 <= b < 256

  type Bytes = seq<Byte>

  /** The bytes of a text, one per character. */
  function Ascii(text: string): (s: Bytes)
    requires forall i :: 0 <= i < |text| ==> text[i] as int < 128
    ensures |s| == |text|
  {
    seq(|text|, i requires 0 <= i < |text| => text[i] as int)
  }

  const DIGEST_SIZE := 20

  /** A SHA-1 digest. The digest function itself is a parameter of every member that needs it. */
  type Digest = d: Bytes | |d| == DIGEST_SIZE witness seq(DIGEST_SIZE, _ => 0)

  datatype Option<+T> = None | Some(value: T)

  datatype Result<+T, +E> = Ok(value: T) | Err(error: E)

  const MAX_INT64 := 0x7FFF_FFFF_FFFF_FFFF

  const MIN_INT64 := -0x8000_0000_0000_0000

  /** The value that a 64-bit two's-complement addition leaves behind. */
  function Wrap64(x: int): int {
    (x - MIN_INT64) % 0x1_0000_0000_0000_0000 + MIN_INT64
  }

  /** Go's integer division, which truncates toward zero. */
  function Quotient(a: int, b: int): int
    requires b > 0
  {
    if a >= 0 then a / b else -((-a) / b)
  }
}
