/** Bytes and the small failure-carrying datatypes shared by the other modules. */
module Common {
  type byte = n: int | 0 <= n < 256

  datatype Option<+T> = None | Some(value: T)

  datatype Result<+T, +E> = Ok(value: T) | Err(error: E)

  const U32_LIMIT: nat := 0x1_0000_0000
  const U64_LIMIT: nat := 0x1_0000_0000_0000_0000

  /** Unsigned little-endian fields of a byte string. */
  function Field8(b: seq<byte>, at: nat): nat
    requires at < |b|
  {
    b[at]
  }

  function Field16(b: seq<byte>, at: nat): nat
    requires at + 2 <= |b|
  {
    Field8(b, at) + 256 * Field8(b, at + 1)
  }

  function Field32(b: seq<byte>, at: nat): nat
    requires at + 4 <= |b|
  {
    Field16(b, at) + 0x1_0000 * Field16(b, at + 2)
  }

  /** A 32-bit counter wraps. */
  function WrappingNext(n: nat): nat {
    (n + 1) % U32_LIMIT
  }

  function Min(a: int, b: int): int {
    if a <= b then a else b
  }

  lemma Associate<T>(a: seq<T>, b: seq<T>, c: seq<T>)
    ensures a + b + c == a + (b + c)
  {
  }
}
