/** Go's fixed-width integer conversions and the two result shapes the model uses. */
module Machine {

  const TWO63: int := 0x8000_0000_0000_0000
  const TWO64: int := 0x1_0000_0000_0000_0000

  datatype Option<+T> = None | Some(value: T)

  datatype Result<+T, +E> = Ok(value: T) | Err(error: E)

  /** The value of an int64 expression whose mathematical value is x: two's complement wrap-around. */
  function Int64(x: int): (r: int)
    ensures -TWO63 <= r < TWO63
    ensures -TWO63 <= x < TWO63 ==> r == x
  {
    if -TWO63 <= x < TWO63 then x else (x + TWO63) % TWO64 - TWO63
  }

  /** The value of a uint64 expression whose mathematical value is x. */
  function Uint64(x: int): (r: nat)
    ensures r < TWO64
    ensures 0 <= x < TWO64 ==> r == x
  {
    if 0 <= x < TWO64 then x else x % TWO64
  }

  /** Wrapping keeps the value modulo 2^64. */
  lemma WrapIsCongruent(x: int)
    ensures (x - Int64(x)) % TWO64 == 0 && (x - Uint64(x)) % TWO64 == 0
  {
    assert x + TWO63 == (x + TWO63) / TWO64 * TWO64 + (x + TWO63) % TWO64;
    assert x == x / TWO64 * TWO64 + x % TWO64;
  }

  function Max(a: int, b: int): int {
    if a < b then b else a
  }

  function Min(a: int, b: int): int {
    if a < b then a else b
  }
}
