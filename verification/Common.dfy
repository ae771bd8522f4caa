/** Machine bytes and words shared by the byte-oriented modules. */
module Bytes {
  newtype u8 = x: int | 0 <= x < 256

  const MAX_U32: nat := 0xffff_ffff
  const MAX_U64: nat := 0xffff_ffff_ffff_ffff
}

/** A value that may be absent, and one that may have failed. */
module Options {
  datatype Option<+T> = Some(value: T) | None

  datatype Result<+T, +E> = Ok(value: T) | Err(error: E)
}

module Numbers {
  function Min(a: nat, b: nat): (r: nat)
    ensures r <= a && r <= b && (r == a || r == b)
  {
    if a <= b then a else b
  }

  function Max(a: nat, b: nat): (r: nat)
    ensures r >= a && r >= b && (r == a || r == b)
  {
    if a >= b then a else b
  }
}
