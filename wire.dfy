/**
 * Wire-level integers shared by the decoders and the serialisers.
 * `u8`, `u16` and `u32` are the bit-vector types `bv8`, `bv16` and `bv32`;
 * Rust's truncating `as u8` is written out as a mask before the conversion.
 */
module Wire {
  import opened Wrappers

  /** `core::num::NonZeroU8`. */
  type NonZeroU8 = x: bv8 | x != 0 witness 1

  /** `w as u8`: the low byte of a 16-bit word. */
  function Lo(w: bv16): bv8 {
    (w & 0xFF) as bv8
  }

  /** `(w >> 8) as u8`: the high byte of a 16-bit word. */
  function Hi(w: bv16): bv8 {
    (w >> 8) as bv8
  }

  /** The word whose high byte is `hi` and low byte is `lo` (the inverse of `Hi` and `Lo`). */
  function Word(hi: bv8, lo: bv8): (w: bv16)
    ensures Hi(w) == hi && Lo(w) == lo
  {
    ((hi as bv16) << 8) | (lo as bv16)
  }

  /** A word is rebuilt from its own two bytes. */
  lemma WordOfBytes(w: bv16)
    ensures Word(Hi(w), Lo(w)) == w
  {
  }

  /** `NonZeroU8::new(v)`: zero means "absent". */
  function NonZero(v: bv8): (r: Option<NonZeroU8>)
    ensures r.None? <==> v == 0
    ensures r.Some? ==> r.value == v
  {
    if v == 0 then None else Some(v)
  }

  /** `o.map(|nz| nz.get()).unwrap_or(0)`: an absent index encodes as 0. */
  function OrZero(o: Option<NonZeroU8>): (b: bv8)
    ensures b == 0 <==> o.None?
    ensures o.Some? ==> b == o.value
  {
    match o
    case None => 0
    case Some(v) => v
  }

  /** `NonZero` and `OrZero` are inverse: the zero sentinel loses nothing. */
  lemma NonZeroOrZero(v: bv8, o: Option<NonZeroU8>)
    ensures OrZero(NonZero(v)) == v
    ensures NonZero(OrZero(o)) == o
  {
  }

  /** `(d >> 8k) as u8`: byte k of a 32-bit word, least significant first. */
  function Byte0(d: bv32): bv8 {
    (d & 0xFF) as bv8
  }

  function Byte1(d: bv32): bv8 {
    ((d >> 8) & 0xFF) as bv8
  }

  function Byte2(d: bv32): bv8 {
    ((d >> 16) & 0xFF) as bv8
  }

  function Byte3(d: bv32): bv8 {
    (d >> 24) as bv8
  }

  /** The 32-bit word with bytes `b3 b2 b1 b0`, most significant first (the inverse of `Byte0` to `Byte3`). */
  function Dword(b3: bv8, b2: bv8, b1: bv8, b0: bv8): (d: bv32)
    ensures Byte3(d) == b3 && Byte2(d) == b2 && Byte1(d) == b1 && Byte0(d) == b0
  {
    ((b3 as bv32) << 24) | ((b2 as bv32) << 16) | ((b1 as bv32) << 8) | (b0 as bv32)
  }

  lemma DwordOfBytes(d: bv32)
    ensures Dword(Byte3(d), Byte2(d), Byte1(d), Byte0(d)) == d
  {
  }
}
