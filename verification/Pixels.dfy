/** Packed 0xAARRGGBB pixels, as the compositor stores them in 32-bit words. */
module Pixels {

  type Word = px: int | 0 <= px < 0x1_0000_0000

  type Byte = v: int | 0 <= v < 0x100

  datatype Channel = Red | Green | Blue

  /** `(px >> 16) & 0xFF`, `(px >> 8) & 0xFF` and `px & 0xFF`. */
  function Get(px: Word, c: Channel): Byte {
    match c
    case Red => (px / 0x1_0000) % 0x100
    case Green => (px / 0x100) % 0x100
    case Blue => px % 0x100
  }

  /** Splitting off the low byte of a number built by appending it. */
  lemma LowByte(high: int, low: Byte)
    ensures (high * 0x100 + low) / 0x100 == high && (high * 0x100 + low) % 0x100 == low
  {
  }

  /** `0xFF000000u | (r << 16) | (g << 8) | b`: always opaque. */
  function Pack(r: Byte, g: Byte, b: Byte): (px: Word)
    ensures Get(px, Red) == r && Get(px, Green) == g && Get(px, Blue) == b
    ensures px / 0x100_0000 == 0xFF
  {
    var top := 0xFF * 0x100 + r;
    var upper := top * 0x100 + g;
    LowByte(0xFF, r);
    LowByte(top, g);
    LowByte(upper, b);
    assert 0 <= upper * 0x100 + b < 0x1_0000_0000;
    DivideTwice(upper * 0x100 + b);
    upper * 0x100 + b
  }

  lemma DivideTwice(px: nat)
    ensures px / 0x1_0000 == px / 0x100 / 0x100
    ensures px / 0x100_0000 == px / 0x100 / 0x100 / 0x100
  {
  }

  /** An opaque pixel is determined by its three channels. */
  lemma OpaqueExtensional(p: Word, q: Word)
    requires p / 0x100_0000 == 0xFF && q / 0x100_0000 == 0xFF
    requires forall c: Channel :: Get(p, c) == Get(q, c)
    ensures p == q
  {
    DivideTwice(p);
    DivideTwice(q);
    assert Get(p, Red) == Get(q, Red) && Get(p, Green) == Get(q, Green) && Get(p, Blue) == Get(q, Blue);
    assert p / 0x1_0000 == q / 0x1_0000;
    assert p / 0x100 == q / 0x100;
  }
}
