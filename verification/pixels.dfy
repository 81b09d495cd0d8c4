/**
 The pixel buffer of a WS2812B strip: one (R, G, B) triple per pixel,
 index 0 at the top of the stairs.
 */
module Pixels {

  /** One 8-bit brightness channel, as stored in the strip's byte buffer. */
  type Byte = x: int | 0 <= x < 256

  /** The colour of one pixel. */
  datatype Color = Color(r: Byte, g: Byte, b: Byte)

  /** The dim white used to light the stairs. */
  const WHITE: Color := Color(16, 16, 16)

  /** All channels dark. */
  const OFF: Color := Color(0, 0, 0)

  /** The buffer behind the strip, in pixel order. */
  type Strip = seq<Color>

  /** `s` with every pixel whose index lies in [lo, hi) set to `c`, every other pixel as in `s`. */
  function Painted(s: Strip, lo: int, hi: int, c: Color): Strip
  {
    seq(|s|, i requires 0 <= i < |s| => if lo <= i < hi then c else s[i])
  }

  /** Every pixel of `s` shows `c`. */
  predicate AllOf(s: Strip, c: Color)
  {
    forall i :: 0 <= i < |s| ==> s[i] == c
  }

  /** A strip of `n` pixels, all showing `c`. */
  function Solid(n: nat, c: Color): Strip
  {
    seq(n, _ => c)
  }
}
