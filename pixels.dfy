/** Per-pixel colour conversion of the frame encoder: the engine's 32-bit
    ARGB8888 pixels become the host's 16-bit XRGB1555 pixels by keeping the
    top five bits of each 8-bit colour channel. */
module Pixels {

  /** One engine pixel: 0xAARRGGBB. */
  type Argb8888 = bv32
  /** One host pixel: bit 15 unused, then 5 bits each of red, green, blue. */
  type Xrgb1555 = bv16

  /** The 8-bit red, green and blue channels of an engine pixel. */
  function Red(c: Argb8888): bv32 { (c >> 16) & 0xff }
  function Green(c: Argb8888): bv32 { (c >> 8) & 0xff }
  function Blue(c: Argb8888): bv32 { c & 0xff }

  /** The 5-bit red, green and blue fields of a host pixel. */
  function Red5(p: Xrgb1555): bv16 { (p >> 10) & 0x1f }
  function Green5(p: Xrgb1555): bv16 { (p >> 5) & 0x1f }
  function Blue5(p: Xrgb1555): bv16 { p & 0x1f }

  /** The mask-and-shift colour transform of convert_frame. Each host field
      holds the top five bits of the matching engine channel, and the unused
      top bit stays clear. */
  function ConvertPixel(c: Argb8888): (r: Xrgb1555)
    ensures r < 0x8000
    ensures Red5(r) == (Red(c) >> 3) as bv16
    ensures Green5(r) == (Green(c) >> 3) as bv16
    ensures Blue5(r) == (Blue(c) >> 3) as bv16
  {
    var outColor: bv32 :=
      ((c & 0xf80000) >> (3 + 6)) | ((c & 0x00f800) >> (3 + 3)) | ((c & 0x0000f8) >> (3 + 0));
    outColor as bv16
  }

  /** The same fields read as numbers: each host field is the engine
      channel's intensity divided by 8, rounded down. */
  lemma ConvertPixelDividesChannels(c: Argb8888)
    ensures Red5(ConvertPixel(c)) as nat == Red(c) as nat / 8
    ensures Green5(ConvertPixel(c)) as nat == Green(c) as nat / 8
    ensures Blue5(ConvertPixel(c)) as nat == Blue(c) as nat / 8
  {
  }

  /** A host pixel with bit 15 clear is determined by its three fields. */
  lemma FieldsDetermine(p: Xrgb1555, q: Xrgb1555)
    requires p < 0x8000 && q < 0x8000
    requires Red5(p) == Red5(q) && Green5(p) == Green5(q) && Blue5(p) == Blue5(q)
    ensures p == q
  {
  }

  /** The alpha byte never affects the converted pixel. */
  lemma AlphaIgnored(c: Argb8888, alpha: bv32)
    ensures ConvertPixel(c) == ConvertPixel((c & 0x00ff_ffff) | (alpha << 24))
  {
  }

  /** White becomes full intensity in all three fields; black becomes 0. */
  lemma WhiteAndBlack()
    ensures ConvertPixel(0x00ff_ffff) == 0x7fff
    ensures ConvertPixel(0xffff_ffff) == 0x7fff
    ensures ConvertPixel(0) == 0
  {
  }

  /** The inverse direction: a host pixel widened back into an engine pixel,
      each 5-bit field placed in the top bits of its 8-bit channel and the
      alpha byte left 0. */
  function ExpandPixel(p: Xrgb1555): (c: Argb8888)
    ensures Red(c) == (Red5(p) as bv32) << 3
    ensures Green(c) == (Green5(p) as bv32) << 3
    ensures Blue(c) == (Blue5(p) as bv32) << 3
    ensures c < 0x0100_0000
  {
    var w := p as bv32;
    ((w & 0x7c00) << 9) | ((w & 0x03e0) << 6) | ((w & 0x001f) << 3)
  }

  /** Widening then converting gives back every host pixel with bit 15 clear. */
  lemma ConvertExpand(p: Xrgb1555)
    requires p < 0x8000
    ensures ConvertPixel(ExpandPixel(p)) == p
  {
  }

  /** Converting then widening keeps exactly the top five bits of each
      colour channel: conversion loses only the three low bits and alpha. */
  lemma ExpandConvert(c: Argb8888)
    ensures ExpandPixel(ConvertPixel(c)) == c & 0x00f8_f8f8
  {
  }
}
