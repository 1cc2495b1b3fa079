/**
 * tools/convert-image-rgb565.py: an RGB888 image becomes RGB565 pixels,
 * 5 bits of red, 6 of green and 5 of blue in one 16-bit word, written two
 * bytes per pixel with the high byte first.
 */
module Rgb565 {
  /** numpy's uint16 array element: the channels are widened to 16 bits before the shifts. */
  type Word = bv16
  type Byte = bv8

  /** One pixel of the source image, after convert('RGB'): three channel values, each below 256. */
  datatype Pixel = Pixel(red: Word, green: Word, blue: Word)

  /** The 5 most significant bits of red, the 6 of green and the 5 of blue. */
  function Channels(p: Pixel): (c: (Word, Word, Word))
    ensures c.0 < 32 && c.1 < 64 && c.2 < 32
  {
    ((p.red >> 3) & 0x1F, (p.green >> 2) & 0x3F, (p.blue >> 3) & 0x1F)
  }

  /** `color = (r << 11) | (g << 5) | b` */
  function Pack(p: Pixel): (w: Word)
    ensures (w >> 11, (w >> 5) & 0x3F, w & 0x1F) == Channels(p)
  {
    var (r, g, b) := Channels(p);
    (r << 11) | (g << 5) | b
  }

  /** Two pixels pack to the same word exactly when their top channel bits agree. */
  lemma PackInjective(p: Pixel, q: Pixel)
    ensures Pack(p) == Pack(q) <==> Channels(p) == Channels(q)
  {
    if Pack(p) == Pack(q) {
      assert Channels(p).0 == Channels(q).0 && Channels(p).1 == Channels(q).1 && Channels(p).2 == Channels(q).2;
    }
  }

  /** color.byteswap().tobytes() for one word on a little-endian host: the high byte, then the low byte. */
  function WordBytes(c: Word): (bs: seq<Byte>)
    ensures |bs| == 2
  {
    var swapped := (c >> 8) | (c << 8);
    [(swapped & 0xFF) as Byte, (swapped >> 8) as Byte]
  }

  /** The word is stored most significant byte first. */
  lemma WordBytesBigEndian(c: Word)
    ensures ((WordBytes(c)[0] as Word) << 8) | (WordBytes(c)[1] as Word) == c
  {}

  /** image_to_data: the pixels in row order, two bytes each. */
  function ImageToData(pixels: seq<Pixel>): (data: seq<Byte>)
    ensures |data| == 2 * |pixels|
    ensures forall k :: 0 <= k < |pixels| ==> data[2 * k..2 * k + 2] == WordBytes(Pack(pixels[k]))
  {
    if |pixels| == 0 then []
    else
      var rest := ImageToData(pixels[1..]);
      var data := WordBytes(Pack(pixels[0])) + rest;
      assert forall k :: 1 <= k < |pixels| ==> data[2 * k..2 * k + 2] == rest[2 * (k - 1)..2 * (k - 1) + 2];
      data
  }
}
