/**
 * examples/lib/PrestoLight.py: ambient lighting.  Each of seven screen
 * sections samples a 7 x 7 grid of pixels from the 240 x 240 RGB565
 * frame buffer, and its average colour goes to one of the seven LEDs.
 */
module PrestoLight {
  import opened Rgb565

  /** The frame buffer is 240 pixels wide, two bytes per pixel. */
  const WIDTH: int := 240
  const BUFFER_SIZE: int := 115200
  /** A section covers 80 x 80 pixels, sampled every 12 pixels. */
  const SECTION_SIZE: int := 80
  const STRIDE: int := 12

  /** range(start, stop, step) for a positive step. */
  function Range(start: int, stop: int, step: nat): (r: seq<int>)
    requires step > 0
    ensures forall i :: 0 <= i < |r| ==> r[i] == start + i * step && r[i] < stop
    ensures |r| == 0 <==> stop <= start
    ensures stop <= start + |r| * step
    decreases stop - start
  {
    if stop <= start then []
    else [start] + Range(start + step, stop, step)
  }

  /** A section is fixed once made: its origin. */
  datatype Section = Section(x: int, y: int)

  /** The sample columns and rows of a section: 7 of each. */
  function Samples(origin: int): (r: seq<int>)
    ensures |r| == 7
    ensures forall i :: 0 <= i < 7 ==> r[i] == origin + STRIDE * i
  {
    var r := Range(origin, origin + SECTION_SIZE, STRIDE);
    assert |Range(origin + 72, origin + SECTION_SIZE, STRIDE)| == 1;
    assert |Range(origin + 60, origin + SECTION_SIZE, STRIDE)| == 2;
    assert |Range(origin + 48, origin + SECTION_SIZE, STRIDE)| == 3;
    assert |Range(origin + 36, origin + SECTION_SIZE, STRIDE)| == 4;
    assert |Range(origin + 24, origin + SECTION_SIZE, STRIDE)| == 5;
    assert |Range(origin + 12, origin + SECTION_SIZE, STRIDE)| == 6;
    r
  }

  /** unpack("<H", ...): the little-endian 16-bit word of two bytes. */
  function Unpack(lo: Byte, hi: Byte): Word
  {
    (lo as Word) | ((hi as Word) << 8)
  }

  /** The word read as GGGBBBBBRRRRRGGG: red and blue in 0..31, green in 0..63. */
  function Decode(v: Word): (c: (Word, Word, Word))
    ensures c.0 < 32 && c.1 < 64 && c.2 < 32
  {
    ((v >> 3) & 0x1F, ((v >> 13) & 0x07) | ((v << 3) & 0x38), (v >> 8) & 0x1F)
  }

  /**
   * The decoder undoes the converter: a pixel stored as
   * convert-image-rgb565.py writes it decodes to its top channel bits.
   */
  lemma DecodeConverted(p: Pixel)
    ensures var bs := WordBytes(Pack(p));
      Decode(Unpack(bs[0], bs[1])) == Channels(p)
  {
    var c := Pack(p);
    UnpackWordBytes(c);
    DecodeSwapped(c);
  }

  /** Reading the converter's two bytes little-endian gives the byte-swapped word. */
  lemma UnpackWordBytes(c: Word)
    ensures Unpack(WordBytes(c)[0], WordBytes(c)[1]) == (c >> 8) | (c << 8)
  {}

  /** The byte-swapped word decodes to the RGB565 fields of the word. */
  lemma DecodeSwapped(c: Word)
    ensures Decode((c >> 8) | (c << 8)) == (c >> 11, (c >> 5) & 0x3F, c & 0x1F)
  {}

  /** A colour as three channel values. */
  type Colour = (int, int, int)

  /** The pixel at (x, y) in the buffer, decoded, with red and blue scaled by 8 and green by 4. */
  function Scaled(display: seq<Byte>, x: int, y: int): (c: Colour)
    requires 0 <= x < WIDTH && 0 <= y < WIDTH && |display| == BUFFER_SIZE
    ensures Within(c, 1, 248, 252, 248)
  {
    var offset := (y * 240 + x) * 2;
    var (r, g, b) := Decode(Unpack(display[offset], display[offset + 1]));
    ((r << 3) as int, (g << 2) as int, (b << 3) as int)
  }

  /** A pixel the converter wrote shows its top channel bits, scaled back up. */
  lemma ScaledConverted(display: seq<Byte>, x: int, y: int, p: Pixel)
    requires 0 <= x < WIDTH && 0 <= y < WIDTH && |display| == BUFFER_SIZE
    requires var offset := (y * 240 + x) * 2; display[offset..offset + 2] == WordBytes(Pack(p))
    ensures var (r, g, b) := Channels(p);
      Scaled(display, x, y) == ((r << 3) as int, (g << 2) as int, (b << 3) as int)
  {
    var offset := (y * 240 + x) * 2;
    var bs := WordBytes(Pack(p));
    assert display[offset] == bs[0] && display[offset + 1] == bs[1];
    DecodeConverted(p);
    assert Decode(Unpack(display[offset], display[offset + 1])) == Channels(p);
  }

  predicate Within(c: Colour, n: int, r: int, g: int, b: int)
  {
    0 <= c.0 <= n * r && 0 <= c.1 <= n * g && 0 <= c.2 <= n * b
  }

  function Add(a: Colour, b: Colour): Colour
  {
    (a.0 + b.0, a.1 + b.1, a.2 + b.2)
  }

  /** The channel totals of a list of colours. */
  function Sum(cs: seq<Colour>): Colour
  {
    if |cs| == 0 then (0, 0, 0) else Add(Sum(cs[..|cs| - 1]), cs[|cs| - 1])
  }

  lemma {:induction false} SumAppend(a: seq<Colour>, b: seq<Colour>)
    ensures Sum(a + b) == Add(Sum(a), Sum(b))
    decreases |b|
  {
    if |b| == 0 {
      assert a + b == a;
    } else {
      assert (a + b)[..|a + b| - 1] == a + b[..|b| - 1];
      SumAppend(a, b[..|b| - 1]);
    }
  }

  /** Colours within the channel bounds sum to at most the bounds times their number. */
  lemma {:induction false} SumBound(cs: seq<Colour>)
    requires forall k :: 0 <= k < |cs| ==> Within(cs[k], 1, 248, 252, 248)
    ensures Within(Sum(cs), |cs|, 248, 252, 248)
  {
    if |cs| > 0 {
      SumBound(cs[..|cs| - 1]);
    }
  }

  /** n copies of one colour sum to n times that colour. */
  lemma {:induction false} SumUniform(cs: seq<Colour>, c: Colour)
    requires forall k :: 0 <= k < |cs| ==> cs[k] == c
    ensures Sum(cs) == (|cs| * c.0, |cs| * c.1, |cs| * c.2)
  {
    if |cs| > 0 {
      var n := |cs| - 1;
      SumUniform(cs[..n], c);
      assert n * c.0 + c.0 == |cs| * c.0 && n * c.1 + c.1 == |cs| * c.1 && n * c.2 + c.2 == |cs| * c.2;
    }
  }

  predicate InFrame(xs: seq<int>)
  {
    forall i :: 0 <= i < |xs| ==> 0 <= xs[i] < WIDTH
  }

  /** The samples of column x, one per row in ys. */
  function Column(display: seq<Byte>, x: int, ys: seq<int>): (cs: seq<Colour>)
    requires |display| == BUFFER_SIZE && 0 <= x < WIDTH && InFrame(ys)
    ensures |cs| == |ys| && forall j :: 0 <= j < |ys| ==> cs[j] == Scaled(display, x, ys[j])
  {
    seq(|ys|, j requires 0 <= j < |ys| => Scaled(display, x, ys[j]))
  }

  /** The samples in the loops' order: column by column, each from the first row down. */
  function Grid(display: seq<Byte>, xs: seq<int>, ys: seq<int>): (cs: seq<Colour>)
    requires |display| == BUFFER_SIZE && InFrame(xs) && InFrame(ys)
    ensures |cs| == |xs| * |ys|
  {
    if |xs| == 0 then []
    else
      var n := |xs| - 1;
      assert InFrame(xs[..n]);
      assert |xs| * |ys| == n * |ys| + |ys|;
      Grid(display, xs[..n], ys) + Column(display, xs[n], ys)
  }

  /** Every sample is one of the scaled pixels at a grid point. */
  lemma {:induction false} GridSamples(display: seq<Byte>, xs: seq<int>, ys: seq<int>, c: Colour)
    requires |display| == BUFFER_SIZE && InFrame(xs) && InFrame(ys)
    ensures (forall i, j :: 0 <= i < |xs| && 0 <= j < |ys| ==> Scaled(display, xs[i], ys[j]) == c) ==>
      forall k :: 0 <= k < |Grid(display, xs, ys)| ==> Grid(display, xs, ys)[k] == c
  {
    if |xs| > 0 {
      var n := |xs| - 1;
      assert InFrame(xs[..n]);
      GridSamples(display, xs[..n], ys, c);
    }
  }

  /** A section lies inside the 240 x 240 frame. */
  predicate OnScreen(s: Section)
  {
    0 <= s.x && s.x + 72 < WIDTH && 0 <= s.y && s.y + 72 < WIDTH
  }

  /** The average colour of a section: each channel total over its 49 samples, rounded down. */
  function Average(display: seq<Byte>, s: Section): (c: Colour)
    requires |display| == BUFFER_SIZE && OnScreen(s)
    ensures var t := Sum(Grid(display, Samples(s.x), Samples(s.y)));
      49 * c.0 <= t.0 < 49 * c.0 + 49 && 49 * c.1 <= t.1 < 49 * c.1 + 49 && 49 * c.2 <= t.2 < 49 * c.2 + 49
  {
    var t := Sum(Grid(display, Samples(s.x), Samples(s.y)));
    (t.0 / 49, t.1 / 49, t.2 / 49)
  }

  /** Every channel of the average is a colour value: at most 248 for red and blue, 252 for green. */
  lemma AverageBound(display: seq<Byte>, s: Section)
    requires |display| == BUFFER_SIZE && OnScreen(s)
    ensures Within(Average(display, s), 1, 248, 252, 248)
  {
    var xs, ys := Samples(s.x), Samples(s.y);
    var cs := Grid(display, xs, ys);
    forall k | 0 <= k < |cs|
      ensures Within(cs[k], 1, 248, 252, 248)
    {
      GridBound(display, xs, ys, k);
    }
    SumBound(cs);
  }

  lemma {:induction false} GridBound(display: seq<Byte>, xs: seq<int>, ys: seq<int>, k: int)
    requires |display| == BUFFER_SIZE && InFrame(xs) && InFrame(ys)
    requires 0 <= k < |Grid(display, xs, ys)|
    ensures Within(Grid(display, xs, ys)[k], 1, 248, 252, 248)
  {
    var n := |xs| - 1;
    assert InFrame(xs[..n]);
    var g := Grid(display, xs[..n], ys);
    if k < |g| {
      GridBound(display, xs[..n], ys, k);
    }
  }

  /** When every sample has the same colour, the average is that colour. */
  lemma AverageUniform(display: seq<Byte>, s: Section, c: Colour)
    requires |display| == BUFFER_SIZE && OnScreen(s)
    requires forall i, j :: 0 <= i < 7 && 0 <= j < 7 ==> Scaled(display, s.x + STRIDE * i, s.y + STRIDE * j) == c
    ensures Average(display, s) == c
  {
    var cs := Grid(display, Samples(s.x), Samples(s.y));
    SectionUniform(display, s, c);
    SumUniform(cs, c);
    var t := Sum(cs);
    assert t == (49 * c.0, 49 * c.1, 49 * c.2);
    assert t.0 / 49 == c.0 && t.1 / 49 == c.1 && t.2 / 49 == c.2;
  }

  lemma SectionUniform(display: seq<Byte>, s: Section, c: Colour)
    requires |display| == BUFFER_SIZE && OnScreen(s)
    requires forall i, j :: 0 <= i < 7 && 0 <= j < 7 ==> Scaled(display, s.x + STRIDE * i, s.y + STRIDE * j) == c
    ensures var cs := Grid(display, Samples(s.x), Samples(s.y));
      |cs| == 49 && forall k :: 0 <= k < |cs| ==> cs[k] == c
  {
    var xs, ys := Samples(s.x), Samples(s.y);
    forall i, j | 0 <= i < |xs| && 0 <= j < |ys|
      ensures Scaled(display, xs[i], ys[j]) == c
    {
      assert Scaled(display, s.x + STRIDE * i, s.y + STRIDE * j) == c;
    }
    GridSamples(display, xs, ys, c);
  }

  /**
   * Section.return_avg: the nested loops over the sample grid, summing
   * the scaled channels, then each total over the sample count.
   */
  method ReturnAvg(display: seq<Byte>, s: Section) returns (avg: Colour)
    requires |display| == BUFFER_SIZE && OnScreen(s)
    ensures avg == Average(display, s)
  {
    var xs, ys := Samples(s.x), Samples(s.y);
    var total := (0, 0, 0);
    var count := 0;
    for i := 0 to |xs|
      invariant total == Sum(Grid(display, xs[..i], ys)) && count == 7 * i
    {
      var x := xs[i];
      var column := (0, 0, 0);
      ghost var cs := Column(display, x, ys);
      for j := 0 to |ys|
        invariant column == Sum(cs[..j]) && count == 7 * i + j
      {
        SumSnoc(cs, j);
        column := Add(column, Scaled(display, x, ys[j]));
        count := count + 1;
      }
      GridSnoc(display, xs, ys, i);
      total := Add(total, column);
    }
    assert xs[..|xs|] == xs;
    avg := (total.0 / count, total.1 / count, total.2 / count);
  }

  lemma SumSnoc(cs: seq<Colour>, j: int)
    requires 0 <= j < |cs|
    ensures Sum(cs[..j + 1]) == Add(Sum(cs[..j]), cs[j])
  {
    assert cs[..j + 1][..j] == cs[..j];
  }

  /** One more column of samples adds its column sum to the total. */
  lemma GridSnoc(display: seq<Byte>, xs: seq<int>, ys: seq<int>, i: int)
    requires |display| == BUFFER_SIZE && InFrame(xs) && InFrame(ys) && 0 <= i < |xs|
    ensures InFrame(xs[..i]) && InFrame(xs[..i + 1])
    ensures Sum(Grid(display, xs[..i + 1], ys)) ==
      Add(Sum(Grid(display, xs[..i], ys)), Sum(Column(display, xs[i], ys)[..|ys|]))
  {
    var cs := Column(display, xs[i], ys);
    assert cs[..|ys|] == cs;
    assert xs[..i + 1][..i] == xs[..i];
    SumAppend(Grid(display, xs[..i], ys), cs);
  }

  /** Reactive's sections, one per LED, round the edges of the frame. */
  const SECTIONS: seq<Section> := [
    Section(160, 160), Section(160, 80), Section(160, 0), Section(80, 0),
    Section(0, 0), Section(0, 80), Section(0, 160)
  ]

  lemma SectionsOnScreen()
    ensures |SECTIONS| == 7 && forall i :: 0 <= i < 7 ==> OnScreen(SECTIONS[i])
  {}

  /** Reactive.update: LED i shows the average colour of section i. */
  method Update(display: seq<Byte>) returns (leds: seq<(int, int, int)>)
    requires |display| == BUFFER_SIZE
    ensures |leds| == |SECTIONS| == 7
    ensures forall i :: 0 <= i < 7 ==> OnScreen(SECTIONS[i]) && leds[i] == Average(display, SECTIONS[i])
  {
    SectionsOnScreen();
    leds := [];
    for i := 0 to |SECTIONS|
      invariant leds == Averages(display, i)
    {
      var colour := ReturnAvg(display, SECTIONS[i]);
      leds := leds + [colour];
    }
  }

  /** The averages of the first n sections, in LED order. */
  function Averages(display: seq<Byte>, n: nat): (cs: seq<Colour>)
    requires |display| == BUFFER_SIZE && n <= 7
    ensures |cs| == n
    ensures forall k :: 0 <= k < n ==> OnScreen(SECTIONS[k]) && cs[k] == Average(display, SECTIONS[k])
  {
    SectionsOnScreen();
    if n == 0 then [] else Averages(display, n - 1) + [Average(display, SECTIONS[n - 1])]
  }
}
