/**
 * The integer logic of the ST7701 parallel display driver
 * (drivers/st7701/st7701.cpp): the PIO timing generator's phase and row
 * counters and the instruction word it emits per phase, the choice of the
 * next line address, the backlight curve, 18-bit palette packing and the PIO
 * clock divider.  The PIO FIFO, DMA, PWM and GPIO hardware are replaced by
 * fields that record what the driver hands to them.
 */
module St7701 {
  import opened Wrappers

  const DISPLAY_HEIGHT: int := 480
  const TIMING_V_PULSE: bv16 := 8
  const TIMING_V_BACK: bv16 := 5 + TIMING_V_PULSE
  const TIMING_V_DISPLAY: bv16 := 480 + TIMING_V_BACK
  const TIMING_V_FRONT: bv16 := 5 + TIMING_V_DISPLAY
  const TIMING_H_FRONT: bv32 := 4
  const TIMING_H_PULSE: bv32 := 16
  const TIMING_H_BACK: bv32 := 30
  const TIMING_H_DISPLAY: bv32 := 480

  const BACKLIGHT_PWM_TOP: nat := 6200

  /** The PIO `nop` (0xB042) and `irq` instructions in the low half of a timing word. */
  const NOP: bv32 := 0xB042
  const IRQ_LINE: bv32 := 0xD000
  const IRQ_FRAME: bv32 := 0xD001
  const IRQ_DATA: bv32 := 0xD004
  const VSYNC_HIGH: bv32 := 0x8000_0000
  const HSYNC_HIGH: bv32 := 0x4000_0000

  /** Pico SDK's MHZ. */
  const MHZ: nat := 1_000_000
  const MAX_PIO_CLK: nat := 34 * MHZ
  const U32: nat := 0x1_0000_0000

  // ---------------------------------------------------------------------------
  // Timing generator (drive_timing).
  // ---------------------------------------------------------------------------

  /** The horizontal timing constant that phase `phase` lasts for. */
  function PhaseCount(phase: bv16): (c: bv32)
    requires phase < 4
    ensures c >= 4
  {
    if phase == 0 then TIMING_H_FRONT
    else if phase == 1 then TIMING_H_PULSE
    else if phase == 2 then TIMING_H_BACK
    else TIMING_H_DISPLAY
  }

  /** The instruction in the low half of the phase-2 and phase-3 words. */
  function Instruction(phase: bv16, row: bv16): bv32
    requires phase < 4
  {
    if phase == 2 then
      if TIMING_V_BACK <= row < TIMING_V_DISPLAY then IRQ_DATA else NOP
    else if phase == 3 then
      if row == TIMING_V_DISPLAY then IRQ_FRAME
      else if TIMING_V_BACK - 1 <= row < TIMING_V_DISPLAY then IRQ_LINE
      else NOP
    else NOP
  }

  /**
   * The word drive_timing puts in the timing FIFO in state (phase, row):
   * VSYNC is high exactly outside the vertical sync pulse, in every phase,
   * and HSYNC is low only in phase 1.
   */
  function TimingWord(phase: bv16, row: bv16): (w: bv32)
    requires phase < 4
    ensures w & VSYNC_HIGH != 0 <==> row >= TIMING_V_PULSE
    ensures w & HSYNC_HIGH == 0 <==> phase == 1
  {
    var vsync := if row >= TIMING_V_PULSE then VSYNC_HIGH else 0;
    var hsync := if phase == 1 then 0 else HSYNC_HIGH;
    hsync | vsync | Instruction(phase, row) | ((PhaseCount(phase) - 3) << 16)
  }

  /** Bits 16..29 carry the phase's count minus 3, the low half its instruction. */
  lemma WordFields(phase: bv16, row: bv16)
    requires phase < 4
    ensures (TimingWord(phase, row) >> 16) & 0x3FFF == PhaseCount(phase) - 3
    ensures TimingWord(phase, row) & 0xFFFF == Instruction(phase, row)
  {}

  /** Which interrupts fire: data in the display window, a line just before and in it, a frame at its end. */
  lemma Interrupts(phase: bv16, row: bv16)
    requires phase < 4
    ensures Instruction(phase, row) == IRQ_DATA <==> phase == 2 && TIMING_V_BACK <= row < TIMING_V_DISPLAY
    ensures Instruction(phase, row) == IRQ_FRAME <==> phase == 3 && row == TIMING_V_DISPLAY
    ensures Instruction(phase, row) == IRQ_LINE <==> phase == 3 && TIMING_V_BACK - 1 <= row < TIMING_V_DISPLAY
    ensures phase < 2 ==> Instruction(phase, row) == NOP
  {}

  /** The phase after `phase`: (phase + 1) & 3. */
  function NextPhase(phase: bv16): (p: bv16)
    ensures p < 4
  {
    (phase + 1) & 3
  }

  /** The row after a word in state (phase, row): it moves on in phase 3 and wraps at TIMING_V_FRONT. */
  function NextRow(phase: bv16, row: bv16): bv16
  {
    if phase == 3 then
      if row + 1 >= TIMING_V_FRONT then 0 else row + 1
    else row
  }

  /** The timing state stays in range: phase in 0..3, row in [0, TIMING_V_FRONT). */
  predicate TimingInRange(phase: bv16, row: bv16)
  {
    phase < 4 && row < TIMING_V_FRONT
  }

  lemma StepInRange(phase: bv16, row: bv16)
    requires TimingInRange(phase, row)
    ensures TimingInRange(NextPhase(phase), NextRow(phase, row))
  {}

  /** The phase cycles 0, 1, 2, 3, 0 and the row changes only on leaving phase 3. */
  lemma PhaseCycle(phase: bv16, row: bv16)
    requires TimingInRange(phase, row)
    ensures NextPhase(phase) == if phase == 3 then 0 else phase + 1
    ensures phase != 3 ==> NextRow(phase, row) == row
    ensures phase == 3 ==> NextRow(phase, row) == if row == TIMING_V_FRONT - 1 then 0 else row + 1
  {}

  /** The state after `n` words. */
  function Advance(phase: bv16, row: bv16, n: nat): (s: (bv16, bv16))
    requires TimingInRange(phase, row)
    ensures TimingInRange(s.0, s.1)
    decreases n
  {
    if n == 0 then (phase, row)
    else
      StepInRange(phase, row);
      Advance(NextPhase(phase), NextRow(phase, row), n - 1)
  }

  /** The `n` words emitted from state (phase, row). */
  function Words(phase: bv16, row: bv16, n: nat): (ws: seq<bv32>)
    requires TimingInRange(phase, row)
    ensures |ws| == n
    decreases n
  {
    if n == 0 then []
    else
      StepInRange(phase, row);
      [TimingWord(phase, row)] + Words(NextPhase(phase), NextRow(phase, row), n - 1)
  }

  lemma {:induction false} AdvanceSnoc(phase: bv16, row: bv16, n: nat)
    requires TimingInRange(phase, row)
    ensures var s := Advance(phase, row, n);
      Advance(phase, row, n + 1) == Advance(NextPhase(s.0), NextRow(s.0, s.1), 0) &&
      Words(phase, row, n + 1) == Words(phase, row, n) + [TimingWord(s.0, s.1)]
    decreases n
  {
    if n > 0 {
      StepInRange(phase, row);
      AdvanceSnoc(NextPhase(phase), NextRow(phase, row), n - 1);
    }
  }

  /** One full line of four words from phase 0 moves the row on by one, wrapping at TIMING_V_FRONT. */
  lemma LineAdvance(row: bv16)
    requires row < TIMING_V_FRONT
    ensures Advance(0, row, 4) == (0, if row + 1 == TIMING_V_FRONT then 0 else row + 1)
  {
    StepInRange(3, row);
    assert Advance(3, row, 1) == Advance(0, NextRow(3, row), 0) == (0, NextRow(3, row));
    assert Advance(2, row, 2) == Advance(3, row, 1);
    assert Advance(1, row, 3) == Advance(2, row, 2);
  }

  // ---------------------------------------------------------------------------
  // Backlight (set_backlight).
  // ---------------------------------------------------------------------------

  /** The PWM level for a brightness: 0 off, 255 full, otherwise 181 + b*b/85. */
  function BacklightLevel(brightness: nat): (level: nat)
    requires brightness < 256
    ensures level <= BACKLIGHT_PWM_TOP && (level == 0 <==> brightness == 0)
  {
    if brightness == 0 then 0
    else if brightness == 255 then BACKLIGHT_PWM_TOP
    else
      SquareMono(brightness, 254);
      181 + (brightness * brightness) / 85
  }

  lemma SquareMono(a: nat, b: nat)
    requires a <= b
    ensures a * a <= b * b
  {
    assert a * a <= a * b;
  }

  /** The level never exceeds the PWM top, and a brighter setting never gives a dimmer level. */
  lemma BacklightMonotone(a: nat, b: nat)
    requires a <= b < 256
    ensures BacklightLevel(a) <= BacklightLevel(b) <= BACKLIGHT_PWM_TOP
  {
    if b < 255 {
      SquareMono(a, b);
    }
  }

  // ---------------------------------------------------------------------------
  // Palette packing (set_palette_colour).
  // ---------------------------------------------------------------------------

  /** The RGB overload: top 5 bits of r, 6 of g, 6 of b, and bit 2 of r at bit 14. */
  function PackRgb(r: bv8, g: bv8, b: bv8): (c: bv32)
    ensures c & 0x3FFF == 0
  {
    ((r as bv32 << 24) & 0xF800_0000) |
    ((g as bv32 << 19) & 0x07E0_0000) |
    ((b as bv32 << 13) & 0x001F_8000) |
    ((r as bv32 << 12) & 0x0000_4000)
  }

  /** The RGB888 overload, on a word 0xRRGGBB. */
  function PackRgb888(colour: bv32): (c: bv32)
    ensures c & 0x3FFF == 0
  {
    ((colour << 8) & 0xF800_0000) |
    ((colour << 11) & 0x07E0_0000) |
    ((colour << 13) & 0x001F_8000) |
    ((colour >> 4) & 0x0000_4000)
  }

  /** 0xRRGGBB from three channels. */
  function Rgb888(r: bv8, g: bv8, b: bv8): bv32
  {
    (r as bv32 << 16) | (g as bv32 << 8) | b as bv32
  }

  /** Both overloads encode a colour the same way. */
  lemma PackAgree(r: bv8, g: bv8, b: bv8)
    ensures PackRgb888(Rgb888(r, g, b)) == PackRgb(r, g, b)
  {}

  /** Each field holds the channel's top bits, so equal encodings mean equal top bits. */
  lemma PackFields(r: bv8, g: bv8, b: bv8)
    ensures var c := PackRgb(r, g, b);
      c >> 27 == (r >> 3) as bv32 && (c >> 21) & 0x3F == (g >> 2) as bv32 &&
      (c >> 15) & 0x3F == (b >> 2) as bv32 && (c >> 14) & 1 == ((r >> 2) & 1) as bv32
  {}

  // ---------------------------------------------------------------------------
  // Clock divider (init).
  // ---------------------------------------------------------------------------

  /** The divisors init gives the timing and the parallel state machines. */
  datatype Dividers = Dividers(timing: nat, parallel: nat)

  /**
   * ceil(sys_clk / 34 MHz) in uint32_t arithmetic, at least 8 for palette
   * mode at width 480, then made even at width 480 with the parallel state
   * machine at half.
   */
  function ClockDividers(sysClk: nat, palette: bool, width: nat): (d: Dividers)
    requires sysClk < U32
    ensures width == 480 ==> d.timing % 2 == 0 && d.parallel * 2 == d.timing
    ensures width != 480 ==> d.parallel == d.timing
  {
    var div := ((sysClk + MAX_PIO_CLK - 1) % U32) / MAX_PIO_CLK;
    var div := if palette && width == 480 && div < 8 then 8 else div;
    if width == 480 then
      var div := if div % 2 == 1 then div + 1 else div;
      Dividers(div, div / 2)
    else Dividers(div, div)
  }

  /**
   * Unless the sum overflows 32 bits, the timing clock stays at or below
   * 34 MHz, and palette mode at 480 wide divides by at least 8.
   */
  lemma DividerBounds(sysClk: nat, palette: bool, width: nat)
    requires sysClk + MAX_PIO_CLK - 1 < U32
    ensures var d := ClockDividers(sysClk, palette, width);
      sysClk <= d.timing * MAX_PIO_CLK &&
      (palette && width == 480 ==> d.timing >= 8)
  {
    var q := (sysClk + MAX_PIO_CLK - 1) / MAX_PIO_CLK;
    assert sysClk <= q * MAX_PIO_CLK;
  }

  /** row_shift: 240-line modes show every framebuffer row twice. */
  function RowShift(height: nat): (s: nat)
    ensures s <= 1 && (s == 1 <==> height == 240)
  {
    if height == 240 then 1 else 0
  }

  /** `x >> s` on a non-negative int. */
  function Shr(x: nat, s: nat): nat
  {
    if s == 0 then x else Shr(x / 2, s - 1)
  }

  /** The framebuffer index (in 16-bit words) of the start of display row `row`. */
  function LineStart(width: nat, palette: bool, row: nat, rowShift: nat): (s: nat)
    ensures LineWords(width, palette) > 0 ==> s % LineWords(width, palette) == 0
  {
    MultipleMod(LineWords(width, palette), Shr(row, rowShift));
    (if palette then width / 2 else width) * Shr(row, rowShift)
  }

  /** A line start is a whole number of lines into the framebuffer. */
  lemma {:induction false} MultipleMod(a: nat, k: nat)
    ensures a > 0 ==> (a * k) % a == 0
  {
    if k > 0 && a > 0 {
      MultipleMod(a, k - 1);
      assert a * k == a * (k - 1) + a;
    }
  }

  /** The words one framebuffer line takes: two 8-bit pixels per word in palette mode. */
  function LineWords(width: nat, palette: bool): nat
  {
    if palette then width / 2 else width
  }

  lemma ProductStep(w: nat, k: nat, h: nat)
    requires k < h
    ensures w * k + w <= w * h
  {
    assert w * k + w == w * (k + 1);
  }

  /**
   * Every line of the 480-row scan-out starts inside the framebuffer and
   * fits in it, for a framebuffer of `height` lines in both supported
   * heights (480, and 240 with each line sent twice).
   */
  lemma LineInFrame(width: nat, palette: bool, height: nat, row: nat)
    requires height == 480 || height == 240
    requires row < DISPLAY_HEIGHT
    ensures LineStart(width, palette, row, RowShift(height)) + LineWords(width, palette) <=
      LineWords(width, palette) * height
  {
    var k := Shr(row, RowShift(height));
    if height == 240 {
      assert k == Shr(row / 2, 0) == row / 2;
    }
    assert k < height;
    ProductStep(LineWords(width, palette), k, height);
  }

  // ---------------------------------------------------------------------------
  // The driver object.
  // ---------------------------------------------------------------------------

  class Driver {
    const width: nat
    const height: nat
    const rowShift: nat
    /** The palette table, or null in RGB565 mode. */
    const palette: array?<bv32>

    var timingPhase: bv16
    var timingRow: bv16
    /** Every word put in the timing state machine's FIFO. */
    var timingFifo: seq<bv32>

    var displayRow: int
    /** next_line_addr as an index into the framebuffer; None for the null pointer. */
    var nextLine: Option<nat>

    /** The framebuffer being scanned out and the one queued by set_framebuffer, by identity. */
    var framebuffer: nat
    var nextFramebuffer: Option<nat>

    /** The level last given to the backlight PWM. */
    var backlight: nat

    predicate Valid()
      reads this
    {
      TimingInRange(timingPhase, timingRow) && rowShift == RowShift(height) && displayRow >= 0 &&
      (palette != null ==> palette.Length == 256)
    }

    /** The constructor with init's row_shift choice; counters start at 0. */
    constructor (width: nat, height: nat, framebuffer: nat, palette: array?<bv32>)
      requires palette != null ==> palette.Length == 256
      ensures Valid()
      ensures this.width == width && this.height == height && this.palette == palette
      ensures timingPhase == 0 && timingRow == 0 && timingFifo == []
      ensures displayRow == 0 && nextLine == None && backlight == 0
      ensures this.framebuffer == framebuffer && nextFramebuffer == None
    {
      this.framebuffer := framebuffer;
      nextFramebuffer := None;
      this.width := width;
      this.height := height;
      this.palette := palette;
      rowShift := RowShift(height);
      timingPhase := 0;
      timingRow := 0;
      timingFifo := [];
      displayRow := 0;
      nextLine := None;
      backlight := 0;
    }

    /** drive_timing while the FIFO has `room` free slots: one word per slot. */
    method DriveTiming(room: nat)
      requires Valid()
      modifies this
      ensures Valid()
      ensures timingFifo == old(timingFifo) + Words(old(timingPhase), old(timingRow), room)
      ensures (timingPhase, timingRow) == Advance(old(timingPhase), old(timingRow), room)
      ensures displayRow == old(displayRow) && nextLine == old(nextLine) && backlight == old(backlight)
      ensures framebuffer == old(framebuffer) && nextFramebuffer == old(nextFramebuffer)
    {
      ghost var phase0, row0 := timingPhase, timingRow;
      var sent := 0;
      while sent < room
        invariant 0 <= sent <= room
        invariant Valid()
        invariant (timingPhase, timingRow) == Advance(phase0, row0, sent)
        invariant timingFifo == old(timingFifo) + Words(phase0, row0, sent)
        invariant displayRow == old(displayRow) && nextLine == old(nextLine) && backlight == old(backlight)
        invariant framebuffer == old(framebuffer) && nextFramebuffer == old(nextFramebuffer)
      {
        ghost var fifo, phase, row := timingFifo, timingPhase, timingRow;
        AdvanceSnoc(phase0, row0, sent);
        EmitWord();
        assert (timingPhase, timingRow) == Advance(phase, row, 1);
        assert timingFifo == fifo + [TimingWord(phase, row)];
        sent := sent + 1;
      }
    }

    /** One pass of drive_timing's loop: the current word, then the next phase and row. */
    method EmitWord()
      requires Valid()
      modifies this
      ensures Valid()
      ensures timingFifo == old(timingFifo) + [TimingWord(old(timingPhase), old(timingRow))]
      ensures timingPhase == NextPhase(old(timingPhase)) && timingRow == NextRow(old(timingPhase), old(timingRow))
      ensures displayRow == old(displayRow) && nextLine == old(nextLine) && backlight == old(backlight)
      ensures framebuffer == old(framebuffer) && nextFramebuffer == old(nextFramebuffer)
    {
      StepInRange(timingPhase, timingRow);
      var instr := TimingWord(timingPhase, timingRow);
      timingFifo := timingFifo + [instr];
      if timingPhase == 3 {
        timingRow := timingRow + 1;
        if timingRow >= TIMING_V_FRONT {
          timingRow := 0;
        }
      }
      timingPhase := (timingPhase + 1) & 3;
    }

    /** start_line_xfer: the next row, and its line address, or null past the last row. */
    method StartLineXfer()
      requires Valid()
      modifies this
      ensures Valid()
      ensures displayRow == old(displayRow) + 1
      ensures displayRow == DISPLAY_HEIGHT ==> nextLine == None
      ensures displayRow != DISPLAY_HEIGHT ==>
        nextLine == Some(LineStart(width, palette != null, displayRow, rowShift))
      ensures timingPhase == old(timingPhase) && timingRow == old(timingRow)
      ensures timingFifo == old(timingFifo) && backlight == old(backlight)
      ensures framebuffer == old(framebuffer) && nextFramebuffer == old(nextFramebuffer)
    {
      displayRow := displayRow + 1;
      if displayRow == DISPLAY_HEIGHT {
        nextLine := None;
      } else {
        var lineWords := if palette != null then width / 2 else width;
        nextLine := Some(lineWords * Shr(displayRow, rowShift));
      }
    }

    /** set_framebuffer: queue a framebuffer for the next frame. */
    method SetFramebuffer(next: nat)
      modifies this
      ensures nextFramebuffer == Some(next)
      ensures framebuffer == old(framebuffer) && displayRow == old(displayRow) && nextLine == old(nextLine)
      ensures timingPhase == old(timingPhase) && timingRow == old(timingRow)
      ensures timingFifo == old(timingFifo) && backlight == old(backlight)
    {
      nextFramebuffer := Some(next);
    }

    /** start_frame_xfer: switch to a queued framebuffer, then restart at its row 0. */
    method StartFrameXfer()
      requires Valid()
      modifies this
      ensures Valid()
      ensures framebuffer == (if old(nextFramebuffer).Some? then old(nextFramebuffer).value else old(framebuffer))
      ensures nextFramebuffer == None
      ensures displayRow == 0 && nextLine == Some(LineStart(width, palette != null, 0, rowShift))
      ensures timingPhase == old(timingPhase) && timingRow == old(timingRow)
      ensures timingFifo == old(timingFifo) && backlight == old(backlight)
    {
      if nextFramebuffer.Some? {
        framebuffer := nextFramebuffer.value;
        nextFramebuffer := None;
      }
      nextLine := None;
      displayRow := 0;
      nextLine := Some(0);
    }

    /** set_backlight: the level goes to the PWM. */
    method SetBacklight(brightness: nat)
      requires brightness < 256
      modifies this
      ensures backlight == BacklightLevel(brightness)
      ensures timingPhase == old(timingPhase) && timingRow == old(timingRow)
      ensures timingFifo == old(timingFifo) && displayRow == old(displayRow) && nextLine == old(nextLine)
      ensures framebuffer == old(framebuffer) && nextFramebuffer == old(nextFramebuffer)
    {
      var value;
      if brightness == 0 {
        value := 0;
      } else if brightness == 255 {
        value := BACKLIGHT_PWM_TOP;
      } else {
        value := 181 + (brightness * brightness) / 85;
      }
      backlight := value;
    }

    /** set_palette_colour (RGB): stores the packed colour; nothing happens without a palette. */
    method SetPaletteColour(entry: nat, r: bv8, g: bv8, b: bv8)
      requires Valid() && entry < 256
      modifies palette
      ensures palette != null ==>
        palette[entry] == PackRgb(r, g, b) &&
        forall i :: 0 <= i < palette.Length && i != entry ==> palette[i] == old(palette[i])
    {
      if palette == null {
        return;
      }
      palette[entry] := PackRgb(r, g, b);
    }

    /** set_palette_colour (RGB888). */
    method SetPaletteColour888(entry: nat, colour: bv32)
      requires Valid() && entry < 256
      modifies palette
      ensures palette != null ==>
        palette[entry] == PackRgb888(colour) &&
        forall i :: 0 <= i < palette.Length && i != entry ==> palette[i] == old(palette[i])
    {
      if palette == null {
        return;
      }
      palette[entry] := PackRgb888(colour);
    }
  }
}
