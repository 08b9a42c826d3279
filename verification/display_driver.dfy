/**
 * The display driver, generic in the colour type it is built for: pixel
 * packing for RGB565, RGB666 and 2-bit grey, the pixel configuration each
 * colour type selects, and the driver object that toggles the panel's pins
 * and clocks bytes out over SPI.
 */
module DisplayDriver {
  import opened Bits
  import opened Seqs
  import opened DisplayCommands
  import opened DisplayBus

  /** The colour type the driver is instantiated with. */
  datatype ColorMode = Rgb565Mode | Rgb666Mode | Gray2Mode

  datatype Color =
    | Rgb565(r: u8, g: u8, b: u8)
    | Rgb666(r: u8, g: u8, b: u8)
    | Gray2(luma: u8)

  /** The channel ranges each colour type guarantees, and the colour type the driver accepts. */
  predicate Fits(mode: ColorMode, c: Color)
  {
    match mode
    case Rgb565Mode => c.Rgb565? && c.r < 32 && c.g < 64 && c.b < 32
    case Rgb666Mode => c.Rgb666? && c.r < 64 && c.g < 64 && c.b < 64
    case Gray2Mode => c.Gray2? && c.luma < 4
  }

  /** The first RGB565 byte: red above the top three bits of green, with no overlap. */
  lemma Rgb565HighByte(r: u8, g: u8)
    requires r < 32 && g < 64
    ensures Or(r * 8, (g / 8) % 8) == r * 8 + g / 8
  {
    var hi := g / 8;
    assert Pow2(3) == 8 by {
      assert Pow2(1) == 2 && Pow2(2) == 4;
    }
    assert hi < 8 && hi % 8 == hi;
    OrDisjoint(r, hi, 3);
    assert r * Pow2(3) == r * 8;
  }

  /** Shifting green left by five keeps its low three bits in the byte. */
  lemma GreenLowShift(g: u8)
    requires g < 64
    ensures (g * 0x20) % 0x100 == (g % 8) * 0x20
  {
    var hi, lo := g / 8, g % 8;
    assert g * 0x20 == lo * 0x20 + 0x100 * hi;
    ByteSplit(lo * 0x20, hi);
  }

  /** Three bits above five: OR-ing them adds them. */
  lemma OrAboveFiveBits(lo: nat, b: nat)
    requires b < 0x20
    ensures Or(lo * 0x20, b) == lo * 0x20 + b
  {
    assert Pow2(5) == 0x20 by {
      assert Pow2(1) == 2 && Pow2(2) == 4 && Pow2(3) == 8 && Pow2(4) == 0x10;
    }
    OrDisjoint(lo, b, 5);
  }

  /** The second RGB565 byte: the low three bits of green above blue, with no overlap. */
  lemma Rgb565LowByte(g: u8, b: u8)
    requires g < 64 && b < 32
    ensures Or((g * 0x20) % 0x100, b % 0x20) == (g % 8) * 0x20 + b
  {
    GreenLowShift(g);
    assert b % 0x20 == b;
    OrAboveFiveBits(g % 8, b);
  }

  /** RGB565 on the wire: rrrrrggg gggbbbbb. */
  function Rgb565Bytes(r: u8, g: u8, b: u8): (bs: seq<u8>)
    requires r < 32 && g < 64 && b < 32
    ensures |bs| == 2 && bs[0] as int * 0x100 + bs[1] == r as int * 0x800 + g as int * 0x20 + b
  {
    Rgb565HighByte(r, g);
    Rgb565LowByte(g, b);
    assert (r * 8 + g / 8) * 0x100 + (g % 8) * 0x20 + b == r * 0x800 + g * 0x20 + b;
    [Or(r * 8, (g / 8) % 8), Or((g * 0x20) % 0x100, b % 0x20)]
  }

  /** The three channels are read back from the two RGB565 bytes. */
  lemma Rgb565Channels(r: u8, g: u8, b: u8)
    requires r < 32 && g < 64 && b < 32
    ensures Rgb565Bytes(r, g, b)[0] / 8 == r
    ensures (Rgb565Bytes(r, g, b)[0] % 8) * 8 + Rgb565Bytes(r, g, b)[1] / 0x20 == g
    ensures Rgb565Bytes(r, g, b)[1] % 0x20 == b
  {
    Rgb565HighByte(r, g);
    Rgb565LowByte(g, b);
    var bs := Rgb565Bytes(r, g, b);
    assert bs[0] == r * 8 + g / 8 && bs[1] == (g % 8) * 0x20 + b;
  }

  /** RGB666 on the wire: each 6-bit channel in the top bits of its own byte. */
  function Rgb666Bytes(r: u8, g: u8, b: u8): (bs: seq<u8>)
    requires r < 64 && g < 64 && b < 64
    ensures |bs| == 3 && bs[0] / 4 == r && bs[1] / 4 == g && bs[2] / 4 == b
    ensures bs[0] % 4 == 0 && bs[1] % 4 == 0 && bs[2] % 4 == 0
  {
    [r * 4, g * 4, b * 4]
  }

  /** The 8-bit level a 2-bit grey value stands for, before the 18-bit shift. */
  function GrayLevel(luma: u8): u8
    requires luma < 4
  {
    if luma == 0 then 0x00
    else if luma == 1 then 0x0F
    else if luma == 2 then 0xF0
    else 0xFF
  }

  /** 2-bit grey on the wire: the level shifted left by two in a byte, sent for all three channels. */
  function Gray2Bytes(luma: u8): (bs: seq<u8>)
    requires luma < 4
    ensures |bs| == 3 && bs[0] == bs[1] == bs[2]
  {
    var byte := (GrayLevel(luma) * 4) % 0x100;
    [byte, byte, byte]
  }

  /** The four grey levels as sent, brighter levels giving larger bytes. */
  lemma Gray2Levels()
    ensures Gray2Bytes(0)[0] == 0x00 && Gray2Bytes(1)[0] == 0x3C
    ensures Gray2Bytes(2)[0] == 0xC0 && Gray2Bytes(3)[0] == 0xFC
    ensures forall l: u8, m: u8 :: l < m < 4 ==> Gray2Bytes(l)[0] < Gray2Bytes(m)[0]
  {
  }

  function ColorBytes(mode: ColorMode, c: Color): (bs: seq<u8>)
    requires Fits(mode, c)
    ensures |bs| == if mode == Rgb565Mode then 2 else 3
  {
    match c
    case Rgb565(r, g, b) => Rgb565Bytes(r, g, b)
    case Rgb666(r, g, b) => Rgb666Bytes(r, g, b)
    case Gray2(luma) => Gray2Bytes(luma)
  }

  /** `set_pixel_config`: 65K colours at 16 bits per pixel for RGB565, 262K at 18 bits otherwise. */
  function PixelFormatOf(mode: ColorMode): (c: DisplayCommand)
    ensures c.InterfacePixelFormat?
  {
    if mode == Rgb565Mode then InterfacePixelFormat(Format65K, Format16bpp)
    else InterfacePixelFormat(Format262K, Format18bpp)
  }

  /** The bits per pixel the configuration announces are the bits `transmit_color` packs. */
  lemma PixelFormatMatchesPacking(mode: ColorMode, c: Color)
    requires Fits(mode, c)
    ensures PixelFormatOf(mode).control == Format16bpp <==> |ColorBytes(mode, c)| == 2
    ensures PixelFormatOf(mode).control == Format18bpp <==> |ColorBytes(mode, c)| == 3
  {
  }

  /** The commands `init` sends, in order, grouped by the driver call that sends them. */
  function InitCommands(mode: ColorMode): (cs: seq<DisplayCommand>)
    ensures |cs| == 9 && cs[2] == PixelFormatOf(mode)
  {
    [SoftwareReset] + [SleepOut] + [PixelFormatOf(mode), MemoryDataAccessControl(0)] +
    [ColumnAddressSet(0, 240), RowAddressSet(0, 240)] + [InvertOn] + [NormalModeOn] + [DisplayOn]
  }

  /**
   * The command part of `init`, grouped by the driver call that sends it:
   * SWRESET and 120 ms, SLPOUT and 5 ms, the pixel configuration, the
   * 240x240 window, INVON, NORON and DISPON.
   */
  function InitCommandSignals(mode: ColorMode): seq<Signal>
  {
    (SendSignals(DisplayCommand.SoftwareReset) + [DelayMs(120)])
    + (SendSignals(SleepOut) + [DelayMs(5)])
    + (SendSignals(PixelFormatOf(mode)) + SendSignals(MemoryDataAccessControl(0)))
    + SelectAreaSignals(0, 0, 240, 240)
    + SendSignals(InvertOn)
    + SendSignals(NormalModeOn)
    + SendSignals(DisplayOn)
  }

  /**
   * Every pin change, byte and delay `init` produces: the reset line raised,
   * the hard-reset pulse, the commands and the three backlight pins of
   * brightness 7.
   */
  function InitSignals(mode: ColorMode): seq<Signal>
  {
    [Drive(Reset, true)] + HardResetSignals() + InitCommandSignals(mode) + BrightnessSignals(7)
  }

  /** Appending to a four-element head keeps it in front, and a three-element tail ends the result. */
  lemma Bracketed<T>(head: seq<T>, middle: seq<T>, tail: seq<T>)
    requires |head| == 4 && |tail| == 3
    ensures var all := head + middle + tail;
      |all| >= 7 && all[..4] == head && all[|all| - 3..] == tail
  {
    assert (head + middle)[..4] == head;
    assert (head + middle + tail)[..4] == (head + middle)[..4];
  }

  /**
   * `init` starts by raising the reset line and pulsing it low for 10 us,
   * and ends by driving all three backlight pins low (brightness 7).
   */
  lemma InitSignalsBracketed(mode: ColorMode)
    ensures var t := InitSignals(mode);
      |t| >= 7
      && t[..4] == [Drive(Reset, true), Drive(Reset, false), DelayUs(10), Drive(Reset, true)]
      && t[|t| - 3..] == [Drive(BacklightLow, false), Drive(BacklightMid, false), Drive(BacklightHigh, false)]
  {
    FullBrightnessSignals();
    Bracketed([Drive(Reset, true)] + HardResetSignals(), InitCommandSignals(mode), BrightnessSignals(7));
  }

  /** Regrouping the pieces of the `init` trace. */
  lemma InitTraceShape(t0: seq<Signal>, reset: seq<Signal>, commands: seq<Signal>, backlight: seq<Signal>)
    ensures t0 + [Drive(Reset, true)] + reset + commands + backlight
         == t0 + ([Drive(Reset, true)] + reset + commands + backlight)
  {
  }

  /** Brightness 7 sets all three backlight bits. */  /** Brightness 7 sets all three backlight bits. */
  lemma FullBrightnessBits()
    ensures 7 % 2 == 1 && (7 / 2) % 2 == 1 && (7 / 4) % 2 == 1
  {
  }

  /** Backlight and reset levels agree: only the chip-select and command/data lines may differ. */
  predicate OnlyBusMoved(p: Pins, q: Pins)
  {
    p.backlightLow == q.backlightLow && p.backlightMid == q.backlightMid &&
    p.backlightHigh == q.backlightHigh && p.reset == q.reset
  }

  class Display {
    const mode: ColorMode
    /** The pin levels handed over at construction. */
    const initial: Pins
    /** Every pin write, SPI byte and delay, in order. */
    var trace: seq<Signal>
    /** The commands sent so far, each framed by chip select. */
    ghost var sent: seq<DisplayCommand>

    function PinLevels(): Pins
      reads this
    {
      Levels(initial, trace)
    }

    /** The panel has received exactly the encodings of the commands sent, in order. */
    ghost predicate Valid()
      reads this
    {
      Observe(initial, trace) == EncodeAll(sent)
    }

    constructor(mode: ColorMode, initial: Pins)
      ensures this.mode == mode && this.initial == initial
      ensures trace == [] && sent == [] && Valid()
    {
      this.mode := mode;
      this.initial := initial;
      trace := [];
      sent := [];
    }

    method TransmitByte(b: TransmissionByte)
      modifies this`trace
      ensures trace == old(trace) + TransmitSignals(b)
    {
      trace := trace + [Drive(CommandData, b.Data?)];
      trace := trace + [Spi(b.value)];
      Assoc(old(trace), [Drive(CommandData, b.Data?)], [Spi(b.value)]);
    }

    /** Sends the bytes of a command without touching chip select. */
    method SendNoCs(c: DisplayCommand)
      modifies this`trace
      ensures trace == old(trace) + TransmitAll(Encode(c))
    {
      var parts := Encode(c);
      var k := 0;
      while k < |parts|
        invariant 0 <= k <= |parts|
        invariant trace == old(trace) + TransmitAll(parts[..k])
      {
        TransmitByte(parts[k]);
        assert parts[..k + 1][..k] == parts[..k];
        Assoc(old(trace), TransmitAll(parts[..k]), TransmitSignals(parts[k]));
        k := k + 1;
      }
      assert parts[..k] == parts;
    }

    method Send(c: DisplayCommand)
      requires Valid()
      modifies this`trace, this`sent
      ensures trace == old(trace) + SendSignals(c)
      ensures sent == old(sent) + [c] && Valid()
      ensures PinLevels().chipSelect
      ensures OnlyBusMoved(old(PinLevels()), PinLevels())
    {
      trace := trace + [Drive(ChipSelect, false)];
      SendNoCs(c);
      trace := trace + [Drive(ChipSelect, true)];
      Assoc(old(trace), [Drive(ChipSelect, false)], TransmitAll(Encode(c)));
      Assoc(old(trace), [Drive(ChipSelect, false)] + TransmitAll(Encode(c)), [Drive(ChipSelect, true)]);
      sent := sent + [c];
      SendAfter(initial, old(trace), c);
      assert (old(sent) + [c])[..|old(sent)|] == old(sent);
    }

    /** Appends signals that carry no SPI traffic. */
    method Quiet(t: seq<Signal>)
      requires Valid() && forall i :: 0 <= i < |t| ==> !t[i].Spi?
      modifies this`trace
      ensures trace == old(trace) + t && Valid()
      ensures PinLevels() == Levels(old(PinLevels()), t)
    {
      trace := trace + t;
      QuietAfter(initial, old(trace), t);
    }

    method SetSleep(value: bool)
      requires Valid()
      modifies this`trace, this`sent
      ensures trace == old(trace) + SendSignals(if value then SleepIn else SleepOut) + [DelayMs(5)]
      ensures sent == old(sent) + [if value then SleepIn else SleepOut] && Valid()
      ensures PinLevels().chipSelect
      ensures OnlyBusMoved(old(PinLevels()), PinLevels())
    {
      if value {
        Send(SleepIn);
      } else {
        Send(SleepOut);
      }
      DelayKeepsLevels(PinLevels(), DelayMs(5));
      Quiet([DelayMs(5)]);
    }

    method SetInvert(value: bool)
      requires Valid()
      modifies this`trace, this`sent
      ensures trace == old(trace) + SendSignals(if value then InvertOn else InvertOff)
      ensures sent == old(sent) + [if value then InvertOn else InvertOff] && Valid()
      ensures PinLevels().chipSelect
      ensures OnlyBusMoved(old(PinLevels()), PinLevels())
    {
      if value {
        Send(InvertOn);
      } else {
        Send(InvertOff);
      }
    }

    method SetDisplayOn(value: bool)
      requires Valid()
      modifies this`trace, this`sent
      ensures trace == old(trace) + SendSignals(if value then DisplayOn else DisplayOff)
      ensures sent == old(sent) + [if value then DisplayOn else DisplayOff] && Valid()
      ensures PinLevels().chipSelect
      ensures OnlyBusMoved(old(PinLevels()), PinLevels())
    {
      if value {
        Send(DisplayOn);
      } else {
        Send(DisplayOff);
      }
    }

    method SetBrightness(value: u8)
      requires Valid()
      modifies this`trace
      ensures trace == old(trace) + BrightnessSignals(value) && Valid()
      ensures PinLevels().backlightLow <==> value % 2 == 0
      ensures PinLevels().backlightMid <==> (value / 2) % 2 == 0
      ensures PinLevels().backlightHigh <==> (value / 4) % 2 == 0
      ensures PinLevels().reset == old(PinLevels()).reset && PinLevels().chipSelect == old(PinLevels()).chipSelect
      ensures PinLevels().commandData == old(PinLevels()).commandData
    {
      BrightnessLevels(PinLevels(), value);
      Quiet(BrightnessSignals(value));
    }

    method SoftwareReset()
      requires Valid()
      modifies this`trace, this`sent
      ensures trace == old(trace) + SendSignals(DisplayCommand.SoftwareReset) + [DelayMs(120)]
      ensures sent == old(sent) + [DisplayCommand.SoftwareReset] && Valid()
      ensures PinLevels().chipSelect
      ensures OnlyBusMoved(old(PinLevels()), PinLevels())
    {
      Send(DisplayCommand.SoftwareReset);
      DelayKeepsLevels(PinLevels(), DelayMs(120));
      Quiet([DelayMs(120)]);
    }

    method HardReset()
      requires Valid()
      modifies this`trace
      ensures trace == old(trace) + HardResetSignals() && Valid()
      ensures PinLevels() == old(PinLevels()).(reset := true)
    {
      HardResetLevels(PinLevels());
      Quiet(HardResetSignals());
    }

    method SetMemoryDataAccessControl(config: u8)
      requires Valid()
      modifies this`trace, this`sent
      ensures trace == old(trace) + SendSignals(MemoryDataAccessControl(config))
      ensures sent == old(sent) + [MemoryDataAccessControl(config)] && Valid()
      ensures PinLevels().chipSelect
      ensures OnlyBusMoved(old(PinLevels()), PinLevels())
    {
      Send(MemoryDataAccessControl(config));
    }

    method SetInterfacePixelFormat(r: RgbPixelFormat, f: ControlPixelFormat)
      requires Valid()
      modifies this`trace, this`sent
      ensures trace == old(trace) + SendSignals(InterfacePixelFormat(r, f))
      ensures sent == old(sent) + [InterfacePixelFormat(r, f)] && Valid()
      ensures PinLevels().chipSelect
      ensures OnlyBusMoved(old(PinLevels()), PinLevels())
    {
      Send(InterfacePixelFormat(r, f));
    }

    /** Selects the drawing window: columns first, then rows. */
    method SelectArea(startRow: u16, startCol: u16, endRow: u16, endCol: u16)
      requires Valid()
      modifies this`trace, this`sent
      ensures trace == old(trace) + SelectAreaSignals(startRow, startCol, endRow, endCol)
      ensures sent == old(sent) + [ColumnAddressSet(startCol, endCol), RowAddressSet(startRow, endRow)] && Valid()
      ensures PinLevels().chipSelect
      ensures OnlyBusMoved(old(PinLevels()), PinLevels())
    {
      Send(ColumnAddressSet(startCol, endCol));
      Send(RowAddressSet(startRow, endRow));
      Assoc(old(trace), SendSignals(ColumnAddressSet(startCol, endCol)), SendSignals(RowAddressSet(startRow, endRow)));
    }

    method SetPixelConfig()
      requires Valid()
      modifies this`trace, this`sent
      ensures trace == old(trace) + SendSignals(PixelFormatOf(mode)) + SendSignals(MemoryDataAccessControl(0))
      ensures sent == old(sent) + [PixelFormatOf(mode), MemoryDataAccessControl(0)] && Valid()
      ensures PinLevels().chipSelect
      ensures OnlyBusMoved(old(PinLevels()), PinLevels())
    {
      var f := PixelFormatOf(mode);
      SetInterfacePixelFormat(f.rgb, f.control);
      SetMemoryDataAccessControl(0);
    }

    /**
     * Sends one pixel as data bytes, without touching chip select: two bytes
     * for RGB565, three for the other colour types.
     */
    method TransmitColor(c: Color)
      requires Fits(mode, c)
      modifies this`trace
      ensures trace == old(trace) + TransmitAll(DataBytes(ColorBytes(mode, c)))
    {
      var bs := ColorBytes(mode, c);
      ghost var ds := DataBytes(bs);
      TransmitByte(Data(bs[0]));
      assert ds[..1][..0] == [];
      assert trace == old(trace) + TransmitAll(ds[..1]);
      TransmitByte(Data(bs[1]));
      assert ds[..2][..1] == ds[..1];
      Assoc(old(trace), TransmitAll(ds[..1]), TransmitSignals(ds[1]));
      if mode != Rgb565Mode {
        TransmitByte(Data(bs[2]));
        assert ds[..3][..2] == ds[..2];
        Assoc(old(trace), TransmitAll(ds[..2]), TransmitSignals(ds[2]));
        assert ds == ds[..3];
      } else {
        assert ds == ds[..2];
      }
    }

    /**
     * Brings the panel up: reset line high, hard reset, software reset,
     * sleep out, pixel configuration, the whole 240x240 window, inversion
     * on, normal mode, display on and full brightness.
     */
    method Init()
      requires Valid()
      modifies this`trace, this`sent
      ensures trace == old(trace) + InitSignals(mode)
      ensures sent == old(sent) + InitCommands(mode) && Valid()
      ensures PinLevels().reset && PinLevels().chipSelect
      ensures !PinLevels().backlightLow && !PinLevels().backlightMid && !PinLevels().backlightHigh
    {
      ghost var t0 := trace;
      Quiet([Drive(Reset, true)]);
      assert [Drive(Reset, true)][1..] == [];
      HardReset();
      ghost var t1 := trace;
      ghost var s0 := sent;
      SoftwareReset();
      ghost var log := SendSignals(DisplayCommand.SoftwareReset) + [DelayMs(120)];
      Assoc(t1, SendSignals(DisplayCommand.SoftwareReset), [DelayMs(120)]);
      ghost var done := [DisplayCommand.SoftwareReset];
      SetSleep(false);
      ghost var step := SendSignals(SleepOut) + [DelayMs(5)];
      Assoc(t1 + log, SendSignals(SleepOut), [DelayMs(5)]);
      Assoc(t1, log, step);
      log := log + step;
      Assoc(s0, done, [SleepOut]);
      done := done + [SleepOut];
      SetPixelConfig();
      step := SendSignals(PixelFormatOf(mode)) + SendSignals(MemoryDataAccessControl(0));
      Assoc(t1 + log, SendSignals(PixelFormatOf(mode)), SendSignals(MemoryDataAccessControl(0)));
      Assoc(t1, log, step);
      log := log + step;
      Assoc(s0, done, [PixelFormatOf(mode), MemoryDataAccessControl(0)]);
      done := done + [PixelFormatOf(mode), MemoryDataAccessControl(0)];
      SelectArea(0, 0, 240, 240);
      Assoc(t1, log, SelectAreaSignals(0, 0, 240, 240));
      log := log + SelectAreaSignals(0, 0, 240, 240);
      Assoc(s0, done, [ColumnAddressSet(0, 240), RowAddressSet(0, 240)]);
      done := done + [ColumnAddressSet(0, 240), RowAddressSet(0, 240)];
      SetInvert(true);
      Assoc(t1, log, SendSignals(InvertOn));
      log := log + SendSignals(InvertOn);
      Assoc(s0, done, [InvertOn]);
      done := done + [InvertOn];
      SetNormalMode();
      Assoc(t1, log, SendSignals(NormalModeOn));
      log := log + SendSignals(NormalModeOn);
      Assoc(s0, done, [NormalModeOn]);
      done := done + [NormalModeOn];
      SetDisplayOn(true);
      Assoc(t1, log, SendSignals(DisplayOn));
      log := log + SendSignals(DisplayOn);
      Assoc(s0, done, [DisplayOn]);
      done := done + [DisplayOn];
      assert log == InitCommandSignals(mode);
      FullBrightnessBits();
      SetBrightness(7);
      InitTraceShape(t0, HardResetSignals(), log, BrightnessSignals(7));
    }

    method SetNormalMode()
      requires Valid()
      modifies this`trace, this`sent
      ensures trace == old(trace) + SendSignals(NormalModeOn)
      ensures sent == old(sent) + [NormalModeOn] && Valid()
      ensures PinLevels().chipSelect
      ensures OnlyBusMoved(old(PinLevels()), PinLevels())
    {
      Send(NormalModeOn);
    }
  }
}
