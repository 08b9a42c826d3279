/**
 * The first display driver, fixed to RGB565: its own copy of the ST7789
 * command set and encoder, the same pin and SPI framing as the generic
 * driver, and `draw_iter`, which draws each pixel inside the 240x240
 * panel as a one-pixel window followed by a RAM write.
 */
module LegacyDisplay {
  import opened Bits
  import opened Seqs
  import DC = DisplayCommands
  import DB = DisplayBus
  import DD = DisplayDriver

  /** This copy of the RGB interface format has no 4K variant. */
  datatype RgbPixelFormat = Format65K | Format262K

  function RgbCode(f: RgbPixelFormat): u8
  {
    match f
    case Format65K => 0x5
    case Format262K => 0x6
  }

  datatype Command =
    | SleepIn
    | SleepOut
    | InvertOff
    | InvertOn
    | DisplayOn
    | DisplayOff
    | ColumnAddressSet(first: u16, last: u16)
    | RowAddressSet(first: u16, last: u16)
    | StartRamWrite
    | RamWrite(pixels: seq<u8>)
    | SoftwareReset
    | MemoryDataAccessControl(config: u8)
    | InterfacePixelFormat(rgb: RgbPixelFormat, control: DC.ControlPixelFormat)
    | NormalModeOn
    | WriteBrightness(brightness: u8)

  /** A 16-bit address as the encoder writes it: the high byte, then the low byte. */
  function AddressBytes(v: u16): seq<DC.TransmissionByte>
  {
    [DC.Data(v / 0x100), DC.Data(v % 0x100)]
  }

  /** This module's own command encoder. */
  function Encode(c: Command): (bs: seq<DC.TransmissionByte>)
    ensures |bs| >= 1 && bs[0].Command?
  {
    match c
    case SleepIn => [DC.Command(0x10)]
    case SleepOut => [DC.Command(0x11)]
    case InvertOff => [DC.Command(0x20)]
    case InvertOn => [DC.Command(0x21)]
    case DisplayOff => [DC.Command(0x28)]
    case DisplayOn => [DC.Command(0x29)]
    case ColumnAddressSet(s, e) => [DC.Command(0x2A)] + AddressBytes(s) + AddressBytes(e)
    case RowAddressSet(s, e) => [DC.Command(0x2B)] + AddressBytes(s) + AddressBytes(e)
    case StartRamWrite => [DC.Command(0x2C)]
    case RamWrite(v) => [DC.Command(0x2C)] + seq(|v|, i requires 0 <= i < |v| => DC.Data(v[i]))
    case SoftwareReset => [DC.Command(0x01)]
    case MemoryDataAccessControl(config) => [DC.Command(0x36), DC.Data(config)]
    case InterfacePixelFormat(r, f) =>
      assert Pow2(4) == 0x10;
      OrDisjoint(RgbCode(r), DC.ControlCode(f), 4);
      [DC.Command(0x3A), DC.Data(Or(RgbCode(r) * 0x10, DC.ControlCode(f)))]
    case NormalModeOn => [DC.Command(0x13)]
    case WriteBrightness(b) => [DC.Command(0x51), DC.Data(b)]
  }

  /** The same command in the shared command set. */
  function Lift(c: Command): DC.DisplayCommand
  {
    match c
    case SleepIn => DC.SleepIn
    case SleepOut => DC.SleepOut
    case InvertOff => DC.InvertOff
    case InvertOn => DC.InvertOn
    case DisplayOn => DC.DisplayOn
    case DisplayOff => DC.DisplayOff
    case ColumnAddressSet(s, e) => DC.ColumnAddressSet(s, e)
    case RowAddressSet(s, e) => DC.RowAddressSet(s, e)
    case StartRamWrite => DC.StartRamWrite
    case RamWrite(v) => DC.RamWrite(v)
    case SoftwareReset => DC.SoftwareReset
    case MemoryDataAccessControl(config) => DC.MemoryDataAccessControl(config)
    case InterfacePixelFormat(r, f) =>
      DC.InterfacePixelFormat(if r == Format65K then DC.Format65K else DC.Format262K, f)
    case NormalModeOn => DC.NormalModeOn
    case WriteBrightness(b) => DC.WriteBrightness(b)
  }

  /** The two encoders agree on every command this copy can express. */
  lemma EncodeAgrees(c: Command)
    ensures Encode(c) == DC.Encode(Lift(c))
  {
    match c
    case ColumnAddressSet(s, e) =>
      assert AddressBytes(s) == DC.BigEndian(s) && AddressBytes(e) == DC.BigEndian(e);
    case RowAddressSet(s, e) =>
      assert AddressBytes(s) == DC.BigEndian(s) && AddressBytes(e) == DC.BigEndian(e);
    case RamWrite(v) =>
      assert Encode(c)[1..] == DC.DataBytes(v);
    case InterfacePixelFormat(r, f) =>
      assert DC.RgbCode(Lift(c).rgb) == RgbCode(r);
    case _ =>
  }

  /** Only the 4K format of the shared command set has no counterpart here. */
  lemma LiftCovers(d: DC.DisplayCommand)
    requires !(d.InterfacePixelFormat? && d.rgb == DC.Format4K)
    ensures exists c :: Lift(c) == d
  {
    match d
    case SleepIn => assert Lift(SleepIn) == d;
    case SleepOut => assert Lift(SleepOut) == d;
    case InvertOff => assert Lift(InvertOff) == d;
    case InvertOn => assert Lift(InvertOn) == d;
    case DisplayOn => assert Lift(DisplayOn) == d;
    case DisplayOff => assert Lift(DisplayOff) == d;
    case ColumnAddressSet(s, e) => assert Lift(ColumnAddressSet(s, e)) == d;
    case RowAddressSet(s, e) => assert Lift(RowAddressSet(s, e)) == d;
    case StartRamWrite => assert Lift(StartRamWrite) == d;
    case RamWrite(v) => assert Lift(RamWrite(v)) == d;
    case SoftwareReset => assert Lift(SoftwareReset) == d;
    case MemoryDataAccessControl(x) => assert Lift(MemoryDataAccessControl(x)) == d;
    case InterfacePixelFormat(r, f) =>
      var l := if r == DC.Format65K then Format65K else Format262K;
      assert Lift(InterfacePixelFormat(l, f)) == d;
    case NormalModeOn => assert Lift(NormalModeOn) == d;
    case WriteBrightness(b) => assert Lift(WriteBrightness(b)) == d;
  }

  /** The panel is 240 by 240 pixels with its origin at the top left. */
  const Width: int := 240
  const Height: int := 240

  /** An RGB565 colour: 5 bits of red, 6 of green, 5 of blue. */
  datatype Rgb565 = Rgb565(r: u8, g: u8, b: u8)

  predicate ValidColor(c: Rgb565)
  {
    c.r < 32 && c.g < 64 && c.b < 32
  }

  datatype Pixel = Pixel(x: int, y: int, color: Rgb565)

  /** The bounding box check `draw_iter` applies to each pixel. */
  predicate InBox(p: Pixel)
  {
    0 <= p.x < Width && 0 <= p.y < Height
  }

  /** The colour as a big-endian 16-bit value rrrrrggg gggbbbbb. */
  function BigEndianBytes(c: Rgb565): (bs: seq<u8>)
    requires ValidColor(c)
    ensures |bs| == 2
  {
    var raw := c.r * 0x800 + c.g * 0x20 + c.b;
    [raw / 0x100, raw % 0x100]
  }

  /** The colour bytes `draw_iter` sends are the bytes the generic driver sends for the same colour. */
  lemma BigEndianMatchesDriver(c: Rgb565)
    requires ValidColor(c)
    ensures BigEndianBytes(c) == DD.Rgb565Bytes(c.r, c.g, c.b)
  {
    var d := DD.Rgb565Bytes(c.r, c.g, c.b);
    ByteSplit(d[1], d[0]);
  }

  /** The commands that draw one pixel: nothing outside the panel, else a one-pixel window and its colour. */
  function PixelCommands(p: Pixel): (cs: seq<DC.DisplayCommand>)
    requires ValidColor(p.color)
    ensures InBox(p) ==> |cs| == 3 && cs[0].ColumnAddressSet? && cs[1].RowAddressSet?
    ensures !InBox(p) ==> cs == []
  {
    if InBox(p) then
      [DC.ColumnAddressSet(p.x, p.x + 1), DC.RowAddressSet(p.y, p.y + 1), DC.RamWrite(BigEndianBytes(p.color))]
    else []
  }

  predicate ValidPixels(ps: seq<Pixel>)
  {
    forall i :: 0 <= i < |ps| ==> ValidColor(ps[i].color)
  }

  function DrawCommands(ps: seq<Pixel>): seq<DC.DisplayCommand>
    requires ValidPixels(ps)
    decreases |ps|
  {
    if ps == [] then [] else DrawCommands(ps[..|ps| - 1]) + PixelCommands(ps[|ps| - 1])
  }

  function InBoxOnly(ps: seq<Pixel>): (qs: seq<Pixel>)
    ensures |qs| <= |ps|
    ensures forall i :: 0 <= i < |qs| ==> InBox(qs[i]) && qs[i] in ps
    decreases |ps|
  {
    if ps == [] then []
    else if InBox(ps[|ps| - 1]) then InBoxOnly(ps[..|ps| - 1]) + [ps[|ps| - 1]]
    else InBoxOnly(ps[..|ps| - 1])
  }

  /**
   * Pixels outside the panel leave no trace: drawing a list draws the same
   * commands as drawing only its pixels inside the panel, three per pixel.
   */
  lemma {:induction false} DrawOnlyInBox(ps: seq<Pixel>)
    requires ValidPixels(ps)
    ensures ValidPixels(InBoxOnly(ps))
    ensures DrawCommands(ps) == DrawCommands(InBoxOnly(ps))
    ensures |DrawCommands(ps)| == 3 * |InBoxOnly(ps)|
    decreases |ps|
  {
    if ps != [] {
      var init, p := ps[..|ps| - 1], ps[|ps| - 1];
      DrawOnlyInBox(init);
      var q := InBoxOnly(init);
      if InBox(p) {
        assert (q + [p])[..|q + [p]| - 1] == q;
      }
    }
  }

  /** The two configuration commands `init` sends one by one are the generic driver's RGB565 pixel configuration. */
  lemma PixelConfigChunk()
    ensures [DC.InterfacePixelFormat(DC.Format65K, DC.Format16bpp)] + [DC.MemoryDataAccessControl(0)]
            == [DD.PixelFormatOf(DD.Rgb565Mode), DC.MemoryDataAccessControl(0)]
  {
  }

  class Display {
    const initial: DB.Pins
    var trace: seq<DB.Signal>
    ghost var sent: seq<DC.DisplayCommand>

    function PinLevels(): DB.Pins
      reads this
    {
      DB.Levels(initial, trace)
    }

    /** The panel has received exactly the encodings of the commands sent, in order. */
    ghost predicate Valid()
      reads this
    {
      DB.Observe(initial, trace) == DC.EncodeAll(sent)
    }

    constructor(initial: DB.Pins)
      ensures this.initial == initial && trace == [] && sent == [] && Valid()
    {
      this.initial := initial;
      trace := [];
      sent := [];
    }

    method TransmitByte(b: DC.TransmissionByte)
      modifies this`trace
      ensures trace == old(trace) + DB.TransmitSignals(b)
    {
      trace := trace + [DB.Drive(DB.CommandData, b.Data?)];
      trace := trace + [DB.Spi(b.value)];
      Assoc(old(trace), [DB.Drive(DB.CommandData, b.Data?)], [DB.Spi(b.value)]);
    }

    method SendNoCs(c: Command)
      modifies this`trace
      ensures trace == old(trace) + DB.TransmitAll(DC.Encode(Lift(c)))
    {
      var parts := Encode(c);
      EncodeAgrees(c);
      var k := 0;
      while k < |parts|
        invariant 0 <= k <= |parts|
        invariant trace == old(trace) + DB.TransmitAll(parts[..k])
      {
        TransmitByte(parts[k]);
        assert parts[..k + 1][..k] == parts[..k];
        Assoc(old(trace), DB.TransmitAll(parts[..k]), DB.TransmitSignals(parts[k]));
        k := k + 1;
      }
      assert parts[..k] == parts;
    }

    method Send(c: Command)
      requires Valid()
      modifies this`trace, this`sent
      ensures trace == old(trace) + DB.SendSignals(Lift(c))
      ensures sent == old(sent) + [Lift(c)] && Valid()
      ensures PinLevels().chipSelect && DD.OnlyBusMoved(old(PinLevels()), PinLevels())
    {
      var d := Lift(c);
      trace := trace + [DB.Drive(DB.ChipSelect, false)];
      SendNoCs(c);
      trace := trace + [DB.Drive(DB.ChipSelect, true)];
      Assoc(old(trace), [DB.Drive(DB.ChipSelect, false)], DB.TransmitAll(DC.Encode(d)));
      Assoc(old(trace), [DB.Drive(DB.ChipSelect, false)] + DB.TransmitAll(DC.Encode(d)), [DB.Drive(DB.ChipSelect, true)]);
      sent := sent + [d];
      DB.SendAfter(initial, old(trace), d);
      assert (old(sent) + [d])[..|old(sent)|] == old(sent);
    }

    method Quiet(t: seq<DB.Signal>)
      requires Valid() && forall i :: 0 <= i < |t| ==> !t[i].Spi?
      modifies this`trace
      ensures trace == old(trace) + t && Valid()
      ensures PinLevels() == DB.Levels(old(PinLevels()), t)
    {
      trace := trace + t;
      DB.QuietAfter(initial, old(trace), t);
    }

    method SetSleep(value: bool)
      requires Valid()
      modifies this`trace, this`sent
      ensures trace == old(trace) + DB.SendSignals(if value then DC.SleepIn else DC.SleepOut) + [DB.DelayMs(5)]
      ensures sent == old(sent) + [if value then DC.SleepIn else DC.SleepOut] && Valid()
      ensures PinLevels().chipSelect && DD.OnlyBusMoved(old(PinLevels()), PinLevels())
    {
      if value {
        Send(SleepIn);
      } else {
        Send(SleepOut);
      }
      DB.DelayKeepsLevels(PinLevels(), DB.DelayMs(5));
      Quiet([DB.DelayMs(5)]);
    }

    method SetInvert(value: bool)
      requires Valid()
      modifies this`trace, this`sent
      ensures trace == old(trace) + DB.SendSignals(if value then DC.InvertOn else DC.InvertOff)
      ensures sent == old(sent) + [if value then DC.InvertOn else DC.InvertOff] && Valid()
      ensures PinLevels().chipSelect && DD.OnlyBusMoved(old(PinLevels()), PinLevels())
    {
      if value {
        Send(InvertOn);
      } else {
        Send(InvertOff);
      }
    }

    method SetDisplayOn(value: bool)
      requires Valid()
      modifies this`trace, this`sent
      ensures trace == old(trace) + DB.SendSignals(if value then DC.DisplayOn else DC.DisplayOff)
      ensures sent == old(sent) + [if value then DC.DisplayOn else DC.DisplayOff] && Valid()
      ensures PinLevels().chipSelect && DD.OnlyBusMoved(old(PinLevels()), PinLevels())
    {
      if value {
        Send(DisplayOn);
      } else {
        Send(DisplayOff);
      }
    }

    method SetNormalMode()
      requires Valid()
      modifies this`trace, this`sent
      ensures trace == old(trace) + DB.SendSignals(DC.NormalModeOn)
      ensures sent == old(sent) + [DC.NormalModeOn] && Valid()
      ensures PinLevels().chipSelect && DD.OnlyBusMoved(old(PinLevels()), PinLevels())
    {
      Send(NormalModeOn);
    }

    method SetBrightness(value: u8)
      requires Valid()
      modifies this`trace
      ensures trace == old(trace) + DB.BrightnessSignals(value) && Valid()
      ensures PinLevels().backlightLow <==> value % 2 == 0
      ensures PinLevels().backlightMid <==> (value / 2) % 2 == 0
      ensures PinLevels().backlightHigh <==> (value / 4) % 2 == 0
      ensures PinLevels().reset == old(PinLevels()).reset && PinLevels().chipSelect == old(PinLevels()).chipSelect
    {
      DB.BrightnessLevels(PinLevels(), value);
      Quiet(DB.BrightnessSignals(value));
    }

    method SoftwareReset()
      requires Valid()
      modifies this`trace, this`sent
      ensures trace == old(trace) + DB.SendSignals(DC.SoftwareReset) + [DB.DelayMs(120)]
      ensures sent == old(sent) + [DC.SoftwareReset] && Valid()
      ensures PinLevels().chipSelect && DD.OnlyBusMoved(old(PinLevels()), PinLevels())
    {
      Send(Command.SoftwareReset);
      DB.DelayKeepsLevels(PinLevels(), DB.DelayMs(120));
      Quiet([DB.DelayMs(120)]);
    }

    method HardReset()
      requires Valid()
      modifies this`trace
      ensures trace == old(trace) + DB.HardResetSignals() && Valid()
      ensures PinLevels() == old(PinLevels()).(reset := true)
    {
      DB.HardResetLevels(PinLevels());
      Quiet(DB.HardResetSignals());
    }

    method SetMemoryDataAccessControl(config: u8)
      requires Valid()
      modifies this`trace, this`sent
      ensures trace == old(trace) + DB.SendSignals(DC.MemoryDataAccessControl(config))
      ensures sent == old(sent) + [DC.MemoryDataAccessControl(config)] && Valid()
      ensures PinLevels().chipSelect && DD.OnlyBusMoved(old(PinLevels()), PinLevels())
    {
      Send(MemoryDataAccessControl(config));
    }

    method SetInterfacePixelFormat(r: RgbPixelFormat, f: DC.ControlPixelFormat)
      requires Valid()
      modifies this`trace, this`sent
      ensures trace == old(trace) + DB.SendSignals(DC.InterfacePixelFormat(if r == Format65K then DC.Format65K else DC.Format262K, f))
      ensures sent == old(sent) + [DC.InterfacePixelFormat(if r == Format65K then DC.Format65K else DC.Format262K, f)]
      ensures Valid()
      ensures PinLevels().chipSelect && DD.OnlyBusMoved(old(PinLevels()), PinLevels())
    {
      Send(InterfacePixelFormat(r, f));
    }

    /** Selects the drawing window: columns first, then rows. */
    method SelectArea(startRow: u16, startCol: u16, endRow: u16, endCol: u16)
      requires Valid()
      modifies this`trace, this`sent
      ensures trace == old(trace) + DB.SelectAreaSignals(startRow, startCol, endRow, endCol)
      ensures sent == old(sent) + [DC.ColumnAddressSet(startCol, endCol), DC.RowAddressSet(startRow, endRow)] && Valid()
      ensures PinLevels().chipSelect && DD.OnlyBusMoved(old(PinLevels()), PinLevels())
    {
      Send(ColumnAddressSet(startCol, endCol));
      Send(RowAddressSet(startRow, endRow));
      Assoc(old(trace), DB.SendSignals(DC.ColumnAddressSet(startCol, endCol)),
            DB.SendSignals(DC.RowAddressSet(startRow, endRow)));
    }

    /** The same bring-up as the generic driver built for RGB565, command for command. */
    method Init()
      requires Valid()
      modifies this`trace, this`sent
      ensures trace == old(trace) + DD.InitSignals(DD.Rgb565Mode)
      ensures sent == old(sent) + DD.InitCommands(DD.Rgb565Mode) && Valid()
      ensures PinLevels().reset && PinLevels().chipSelect
      ensures !PinLevels().backlightLow && !PinLevels().backlightMid && !PinLevels().backlightHigh
    {
      ghost var t0 := trace;
      Quiet([DB.Drive(DB.Reset, true)]);
      assert [DB.Drive(DB.Reset, true)][1..] == [];
      HardReset();
      ghost var t1 := trace;
      ghost var s0 := sent;
      SoftwareReset();
      ghost var log := DB.SendSignals(DC.SoftwareReset) + [DB.DelayMs(120)];
      Assoc(t1, DB.SendSignals(DC.SoftwareReset), [DB.DelayMs(120)]);
      ghost var done := [DC.SoftwareReset];
      SetSleep(false);
      ghost var step := DB.SendSignals(DC.SleepOut) + [DB.DelayMs(5)];
      Assoc(t1 + log, DB.SendSignals(DC.SleepOut), [DB.DelayMs(5)]);
      Assoc(t1, log, step);
      log := log + step;
      Assoc(s0, done, [DC.SleepOut]);
      done := done + [DC.SleepOut];
      SetInterfacePixelFormat(Format65K, DC.Format16bpp);
      SetMemoryDataAccessControl(0);
      PixelConfigChunk();
      assert DD.PixelFormatOf(DD.Rgb565Mode) == DC.InterfacePixelFormat(DC.Format65K, DC.Format16bpp);
      step := DB.SendSignals(DD.PixelFormatOf(DD.Rgb565Mode)) + DB.SendSignals(DC.MemoryDataAccessControl(0));
      Assoc(t1 + log, DB.SendSignals(DD.PixelFormatOf(DD.Rgb565Mode)), DB.SendSignals(DC.MemoryDataAccessControl(0)));
      Assoc(t1, log, step);
      log := log + step;
      Assoc(s0 + done, [DC.InterfacePixelFormat(DC.Format65K, DC.Format16bpp)], [DC.MemoryDataAccessControl(0)]);
      Assoc(s0, done, [DD.PixelFormatOf(DD.Rgb565Mode), DC.MemoryDataAccessControl(0)]);
      done := done + [DD.PixelFormatOf(DD.Rgb565Mode), DC.MemoryDataAccessControl(0)];
      SelectArea(0, 0, 240, 240);
      Assoc(t1, log, DB.SelectAreaSignals(0, 0, 240, 240));
      log := log + DB.SelectAreaSignals(0, 0, 240, 240);
      Assoc(s0, done, [DC.ColumnAddressSet(0, 240), DC.RowAddressSet(0, 240)]);
      done := done + [DC.ColumnAddressSet(0, 240), DC.RowAddressSet(0, 240)];
      SetInvert(true);
      Assoc(t1, log, DB.SendSignals(DC.InvertOn));
      log := log + DB.SendSignals(DC.InvertOn);
      Assoc(s0, done, [DC.InvertOn]);
      done := done + [DC.InvertOn];
      SetNormalMode();
      Assoc(t1, log, DB.SendSignals(DC.NormalModeOn));
      log := log + DB.SendSignals(DC.NormalModeOn);
      Assoc(s0, done, [DC.NormalModeOn]);
      done := done + [DC.NormalModeOn];
      SetDisplayOn(true);
      Assoc(t1, log, DB.SendSignals(DC.DisplayOn));
      log := log + DB.SendSignals(DC.DisplayOn);
      Assoc(s0, done, [DC.DisplayOn]);
      done := done + [DC.DisplayOn];
      assert log == DD.InitCommandSignals(DD.Rgb565Mode);
      DD.FullBrightnessBits();
      SetBrightness(7);
      DD.InitTraceShape(t0, DB.HardResetSignals(), log, DB.BrightnessSignals(7));
    }

    /** The body of `draw_iter` for one pixel: a one-pixel window and a RAM write, only inside the panel. */
    method DrawPixel(p: Pixel)
      requires Valid() && ValidColor(p.color)
      modifies this`trace, this`sent
      ensures sent == old(sent) + PixelCommands(p) && Valid()
      ensures DD.OnlyBusMoved(old(PinLevels()), PinLevels())
    {
      if InBox(p) {
        var col: u16, row: u16 := p.x, p.y;
        var bytes := BigEndianBytes(p.color);
        var window := [DC.ColumnAddressSet(col, col + 1), DC.RowAddressSet(row, row + 1)];
        assert window + [DC.RamWrite(bytes)] == PixelCommands(p);
        SelectArea(row, col, row + 1, col + 1);
        Send(RamWrite(bytes));
        Assoc(old(sent), window, [DC.RamWrite(bytes)]);
      } else {
        assert sent + PixelCommands(p) == sent;
      }
    }

    /** Draws each pixel inside the panel as a one-pixel window and a RAM write; the rest are skipped. */
    method DrawIter(pixels: seq<Pixel>)
      requires Valid() && ValidPixels(pixels)
      modifies this`trace, this`sent
      ensures sent == old(sent) + DrawCommands(pixels) && Valid()
      ensures DD.OnlyBusMoved(old(PinLevels()), PinLevels())
    {
      var k := 0;
      while k < |pixels|
        invariant 0 <= k <= |pixels|
        invariant sent == old(sent) + DrawCommands(pixels[..k]) && Valid()
        invariant DD.OnlyBusMoved(old(PinLevels()), PinLevels())
      {
        DrawPixel(pixels[k]);
        assert pixels[..k + 1][..k] == pixels[..k];
        Assoc(old(sent), DrawCommands(pixels[..k]), PixelCommands(pixels[k]));
        k := k + 1;
      }
      assert pixels[..k] == pixels;
    }
  }
}
