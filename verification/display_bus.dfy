/**
 * The wires between the watch and its display panel. Every pin write,
 * SPI byte and delay is a `Signal`; a run of the driver is the sequence of
 * signals it produces. `Levels` gives the pin levels a sequence leaves
 * behind, and `Observe` gives what the panel receives: each SPI byte
 * clocked while chip select is low, read as a command or a data byte
 * according to the command/data line.
 */
module DisplayBus {
  import opened Bits
  import opened Seqs
  import opened DisplayCommands

  datatype Pin = BacklightLow | BacklightMid | BacklightHigh | Reset | CommandData | ChipSelect

  /** Output levels of the display pins; true is high. */
  datatype Pins = Pins(
    backlightLow: bool,
    backlightMid: bool,
    backlightHigh: bool,
    reset: bool,
    commandData: bool,
    chipSelect: bool)

  datatype Signal =
    | Drive(pin: Pin, high: bool)
    | Spi(byte: u8)
    | DelayMs(ms: nat)
    | DelayUs(us: nat)

  function SetPin(p: Pins, pin: Pin, high: bool): Pins
  {
    match pin
    case BacklightLow => p.(backlightLow := high)
    case BacklightMid => p.(backlightMid := high)
    case BacklightHigh => p.(backlightHigh := high)
    case Reset => p.(reset := high)
    case CommandData => p.(commandData := high)
    case ChipSelect => p.(chipSelect := high)
  }

  function Step(p: Pins, s: Signal): Pins
  {
    if s.Drive? then SetPin(p, s.pin, s.high) else p
  }

  /** The pin levels after the signals `t`, starting from `p`. */
  function Levels(p: Pins, t: seq<Signal>): Pins
    decreases |t|
  {
    if t == [] then p else Levels(Step(p, t[0]), t[1..])
  }

  /** What the panel latches from one signal given the current pin levels. */
  function Latched(p: Pins, s: Signal): seq<TransmissionByte>
  {
    if s.Spi? && !p.chipSelect then
      [if p.commandData then Data(s.byte) else Command(s.byte)]
    else []
  }

  /** Everything the panel receives from the signals `t`, starting from `p`. */
  function Observe(p: Pins, t: seq<Signal>): seq<TransmissionByte>
    decreases |t|
  {
    if t == [] then [] else Latched(p, t[0]) + Observe(Step(p, t[0]), t[1..])
  }

  lemma {:induction false} LevelsAppend(p: Pins, a: seq<Signal>, b: seq<Signal>)
    ensures Levels(p, a + b) == Levels(Levels(p, a), b)
    decreases |a|
  {
    if a == [] {
      assert a + b == b;
    } else {
      assert (a + b)[1..] == a[1..] + b;
      LevelsAppend(Step(p, a[0]), a[1..], b);
    }
  }

  /** Observing two runs one after the other is observing each from where the first left the pins. */
  lemma {:induction false} ObserveAppend(p: Pins, a: seq<Signal>, b: seq<Signal>)
    ensures Observe(p, a + b) == Observe(p, a) + Observe(Levels(p, a), b)
    decreases |a|
  {
    if a == [] {
      assert a + b == b;
    } else {
      assert (a + b)[1..] == a[1..] + b;
      ObserveAppend(Step(p, a[0]), a[1..], b);
      Assoc(Latched(p, a[0]), Observe(Step(p, a[0]), a[1..]), Observe(Levels(p, a), b));
    }
  }

  /** A run without SPI traffic delivers nothing to the panel. */
  lemma {:induction false} ObserveQuiet(p: Pins, t: seq<Signal>)
    requires forall i :: 0 <= i < |t| ==> !t[i].Spi?
    ensures Observe(p, t) == []
    decreases |t|
  {
    if t != [] {
      assert t[0] == t[0 + 0];
      ObserveQuiet(Step(p, t[0]), t[1..]);
    }
  }

  /** One byte: set the command/data line (high for data), then clock the byte out. */
  function TransmitSignals(b: TransmissionByte): seq<Signal>
  {
    [Drive(CommandData, b.Data?), Spi(b.value)]
  }

  /** The bytes `bs` transmitted one after another. */
  function TransmitAll(bs: seq<TransmissionByte>): seq<Signal>
    decreases |bs|
  {
    if bs == [] then [] else TransmitAll(bs[..|bs| - 1]) + TransmitSignals(bs[|bs| - 1])
  }

  /** While chip select is low the panel latches one transmitted byte as it was meant. */
  lemma TransmitOne(p: Pins, b: TransmissionByte)
    requires !p.chipSelect
    ensures Observe(p, TransmitSignals(b)) == [b]
    ensures Levels(p, TransmitSignals(b)) == p.(commandData := b.Data?)
  {
    var t := TransmitSignals(b);
    var q := Step(p, t[0]);
    assert t[1..] == [Spi(b.value)] && t[1..][1..] == [];
    assert Observe(q, t[1..]) == Latched(q, t[1]) + Observe(q, []);
    assert Levels(q, t[1..]) == Levels(q, []);
  }

  /**
   * While chip select is low the panel receives exactly the transmitted
   * bytes, and transmitting moves no pin except the command/data line.
   */
  lemma {:induction false} ObserveTransmitAll(p: Pins, bs: seq<TransmissionByte>)
    requires !p.chipSelect
    ensures Observe(p, TransmitAll(bs)) == bs
    ensures Levels(p, TransmitAll(bs)).(commandData := p.commandData) == p
    decreases |bs|
  {
    if bs != [] {
      var init, last := bs[..|bs| - 1], bs[|bs| - 1];
      ObserveTransmitAll(p, init);
      TransmitOne(Levels(p, TransmitAll(init)), last);
      ObserveAppend(p, TransmitAll(init), TransmitSignals(last));
      LevelsAppend(p, TransmitAll(init), TransmitSignals(last));
      assert bs == init + [last];
    }
  }

  /**
   * Bytes framed by chip select low ... high reach the panel unchanged,
   * whatever the pin levels before, and leave chip select high again with
   * the backlight and reset pins untouched.
   */
  lemma ObserveFramed(p: Pins, bs: seq<TransmissionByte>)
    ensures Observe(p, [Drive(ChipSelect, false)] + TransmitAll(bs) + [Drive(ChipSelect, true)]) == bs
    ensures Levels(p, [Drive(ChipSelect, false)] + TransmitAll(bs) + [Drive(ChipSelect, true)]).chipSelect
    ensures Levels(p, [Drive(ChipSelect, false)] + TransmitAll(bs) + [Drive(ChipSelect, true)])
              .(commandData := p.commandData, chipSelect := p.chipSelect) == p
  {
    var q := p.(chipSelect := false);
    var body := TransmitAll(bs);
    ObserveTransmitAll(q, bs);
    var first := [Drive(ChipSelect, false)] + body;
    assert first[1..] == body;
    var last: seq<Signal> := [Drive(ChipSelect, true)];
    assert last[1..] == [];
    ObserveAppend(p, first, last);
    LevelsAppend(p, first, last);
  }

  /** `send`: chip select low, the encoded command, chip select high. */
  function SendSignals(c: DisplayCommand): seq<Signal>
  {
    [Drive(ChipSelect, false)] + TransmitAll(Encode(c)) + [Drive(ChipSelect, true)]
  }

  /**
   * Whatever the pin levels before, the panel receives exactly the encoding
   * of the command, and afterwards chip select is high again with the
   * backlight and reset pins untouched.
   */
  lemma ObserveSend(p: Pins, c: DisplayCommand)
    ensures Observe(p, SendSignals(c)) == Encode(c)
    ensures Levels(p, SendSignals(c)).chipSelect
    ensures Levels(p, SendSignals(c)).(commandData := p.commandData, chipSelect := p.chipSelect) == p
  {
    ObserveFramed(p, Encode(c));
  }

  /** `set_brightness`: bits 0, 1 and 2 of the value drive the three backlight pins, active low. */
  function BrightnessSignals(v: u8): seq<Signal>
  {
    [Drive(BacklightLow, !BitSet(v, 0)), Drive(BacklightMid, !BitSet(v, 1)), Drive(BacklightHigh, !BitSet(v, 2))]
  }

  /** A backlight pin is low exactly when its bit of the brightness value is set. */
  lemma BrightnessLevels(p: Pins, v: u8)
    ensures Levels(p, BrightnessSignals(v)).backlightLow <==> v % 2 == 0
    ensures Levels(p, BrightnessSignals(v)).backlightMid <==> (v / 2) % 2 == 0
    ensures Levels(p, BrightnessSignals(v)).backlightHigh <==> (v / 4) % 2 == 0
    ensures Levels(p, BrightnessSignals(v)).(backlightLow := p.backlightLow, backlightMid := p.backlightMid,
                                             backlightHigh := p.backlightHigh) == p
    ensures Observe(p, BrightnessSignals(v)) == []
  {
    var t := BrightnessSignals(v);
    assert t[1..] == [t[1], t[2]] && t[1..][1..] == [t[2]] && t[1..][1..][1..] == [];
    var p1 := Step(p, t[0]);
    var p2 := Step(p1, t[1]);
    assert Levels(p2, t[1..][1..]) == Step(p2, t[2]);
    assert Levels(p1, t[1..]) == Levels(p2, t[1..][1..]);
    assert BitSet(v, 1) == BitSet(v / 2, 0);
    assert BitSet(v, 2) == BitSet(v / 2, 1) == BitSet(v / 2 / 2, 0);
    assert v / 2 / 2 == v / 4;
    ObserveQuiet(p, BrightnessSignals(v));
  }

  /** Only the three low bits of the brightness matter. */
  lemma BrightnessIgnoresHighBits(v: u8)
    ensures BrightnessSignals(v) == BrightnessSignals(v % 8)
  {
    var q, w := v / 8, v % 8;
    assert v == 8 * q + w;
    assert v % 2 == w % 2;
    assert BitSet(v, 0) == BitSet(w, 0);
    assert v / 2 == 4 * q + w / 2;
    assert BitSet(v, 1) == BitSet(v / 2, 0) && BitSet(w, 1) == BitSet(w / 2, 0);
    assert (v / 2) % 2 == (w / 2) % 2;
    assert v / 2 / 2 == 2 * q + w / 2 / 2;
    assert BitSet(v, 2) == BitSet(v / 2 / 2, 0) && BitSet(w, 2) == BitSet(w / 2 / 2, 0);
    assert (v / 2 / 2) % 2 == (w / 2 / 2) % 2;
  }

  /** Brightness 7 drives all three backlight pins low. */
  lemma FullBrightnessSignals()
    ensures BrightnessSignals(7) == [Drive(BacklightLow, false), Drive(BacklightMid, false), Drive(BacklightHigh, false)]
  {
    assert BitSet(7, 1) == BitSet(3, 0);
    assert BitSet(7, 2) == BitSet(3, 1) == BitSet(1, 0);
  }

  /** `hard_reset`: reset low for 10 microseconds, then high. */
  function HardResetSignals(): seq<Signal>
  {
    [Drive(Reset, false), DelayUs(10), Drive(Reset, true)]
  }

  /** A hard reset pulses the reset line and leaves it high, touching no other pin. */
  lemma HardResetLevels(p: Pins)
    ensures Levels(p, HardResetSignals()) == p.(reset := true)
    ensures Observe(p, HardResetSignals()) == []
  {
    var t := HardResetSignals();
    assert t[1..] == [t[1], t[2]] && t[1..][1..] == [t[2]] && t[1..][1..][1..] == [];
    var p1 := Step(p, t[0]);
    assert Levels(p1, t[1..][1..]) == Step(p1, t[2]);
    assert Levels(p1, t[1..]) == Levels(p1, t[1..][1..]);
    ObserveQuiet(p, t);
  }

  /** `select_area`: the column range is sent before the row range. */
  function SelectAreaSignals(startRow: u16, startCol: u16, endRow: u16, endCol: u16): seq<Signal>
  {
    SendSignals(ColumnAddressSet(startCol, endCol)) + SendSignals(RowAddressSet(startRow, endRow))
  }

  /** A command sent after a run adds its encoding to what the panel has received. */
  lemma SendAfter(p: Pins, a: seq<Signal>, c: DisplayCommand)
    ensures Observe(p, a + SendSignals(c)) == Observe(p, a) + Encode(c)
    ensures Levels(p, a + SendSignals(c)).chipSelect
    ensures Levels(p, a + SendSignals(c)).(commandData := Levels(p, a).commandData, chipSelect := Levels(p, a).chipSelect)
            == Levels(p, a)
  {
    ObserveAppend(p, a, SendSignals(c));
    LevelsAppend(p, a, SendSignals(c));
    ObserveSend(Levels(p, a), c);
  }

  /** Signals without SPI traffic after a run add nothing to what the panel has received. */
  lemma QuietAfter(p: Pins, a: seq<Signal>, t: seq<Signal>)
    requires forall i :: 0 <= i < |t| ==> !t[i].Spi?
    ensures Observe(p, a + t) == Observe(p, a)
    ensures Levels(p, a + t) == Levels(Levels(p, a), t)
  {
    ObserveAppend(p, a, t);
    LevelsAppend(p, a, t);
    ObserveQuiet(Levels(p, a), t);
  }

  /** A delay moves no pin. */
  lemma DelayKeepsLevels(p: Pins, d: Signal)
    requires d.DelayMs? || d.DelayUs?
    ensures Levels(p, [d]) == p
  {
    assert [d][1..] == [];
  }
}
