/**
 * The ST7789 command encoder: every display command becomes one command
 * byte (sent with the command/data line low) followed by its parameter
 * bytes (sent with the line high).
 */
module DisplayCommands {
  import opened Bits
  import opened Wrappers

  /** The RGB interface colour format (high nibble of COLMOD). */
  datatype RgbPixelFormat = Format4K | Format65K | Format262K

  function RgbCode(f: RgbPixelFormat): u8
  {
    match f
    case Format4K => 0x3
    case Format65K => 0x5
    case Format262K => 0x6
  }

  function RgbFromCode(n: int): (f: Option<RgbPixelFormat>)
    ensures f.Some? ==> RgbCode(f.value) == n
  {
    if n == 0x3 then Some(Format4K)
    else if n == 0x5 then Some(Format65K)
    else if n == 0x6 then Some(Format262K)
    else None
  }

  /** The control interface colour format (low nibble of COLMOD). */
  datatype ControlPixelFormat = Format12bpp | Format16bpp | Format18bpp | Format16MTruncated

  function ControlCode(f: ControlPixelFormat): u8
  {
    match f
    case Format12bpp => 0x3
    case Format16bpp => 0x5
    case Format18bpp => 0x6
    case Format16MTruncated => 0x7
  }

  function ControlFromCode(n: int): (f: Option<ControlPixelFormat>)
    ensures f.Some? ==> ControlCode(f.value) == n
  {
    if n == 0x3 then Some(Format12bpp)
    else if n == 0x5 then Some(Format16bpp)
    else if n == 0x6 then Some(Format18bpp)
    else if n == 0x7 then Some(Format16MTruncated)
    else None
  }

  /** Every format code is recognised again by its decoder. */
  lemma PixelCodesRoundTrip(r: RgbPixelFormat, c: ControlPixelFormat)
    ensures RgbFromCode(RgbCode(r)) == Some(r)
    ensures ControlFromCode(ControlCode(c)) == Some(c)
    ensures RgbCode(r) < 8 && ControlCode(c) < 8
  {
  }

  datatype DisplayCommand =
    | SleepIn
    | SleepOut
    | InvertOff
    | InvertOn
    | DisplayOn
    | DisplayOff
    | ColumnAddressSet(first: u16, last: u16)
    | RowAddressSet(first: u16, last: u16)
    | StartRamWrite
    | RamWrite(pixels: seq<u8>)
    | SoftwareReset
    | MemoryDataAccessControl(config: u8)
    | InterfacePixelFormat(rgb: RgbPixelFormat, control: ControlPixelFormat)
    | NormalModeOn
    | WriteBrightness(brightness: u8)

  /** A byte on the SPI bus together with the level of the command/data line. */
  datatype TransmissionByte = Data(value: u8) | Command(value: u8)

  /** The COLMOD parameter: the RGB code shifted into the high nibble, OR-ed with the control code. */
  function PixelFormatByte(r: RgbPixelFormat, c: ControlPixelFormat): (b: u8)
    ensures b == RgbCode(r) * 0x10 + ControlCode(c)
  {
    assert Pow2(4) == 0x10;
    OrDisjoint(RgbCode(r), ControlCode(c), 4);
    Or(RgbCode(r) * 0x10, ControlCode(c))
  }

  /** The high and low nibble of the COLMOD parameter are the two format codes. */
  lemma PixelFormatNibbles(r: RgbPixelFormat, c: ControlPixelFormat)
    ensures PixelFormatByte(r, c) / 0x10 == RgbCode(r)
    ensures PixelFormatByte(r, c) % 0x10 == ControlCode(c)
  {
  }

  /** A big-endian pair of bytes for a 16-bit value. */
  function BigEndian(v: u16): (bs: seq<TransmissionByte>)
    ensures |bs| == 2 && bs[0].Data? && bs[1].Data?
    ensures bs[0].value * 0x100 + bs[1].value == v
  {
    [Data(v / 0x100), Data(v % 0x100)]
  }

  function DataBytes(v: seq<u8>): (bs: seq<TransmissionByte>)
    ensures |bs| == |v|
    ensures forall i :: 0 <= i < |v| ==> bs[i] == Data(v[i])
  {
    seq(|v|, i requires 0 <= i < |v| => Data(v[i]))
  }

  function Encode(c: DisplayCommand): (bs: seq<TransmissionByte>)
    ensures |bs| >= 1 && bs[0].Command?
    ensures forall i :: 1 <= i < |bs| ==> bs[i].Data?
  {
    match c
    case SleepIn => [Command(0x10)]
    case SleepOut => [Command(0x11)]
    case InvertOff => [Command(0x20)]
    case InvertOn => [Command(0x21)]
    case DisplayOff => [Command(0x28)]
    case DisplayOn => [Command(0x29)]
    case ColumnAddressSet(s, e) => [Command(0x2A)] + BigEndian(s) + BigEndian(e)
    case RowAddressSet(s, e) => [Command(0x2B)] + BigEndian(s) + BigEndian(e)
    case StartRamWrite => [Command(0x2C)]
    case RamWrite(v) => [Command(0x2C)] + DataBytes(v)
    case SoftwareReset => [Command(0x01)]
    case MemoryDataAccessControl(config) => [Command(0x36), Data(config)]
    case InterfacePixelFormat(r, f) => [Command(0x3A), Data(PixelFormatByte(r, f))]
    case NormalModeOn => [Command(0x13)]
    case WriteBrightness(b) => [Command(0x51), Data(b)]
  }

  /** The parameter bytes of CASET/RASET are the two addresses, most significant byte first. */
  lemma AddressSetIsBigEndian(c: DisplayCommand)
    requires c.ColumnAddressSet? || c.RowAddressSet?
    ensures |Encode(c)| == 5
    ensures Encode(c)[0] == Command(if c.ColumnAddressSet? then 0x2A else 0x2B)
    ensures Encode(c)[1].value * 0x100 + Encode(c)[2].value == c.first
    ensures Encode(c)[3].value * 0x100 + Encode(c)[4].value == c.last
  {
    var e := Encode(c);
    assert e[1..3] == BigEndian(c.first) && e[3..5] == BigEndian(c.last);
  }

  /** RAMWR is the start-of-write command followed by one data byte per pixel byte, in order. */
  lemma RamWriteLayout(v: seq<u8>)
    ensures |Encode(RamWrite(v))| == 1 + |v|
    ensures Encode(RamWrite(v))[0] == Command(0x2C)
    ensures forall i :: 0 <= i < |v| ==> Encode(RamWrite(v))[1 + i] == Data(v[i])
  {
    var e, d := Encode(RamWrite(v)), DataBytes(v);
    assert e == [Command(0x2C)] + d;
    forall i | 0 <= i < |v|
      ensures e[1 + i] == Data(v[i])
    {
      assert e[1 + i] == d[i];
    }
  }

  /** The parameter bytes of a byte sequence, when all of them are data bytes. */
  predicate AllData(bs: seq<TransmissionByte>)
  {
    forall i :: 0 <= i < |bs| ==> bs[i].Data?
  }

  function Values(bs: seq<TransmissionByte>): (v: seq<u8>)
    ensures |v| == |bs|
    ensures forall i :: 0 <= i < |bs| ==> v[i] == bs[i].value
  {
    seq(|bs|, i requires 0 <= i < |bs| => bs[i].value)
  }

  /**
   * How the display reads a command back from the bytes it receives: the
   * opcode in the command byte and the parameters in the data bytes after it.
   */
  function Decode(bs: seq<TransmissionByte>): (c: Option<DisplayCommand>)
  {
    if |bs| == 0 || !bs[0].Command? || !AllData(bs[1..]) then None
    else
      var op, args := bs[0].value, bs[1..];
      if op == 0x2C then
        (if |args| == 0 then Some(StartRamWrite) else Some(RamWrite(Values(args))))
      else if op == 0x2A || op == 0x2B then
        if |args| != 4 then None
        else
          var s := args[0].value * 0x100 + args[1].value;
          var e := args[2].value * 0x100 + args[3].value;
          Some(if op == 0x2A then ColumnAddressSet(s, e) else RowAddressSet(s, e))
      else if op == 0x36 || op == 0x51 || op == 0x3A then
        if |args| != 1 then None
        else if op == 0x36 then Some(MemoryDataAccessControl(args[0].value))
        else if op == 0x51 then Some(WriteBrightness(args[0].value))
        else
          match (RgbFromCode(args[0].value / 0x10), ControlFromCode(args[0].value % 0x10))
          case (Some(r), Some(f)) => Some(InterfacePixelFormat(r, f))
          case _ => None
      else if |args| != 0 then None
      else if op == 0x10 then Some(SleepIn)
      else if op == 0x11 then Some(SleepOut)
      else if op == 0x20 then Some(InvertOff)
      else if op == 0x21 then Some(InvertOn)
      else if op == 0x28 then Some(DisplayOff)
      else if op == 0x29 then Some(DisplayOn)
      else if op == 0x01 then Some(SoftwareReset)
      else if op == 0x13 then Some(NormalModeOn)
      else None
  }

  /**
   * The one identification the encoding makes: a RAMWR with no pixel bytes
   * is sent exactly like the bare start-of-write command.
   */
  function Canonical(c: DisplayCommand): DisplayCommand
  {
    if c == RamWrite([]) then StartRamWrite else c
  }

  lemma DecodeAddressSet(c: DisplayCommand)
    requires c.ColumnAddressSet? || c.RowAddressSet?
    ensures Decode(Encode(c)) == Some(c)
  {
    var e := Encode(c);
    AddressSetIsBigEndian(c);
    assert AllData(e[1..]);
  }

  lemma DecodeRamWrite(v: seq<u8>)
    ensures Decode(Encode(RamWrite(v))) == Some(Canonical(RamWrite(v)))
  {
    var e := Encode(RamWrite(v));
    RamWriteLayout(v);
    assert AllData(e[1..]);
    if v != [] {
      assert Values(e[1..]) == v;
    }
  }

  lemma DecodePixelFormat(r: RgbPixelFormat, f: ControlPixelFormat)
    ensures Decode(Encode(InterfacePixelFormat(r, f))) == Some(InterfacePixelFormat(r, f))
  {
    var e := Encode(InterfacePixelFormat(r, f));
    assert AllData(e[1..]);
    PixelFormatNibbles(r, f);
    PixelCodesRoundTrip(r, f);
  }

  /** Decoding recovers every command from its encoding, up to `Canonical`. */
  lemma DecodeEncode(c: DisplayCommand)
    ensures Decode(Encode(c)) == Some(Canonical(c))
  {
    match c
    case ColumnAddressSet(_, _) => DecodeAddressSet(c);
    case RowAddressSet(_, _) => DecodeAddressSet(c);
    case RamWrite(v) => DecodeRamWrite(v);
    case InterfacePixelFormat(r, f) => DecodePixelFormat(r, f);
    case _ =>
      assert AllData(Encode(c)[1..]);
  }

  /** Two commands with the same encoding are the same command, up to `Canonical`. */
  lemma EncodeInjective(c1: DisplayCommand, c2: DisplayCommand)
    requires Encode(c1) == Encode(c2)
    ensures Canonical(c1) == Canonical(c2)
  {
    DecodeEncode(c1);
    DecodeEncode(c2);
  }

  /** The encodings of a list of commands, one after another. */
  function EncodeAll(cs: seq<DisplayCommand>): (bs: seq<TransmissionByte>)
    ensures |bs| >= |cs|
    decreases |cs|
  {
    if cs == [] then [] else EncodeAll(cs[..|cs| - 1]) + Encode(cs[|cs| - 1])
  }
}
