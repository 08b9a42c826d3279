/**
 * The MCUboot image header at the start of the application slot: a 32-byte
 * region that must begin with the MCUboot magic, and the image version
 * stored at fixed offsets inside it.
 */
module McubootHeader {
  import opened Bits
  import opened Wrappers

  /** The header starts at this flash address and is this long. */
  const HeaderStart := 0x8000
  const HeaderLength := 0x20

  /** The MCUboot image magic, 0x96f3b83d stored little-endian. */
  const Magic: seq<u8> := [0x3D, 0xB8, 0xF3, 0x96]

  datatype Version = Version(major: u8, minor: u8, revision: u16, buildNum: u32)

  datatype Header = Header(version: Version)

  /**
   * `MCUBootHeader::get` on the bytes of the header region: `None` where it
   * panics because the magic is wrong, else the version fields from bytes
   * 20, 21, 22-23 and 24-27, multi-byte fields little-endian.
   */
  function Get(region: seq<u8>): (h: Option<Header>)
    requires |region| == HeaderLength
    ensures h.Some? <==> region[..4] == Magic
    ensures h.Some? ==> h.value.version.major == region[20] && h.value.version.minor == region[21]
    ensures h.Some? ==> h.value.version.revision % 0x100 == region[22] && h.value.version.revision / 0x100 == region[23]
    ensures h.Some? ==> var b := h.value.version.buildNum;
      b % 0x100 == region[24] && (b / 0x100) % 0x100 == region[25] &&
      (b / 0x100 / 0x100) % 0x100 == region[26] && b / 0x100 / 0x100 / 0x100 == region[27]
  {
    if region[..4] != Magic then None
    else
      Some(Header(Version(
        region[20],
        region[21],
        LeU16(region[22], region[23]),
        LeU32(region[24], region[25], region[26], region[27]))))
  }

  /** The result depends on the magic bytes 0..4 and the version bytes 20..28 only. */
  lemma GetReadsOnlyMagicAndVersion(r1: seq<u8>, r2: seq<u8>)
    requires |r1| == HeaderLength && |r2| == HeaderLength
    requires r1[..4] == r2[..4] && r1[20..28] == r2[20..28]
    ensures Get(r1) == Get(r2)
  {
    assert forall i :: 20 <= i < 28 ==> r1[i] == r1[20..28][i - 20] == r2[i];
  }

  /** A header region holding the magic and a version, with zeros elsewhere. */
  function Layout(v: Version): (region: seq<u8>)
    ensures |region| == HeaderLength
  {
    Magic + seq(16, _ => 0) +
    [v.major, v.minor, v.revision % 0x100, v.revision / 0x100,
     v.buildNum % 0x100, (v.buildNum / 0x100) % 0x100, (v.buildNum / 0x100 / 0x100) % 0x100,
     v.buildNum / 0x100 / 0x100 / 0x100] +
    seq(4, _ => 0)
  }

  lemma LeU16Inverse(v: u16)
    ensures LeU16(v % 0x100, v / 0x100) == v
  {
    var w := LeU16(v % 0x100, v / 0x100);
    assert w == w / 0x100 * 0x100 + w % 0x100;
  }

  lemma LeU32Inverse(v: u32)
    ensures LeU32(v % 0x100, (v / 0x100) % 0x100, (v / 0x100 / 0x100) % 0x100, v / 0x100 / 0x100 / 0x100) == v
  {
    var w := LeU32(v % 0x100, (v / 0x100) % 0x100, (v / 0x100 / 0x100) % 0x100, v / 0x100 / 0x100 / 0x100);
    var a, b := w / 0x100, v / 0x100;
    assert a / 0x100 == b / 0x100 by {
      assert a / 0x100 / 0x100 == b / 0x100 / 0x100;
      assert a / 0x100 == a / 0x100 / 0x100 * 0x100 + (a / 0x100) % 0x100;
      assert b / 0x100 == b / 0x100 / 0x100 * 0x100 + (b / 0x100) % 0x100;
    }
    assert a == a / 0x100 * 0x100 + a % 0x100;
    assert b == b / 0x100 * 0x100 + b % 0x100;
    assert w == a * 0x100 + w % 0x100;
    assert v == b * 0x100 + v % 0x100;
  }

  /** Reading back a laid-out header recovers the version. */
  lemma GetLayout(v: Version)
    ensures Get(Layout(v)) == Some(Header(v))
  {
    var region := Layout(v);
    assert region[..4] == Magic;
    LeU16Inverse(v.revision);
    LeU32Inverse(v.buildNum);
  }
}
