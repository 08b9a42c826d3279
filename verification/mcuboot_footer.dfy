/**
 * The MCUboot image trailer at the end of the application slot: 40 bytes
 * whose last 16 are the MCUboot trailer magic, and whose byte at offset
 * 0x10 is the image-ok flag the application sets to confirm itself.
 */
module McubootFooter {
  import opened Bits
  import opened Wrappers

  /** The slot is 475104 bytes long from 0x8020; the trailer is its last 40 bytes. */
  const FlashLength := 475104
  const TrailerLength := 40
  const TrailerStart := 0x8020 + FlashLength - TrailerLength

  /** Offset of the image-ok flag inside the trailer, and the value that confirms the image. */
  const ImageOkOffset := 0x10
  const ImageOk: u8 := 0x01

  const Magic: seq<u8> := [
    0x77, 0xC2, 0x95, 0xF3,
    0x60, 0xD2, 0xEF, 0x7F,
    0x35, 0x52, 0x50, 0x0F,
    0x2C, 0xB6, 0x79, 0x80]

  /** The check `get` makes before handing out a footer: bytes 24..40 are the magic. */
  predicate HasMagic(trailer: seq<u8>)
    requires |trailer| == TrailerLength
  {
    trailer[24..40] == Magic
  }

  /** `is_valid` on the trailer bytes. */
  predicate Confirmed(trailer: seq<u8>)
    requires |trailer| == TrailerLength
  {
    trailer[ImageOkOffset] == ImageOk
  }

  /** The trailer bytes after `mark_valid`. */
  function MarkedValid(trailer: seq<u8>): (t: seq<u8>)
    requires |trailer| == TrailerLength
    ensures |t| == TrailerLength
  {
    trailer[ImageOkOffset := ImageOk]
  }

  /**
   * Marking confirms the image, touches no other byte, keeps the magic (so
   * `get` still accepts the trailer) and is idempotent.
   */
  lemma MarkedValidProperties(trailer: seq<u8>)
    requires |trailer| == TrailerLength
    ensures Confirmed(MarkedValid(trailer))
    ensures forall i :: 0 <= i < TrailerLength && i != ImageOkOffset ==> MarkedValid(trailer)[i] == trailer[i]
    ensures HasMagic(trailer) <==> HasMagic(MarkedValid(trailer))
    ensures MarkedValid(MarkedValid(trailer)) == MarkedValid(trailer)
  {
    assert MarkedValid(trailer)[24..40] == trailer[24..40];
  }

  /** A trailer that is already confirmed is left as it is. */
  lemma MarkConfirmedIsNoop(trailer: seq<u8>)
    requires |trailer| == TrailerLength
    ensures Confirmed(trailer) <==> MarkedValid(trailer) == trailer
  {
    if MarkedValid(trailer) == trailer {
      assert MarkedValid(trailer)[ImageOkOffset] == trailer[ImageOkOffset];
    }
  }

  class Footer {
    /** The trailer region in flash, which the footer reads and writes in place. */
    const trailer: array<u8>

    constructor(trailer: array<u8>)
      ensures this.trailer == trailer
    {
      this.trailer := trailer;
    }

    /** `get`: a footer over the trailer, or `None` where it panics because the magic is wrong. */
    static method Get(trailer: array<u8>) returns (f: Option<Footer>)
      requires trailer.Length == TrailerLength
      ensures f.Some? <==> HasMagic(trailer[..])
      ensures f.Some? ==> fresh(f.value) && f.value.trailer == trailer
    {
      if trailer[24..40] != Magic {
        return None;
      }
      var footer := new Footer(trailer);
      return Some(footer);
    }

    /** `mark_valid`: writes the image-ok value at offset 0x10. */
    method MarkValid()
      requires trailer.Length == TrailerLength
      modifies trailer
      ensures trailer[..] == MarkedValid(old(trailer[..]))
      ensures IsValid()
    {
      trailer[ImageOkOffset] := ImageOk;
      assert trailer[..] == old(trailer[..])[ImageOkOffset := ImageOk];
    }

    /** Valid exactly when byte 0x10 is 0x01, that is, when marking it valid would change nothing. */
    predicate IsValid()
      requires trailer.Length == TrailerLength
      reads trailer
      ensures IsValid() <==> trailer[ImageOkOffset] == ImageOk
      ensures IsValid() <==> MarkedValid(trailer[..]) == trailer[..]
    {
      MarkConfirmedIsNoop(trailer[..]);
      Confirmed(trailer[..])
    }
  }
}
