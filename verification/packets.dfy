/**
 * Advertising-channel PDU codec: AD structures (Bluetooth Core Specification,
 * Vol 3 Part C, section 11), device addresses and the primary advertising PDUs
 * (Vol 6 Part B, section 2.3).
 */
module Packets {
  import opened Bits
  import opened Wrappers
  import opened Seqs

  /** One AD structure. Local names keep the UTF-8 bytes they were decoded from. */
  datatype AdvData =
    | Flags(flags: u8)
    | ShortenedLocalName(name: seq<u8>)
    | CompleteLocalName(name: seq<u8>)
    | TxPowerLevel(level: i8)
    | Unknown(raw: seq<u8>)

  /** `b as i8`: two's-complement reinterpretation of a byte. */
  function AsI8(b: u8): i8 {
    if b < 0x80 then b else b - 0x100
  }

  /** `l as u8`. */
  function AsU8(l: i8): u8 {
    if l < 0 then l + 0x100 else l
  }

  /** The byte of a Tx power level survives `as i8` followed by `as u8`. */
  lemma TxPowerByteRoundTrip(b: u8, l: i8)
    ensures AsU8(AsI8(b)) == b
    ensures AsI8(AsU8(l)) == l
  {
  }

  /** `From<&[u8]>` indexes `data[0]` always and `data[1]` for Flags and Tx power: shorter slices panic. */
  predicate RecordDecodable(record: seq<u8>) {
    |record| >= 1 && (record[0] == 1 || record[0] == 10 ==> |record| >= 2)
  }

  /** `From<&[u8]> for AdvData`: dispatch on the AD type byte. */
  function FromRecord(record: seq<u8>): (d: AdvData)
    requires RecordDecodable(record)
    ensures d.Flags? <==> record[0] == 1
    ensures d.TxPowerLevel? <==> record[0] == 10
    ensures d.ShortenedLocalName? <==> record[0] == 8
    ensures d.CompleteLocalName? <==> record[0] == 9
    ensures d.Unknown? ==> d.raw == record
    ensures d.Flags? ==> d.flags == record[1]
    ensures d.TxPowerLevel? ==> d.level == AsI8(record[1])
    ensures d.ShortenedLocalName? || d.CompleteLocalName? ==> d.name == record[1..]
  {
    match record[0]
    case 1 => Flags(record[1])
    case 8 => ShortenedLocalName(record[1..])
    case 9 => CompleteLocalName(record[1..])
    case 10 => TxPowerLevel(AsI8(record[1]))
    case _ => Unknown(record)
  }

  /** `u8::try_from(n.len()).unwrap()` panics for names longer than 255 bytes. */
  predicate Encodable(d: AdvData) {
    (d.ShortenedLocalName? || d.CompleteLocalName?) ==> |d.name| <= 255
  }

  /** `AdvData::to_bytes`. No AD type byte is written: a known variant becomes a length
      byte followed by its payload, and an unknown record is emitted unchanged. */
  function ToBytes(d: AdvData): (bytes: seq<u8>)
    requires Encodable(d)
    ensures d.Unknown? ==> bytes == d.raw
    ensures !d.Unknown? ==> |bytes| >= 1 && bytes[0] == |bytes| - 1
    ensures d.Flags? ==> bytes == [1, d.flags]
    ensures d.TxPowerLevel? ==> bytes == [1, AsU8(d.level)]
    ensures d.ShortenedLocalName? || d.CompleteLocalName? ==> bytes == [|d.name|] + d.name
  {
    match d
    case Flags(f) => [1, f]
    case ShortenedLocalName(n) => [|n|] + n
    case CompleteLocalName(n) => [|n|] + n
    case TxPowerLevel(l) => [1, AsU8(l)]
    case Unknown(raw) => raw
  }

  /** Decoding one in-bounds record and encoding it again: Flags and Tx power give back
      `[1, payload]`, names replace the type byte by the name length, and every other
      record is reproduced byte for byte. */
  lemma FromRecordThenToBytes(record: seq<u8>)
    requires RecordDecodable(record) && |record| <= 256
    ensures Encodable(FromRecord(record))
    ensures record[0] == 1 || record[0] == 10 ==> ToBytes(FromRecord(record)) == [1, record[1]]
    ensures record[0] == 8 || record[0] == 9 ==> ToBytes(FromRecord(record)) == [|record| - 1] + record[1..]
    ensures record[0] !in {1, 8, 9, 10} ==> ToBytes(FromRecord(record)) == record
  {
    TxPowerByteRoundTrip(record[|record| - 1], 0);
    if record[0] == 10 {
      TxPowerByteRoundTrip(record[1], 0);
    }
  }

  /** Every record the loop of `data_from_pdu` passes to `From<&[u8]>` is long enough. */
  predicate RecordsDecodable(s: seq<u8>)
    decreases |s|
  {
    if |s| == 0 || s[0] == 0 || 1 + s[0] > |s| then true
    else RecordDecodable(s[1..1 + s[0]]) && RecordsDecodable(s[1 + s[0]..])
  }

  /** The AD-structure list that `data_from_pdu` builds from `s`, appended to `acc`:
      each record is a length byte followed by that many bytes; a zero length or the
      end of the buffer stops the walk, and a length running past the end turns the
      remaining bytes into one final `Unknown`. */
  function ParseFrom(s: seq<u8>, acc: seq<AdvData>): (ds: seq<AdvData>)
    requires RecordsDecodable(s)
    ensures 2 * |ds| <= 2 * |acc| + |s| + 1
    decreases |s|
  {
    if |s| == 0 || s[0] == 0 then acc
    else if 1 + s[0] > |s| then acc + [Unknown(s[1..])]
    else ParseFrom(s[1 + s[0]..], acc + [FromRecord(s[1..1 + s[0]])])
  }

  function ParseRecords(s: seq<u8>): seq<AdvData>
    requires RecordsDecodable(s)
  {
    ParseFrom(s, [])
  }

  /** The record walk of `data_from_pdu` from cursor `i` of the whole buffer. */
  predicate DecodableFrom(data: seq<u8>, i: nat)
    decreases |data| - i
  {
    if i >= |data| || data[i] == 0 || i + 1 + data[i] > |data| then true
    else RecordDecodable(data[i + 1..i + 1 + data[i]]) && DecodableFrom(data, i + 1 + data[i])
  }

  /** The same walk over the whole buffer with a cursor, as the loop of `data_from_pdu` does. */
  function WalkFrom(data: seq<u8>, i: nat, acc: seq<AdvData>): seq<AdvData>
    requires DecodableFrom(data, i)
    decreases |data| - i
  {
    if i >= |data| || data[i] == 0 then acc
    else if i + 1 + data[i] > |data| then acc + [Unknown(data[i + 1..])]
    else WalkFrom(data, i + 1 + data[i], acc + [FromRecord(data[i + 1..i + 1 + data[i]])])
  }

  /** The cursor walk accepts exactly the buffers whose suffix from `i` parses. */
  lemma {:induction false} DecodableFromSuffix(data: seq<u8>, i: nat)
    requires i <= |data|
    ensures DecodableFrom(data, i) <==> RecordsDecodable(data[i..])
    decreases |data| - i
  {
    var rest := data[i..];
    if i == |data| {
      assert |rest| == 0;
    } else if data[i] == 0 || i + 1 + data[i] > |data| {
      assert rest[0] == data[i];
    } else {
      var len := data[i];
      var record := data[i + 1..i + 1 + len];
      var tail := data[i + 1 + len..];
      assert rest[0] == len;
      assert rest[1..1 + len] == record;
      assert rest[1 + len..] == tail;
      assert DecodableFrom(data, i) == (RecordDecodable(record) && DecodableFrom(data, i + 1 + len));
      assert RecordsDecodable(rest) == (RecordDecodable(record) && RecordsDecodable(tail));
      DecodableFromSuffix(data, i + 1 + len);
    }
  }

  /** Walking with a cursor from `i` is parsing the suffix that starts there. */
  lemma {:induction false} WalkFromIsParse(data: seq<u8>, i: nat, acc: seq<AdvData>)
    requires i <= |data| && DecodableFrom(data, i) && RecordsDecodable(data[i..])
    ensures WalkFrom(data, i, acc) == ParseFrom(data[i..], acc)
    decreases |data| - i
  {
    var rest := data[i..];
    if i == |data| {
      assert |rest| == 0;
    } else if data[i] == 0 {
      assert rest[0] == 0;
    } else if i + 1 + data[i] > |data| {
      assert rest[0] == data[i] && rest[1..] == data[i + 1..];
    } else {
      var len := data[i];
      assert rest[0] == len;
      assert rest[1..1 + len] == data[i + 1..i + 1 + len];
      assert rest[1 + len..] == data[i + 1 + len..];
      WalkFromIsParse(data, i + 1 + len, acc + [FromRecord(data[i + 1..i + 1 + len])]);
    }
  }

  /** `AdvData::data_from_pdu`: a cursor walks the length-prefixed records. */
  method DataFromPdu(data: seq<u8>) returns (ret: seq<AdvData>)
    requires RecordsDecodable(data)
    ensures ret == ParseRecords(data)
    ensures |ret| <= |data|
  {
    assert data[0..] == data;
    DecodableFromSuffix(data, 0);
    WalkFromIsParse(data, 0, []);
    var i: nat := 0;
    ret := [];
    while i < |data|
      invariant DecodableFrom(data, i)
      invariant WalkFrom(data, i, ret) == WalkFrom(data, 0, [])
      decreases |data| - i
    {
      var len: nat := data[i];
      i := i + 1;
      if len == 0 {
        break;
      }
      if i + len > |data| {
        ret := ret + [Unknown(data[i..])];
      } else {
        ret := ret + [FromRecord(data[i..i + len])];
      }
      i := i + len;
    }
  }

  /** Writes records in the AD-structure format, a length byte and then that many bytes,
      in front of `suffix`. */
  function Frame(records: seq<seq<u8>>, suffix: seq<u8>): seq<u8>
    requires forall k :: 0 <= k < |records| ==> 1 <= |records[k]| <= 255
  {
    if records == [] then suffix else [|records[0]|] + records[0] + Frame(records[1..], suffix)
  }

  function DecodeAll(records: seq<seq<u8>>): seq<AdvData>
    requires forall k :: 0 <= k < |records| ==> RecordDecodable(records[k])
  {
    if records == [] then [] else [FromRecord(records[0])] + DecodeAll(records[1..])
  }

  /** One in-bounds record in front of `tail` is decoded and the walk goes on with `tail`. */
  lemma ParseCons(r: seq<u8>, tail: seq<u8>, acc: seq<AdvData>)
    requires 1 <= |r| <= 255 && RecordDecodable(r) && RecordsDecodable(tail)
    ensures RecordsDecodable([|r|] + r + tail)
    ensures ParseFrom([|r|] + r + tail, acc) == ParseFrom(tail, acc + [FromRecord(r)])
  {
    var s := [|r|] + r + tail;
    assert s[1..1 + |r|] == r;
    assert s[1 + |r|..] == tail;
  }

  /** Parsing stops at the first zero length byte: whatever follows it is ignored and only
      the records before it are returned. */
  lemma {:induction false} ParseStopsAtZero(records: seq<seq<u8>>, rest: seq<u8>, acc: seq<AdvData>)
    requires forall k :: 0 <= k < |records| ==> 1 <= |records[k]| <= 255 && RecordDecodable(records[k])
    ensures RecordsDecodable(Frame(records, [0] + rest))
    ensures ParseFrom(Frame(records, [0] + rest), acc) == acc + DecodeAll(records)
  {
    if records != [] {
      var d := FromRecord(records[0]);
      ParseStopsAtZero(records[1..], rest, acc + [d]);
      ParseCons(records[0], Frame(records[1..], [0] + rest), acc);
      Assoc(acc, [d], DecodeAll(records[1..]));
    }
  }

  /** A record whose declared length overruns the buffer becomes `Unknown` of every byte
      after its length byte, and it is the last element of the result. */
  lemma {:induction false} ParseOverrun(records: seq<seq<u8>>, len: u8, tail: seq<u8>, acc: seq<AdvData>)
    requires forall k :: 0 <= k < |records| ==> 1 <= |records[k]| <= 255 && RecordDecodable(records[k])
    requires len > |tail|
    ensures RecordsDecodable(Frame(records, [len] + tail))
    ensures ParseFrom(Frame(records, [len] + tail), acc) == acc + DecodeAll(records) + [Unknown(tail)]
  {
    if records == [] {
      assert ([len] + tail)[1..] == tail;
    } else {
      var d := FromRecord(records[0]);
      ParseOverrun(records[1..], len, tail, acc + [d]);
      ParseCons(records[0], Frame(records[1..], [len] + tail), acc);
      Assoc(acc, [d], DecodeAll(records[1..]));
    }
  }

  // ---- Device addresses ----

  type Address6 = s: seq<u8> | |s| == 6 witness [0, 0, 0, 0, 0, 0]

  /** A device address; whether it is random lives in the PDU header, not in the bytes. */
  datatype BluetoothAddress = Random(bytes: Address6) | Public(bytes: Address6) {
    /** The six bytes, whichever kind the address is: with its kind they give the address back. */
    function ToBytes(): (b: Address6)
      ensures this == (if Random? then Random(b) else Public(b))
    {
      bytes
    }

    /** Random exactly when the address is the random one with its own bytes. */
    predicate IsRandom()
      ensures IsRandom() <==> this == Random(ToBytes())
    {
      Random?
    }
  }

  /** `BluetoothAddress::new`: too short is an error; longer than 6 bytes panics in `try_into().unwrap()`. */
  function NewAddress(data: seq<u8>, isRandom: bool): (r: Result<BluetoothAddress, ()>)
    requires |data| <= 6
    ensures r.Failure? <==> |data| < 6
    ensures r.Success? ==> r.value.ToBytes() == data && r.value.IsRandom() == isRandom
  {
    if |data| < 6 then Failure(())
    else if isRandom then Success(Random(data))
    else Success(Public(data))
  }

  // ---- Primary advertising PDUs ----

  type LlData = s: seq<u8> | |s| == 22 witness seq(22, _ => 0)

  datatype BluetoothPacket =
    | AdvInd(advA: BluetoothAddress, advData: seq<AdvData>)
    | AdvDirectInd(advA: BluetoothAddress, targetA: BluetoothAddress)
    | AdvNonconnInd(advA: BluetoothAddress, advData: seq<AdvData>)
    | ScanReq(scanA: BluetoothAddress, advA: BluetoothAddress)
    | ScanRsp(advA: BluetoothAddress)
    | ConnectInd(initA: BluetoothAddress, advA: BluetoothAddress, llData: LlData)
    | AdvScanInd(advA: BluetoothAddress, advData: seq<AdvData>)
    | AdvExtInd
    | UnknownPdu(pduType: u8, payload: seq<u8>)

  /** Header byte 0 fields: PDU type in bits 0-3, TxAdd in bit 6, RxAdd in bit 7. */
  function PduType(b0: u8): u8 { b0 % 16 }
  predicate TxAdd(b0: u8) { (b0 / 64) % 2 == 1 }
  predicate RxAdd(b0: u8) { b0 / 128 == 1 }

  /** The slices `from_advertising_primary` takes are all in bounds (else it panics). */
  predicate PrimaryDecodable(data: seq<u8>) {
    && |data| >= 2
    && 2 + data[1] <= |data|
    && var pdu := data[2..2 + data[1]];
    && var t := PduType(data[0]);
    && (t in {0, 2, 4, 6} ==> |pdu| >= 6)
    && (t in {1, 3} ==> |pdu| >= 12)
    && (t == 5 ==> |pdu| >= 34)
    && (t in {0, 2, 6} ==> RecordsDecodable(pdu[6..]))
  }

  lemma SliceOfSlice(s: seq<u8>, a: nat, b: nat, c: nat, d: nat)
    requires a <= b <= |s|
    ensures c <= d <= b - a ==> s[a..b][c..d] == s[a + c..a + d]
  {
    if c <= d <= b - a {
      assert forall i :: 0 <= i < d - c ==> s[a..b][c..d][i] == s[a + c..a + d][i];
    }
  }

  /** The first address field of a PDU, and which header bit says it is random. */
  function FirstAddress(p: BluetoothPacket): Option<BluetoothAddress> {
    match p
    case AdvInd(a, _) => Some(a)
    case AdvDirectInd(a, _) => Some(a)
    case AdvNonconnInd(a, _) => Some(a)
    case ScanReq(a, _) => Some(a)
    case ScanRsp(a) => Some(a)
    case ConnectInd(a, _, _) => Some(a)
    case AdvScanInd(a, _) => Some(a)
    case _ => None
  }

  function SecondAddress(p: BluetoothPacket): Option<BluetoothAddress> {
    match p
    case AdvDirectInd(_, a) => Some(a)
    case ScanReq(_, a) => Some(a)
    case ConnectInd(_, a, _) => Some(a)
    case _ => None
  }

  /** The PDU type code of each variant (the value `from_advertising_primary` dispatched on). */
  function TypeCode(p: BluetoothPacket): u8 {
    match p
    case AdvInd(_, _) => 0
    case AdvDirectInd(_, _) => 1
    case AdvNonconnInd(_, _) => 2
    case ScanReq(_, _) => 3
    case ScanRsp(_) => 4
    case ConnectInd(_, _, _) => 5
    case AdvScanInd(_, _) => 6
    case AdvExtInd => 7
    case UnknownPdu(t, _) => t
  }

  function Addr(bytes: Address6, random: bool): BluetoothAddress {
    if random then Random(bytes) else Public(bytes)
  }

  /** `BluetoothPacket::from_advertising_primary`: never an error once the slices are in
      bounds, and the variant is the one the PDU type nibble names. */
  function FromAdvertisingPrimary(data: seq<u8>): (r: Result<BluetoothPacket, ()>)
    requires PrimaryDecodable(data)
    ensures r.Success?
    ensures TypeCode(r.value) == PduType(data[0])
    ensures r.value.UnknownPdu? <==> PduType(data[0]) >= 8
  {
    var t := PduType(data[0]);
    var txadd := TxAdd(data[0]);
    var rxadd := RxAdd(data[0]);
    var length: nat := data[1];
    var pdu := data[2..length + 2];
    // `BluetoothAddress::new(..)?` never takes its error branch: every slice has six bytes.
    if t == 0 then
      Success(AdvInd(NewAddress(pdu[0..6], txadd).value, ParseRecords(pdu[6..])))
    else if t == 1 then
      Success(AdvDirectInd(NewAddress(pdu[0..6], txadd).value, NewAddress(pdu[6..12], rxadd).value))
    else if t == 2 then
      Success(AdvNonconnInd(NewAddress(pdu[0..6], txadd).value, ParseRecords(pdu[6..])))
    else if t == 3 then
      Success(ScanReq(NewAddress(pdu[0..6], txadd).value, NewAddress(pdu[6..12], rxadd).value))
    else if t == 4 then
      Success(ScanRsp(NewAddress(pdu[0..6], txadd).value))
    else if t == 5 then
      Success(ConnectInd(NewAddress(pdu[0..6], txadd).value, NewAddress(pdu[6..12], rxadd).value, pdu[12..34]))
    else if t == 6 then
      Success(AdvScanInd(NewAddress(pdu[0..6], txadd).value, ParseRecords(pdu[6..])))
    else if t == 7 then
      Success(AdvExtInd)
    else
      Success(UnknownPdu(t, pdu))
  }

  /** The address fields: AdvA (or ScanA/InitA) is bytes 2..8 with TxAdd, the second
      address is bytes 8..14 with RxAdd, for exactly the PDU types that carry them. */
  lemma PrimaryAddresses(data: seq<u8>)
    requires PrimaryDecodable(data)
    ensures var p := FromAdvertisingPrimary(data).value;
      && (FirstAddress(p).Some? <==> PduType(data[0]) <= 6)
      && (FirstAddress(p).Some? ==> FirstAddress(p).value == Addr(data[2..8], TxAdd(data[0])))
      && (SecondAddress(p).Some? <==> PduType(data[0]) in {1, 3, 5})
      && (SecondAddress(p).Some? ==> SecondAddress(p).value == Addr(data[8..14], RxAdd(data[0])))
  {
    var length: nat := data[1];
    SliceOfSlice(data, 2, length + 2, 0, 6);
    SliceOfSlice(data, 2, length + 2, 6, 12);
  }

  /** The payload fields: the AD list of ADV_IND, ADV_NONCONN_IND and ADV_SCAN_IND is parsed
      from byte 8 to the end of the payload, CONNECT_IND's LLData is bytes 14..36, and an
      unknown type keeps the whole payload. */
  lemma PrimaryPayload(data: seq<u8>)
    requires PrimaryDecodable(data)
    ensures var p := FromAdvertisingPrimary(data).value;
      && (p.UnknownPdu? ==> p.payload == data[2..2 + data[1]])
      && (p.ConnectInd? ==> p.llData == data[14..36])
      && (p.AdvInd? || p.AdvNonconnInd? || p.AdvScanInd? ==> p.advData == ParseRecords(data[8..2 + data[1]]))
  {
    var length: nat := data[1];
    SliceOfSlice(data, 2, length + 2, 12, 34);
    SliceOfSlice(data, 2, length + 2, 6, length);
  }

  // ---- ADV_IND encoding ----

  /** The AD structures of an ADV_IND, encoded one after the other. */
  function EncodeAll(ds: seq<AdvData>): seq<u8>
    requires forall k :: 0 <= k < |ds| ==> Encodable(ds[k])
  {
    if ds == [] then [] else ToBytes(ds[0]) + EncodeAll(ds[1..])
  }

  lemma {:induction false} EncodeAllSnoc(ds: seq<AdvData>, k: nat)
    requires forall j :: 0 <= j < |ds| ==> Encodable(ds[j])
    requires k < |ds|
    ensures EncodeAll(ds[..k + 1]) == EncodeAll(ds[..k]) + ToBytes(ds[k])
    decreases k
  {
    if k == 0 {
      assert ds[..1] == [ds[0]];
      assert ds[..1][1..] == [];
    } else {
      assert ds[..k + 1][1..] == ds[1..][..k];
      assert ds[..k][1..] == ds[1..][..k - 1];
      EncodeAllSnoc(ds[1..], k - 1);
    }
  }

  lemma {:induction false} EncodeAllPrefixLength(ds: seq<AdvData>, k: nat)
    requires forall j :: 0 <= j < |ds| ==> Encodable(ds[j])
    requires k <= |ds|
    ensures |EncodeAll(ds[..k])| <= |EncodeAll(ds)|
    decreases |ds|
  {
    if k > 0 {
      assert ds[..k][1..] == ds[1..][..k - 1];
      EncodeAllPrefixLength(ds[1..], k - 1);
    } else {
      assert ds[..k] == [];
    }
  }

  /** No `todo!()` and no u8 overflow while summing the length field: every AD structure
      fits, and the address plus all structures fit in one length byte. */
  predicate AdvIndEncodable(ds: seq<AdvData>) {
    && (forall k :: 0 <= k < |ds| ==> Encodable(ds[k]))
    && 6 + |EncodeAll(ds)| <= 255
  }

  /** The bytes `to_bytes` produces for `AdvInd(addr, ds)`. */
  function AdvIndBytes(addr: BluetoothAddress, ds: seq<AdvData>): (bytes: seq<u8>)
    requires AdvIndEncodable(ds)
    ensures |bytes| <= 257
  {
    [if addr.IsRandom() then 0x40 else 0, 6 + |EncodeAll(ds)|] + addr.ToBytes() + EncodeAll(ds)
  }

  /** `BluetoothPacket::to_bytes`; every variant but `AdvInd` is `todo!()`. */
  method PacketToBytes(p: BluetoothPacket) returns (ret: seq<u8>)
    requires p.AdvInd? && AdvIndEncodable(p.advData)
    ensures ret == AdvIndBytes(p.advA, p.advData)
  {
    var addr := p.advA;
    var data := p.advData;
    var length: u8 := 6;
    ret := [0, 0];
    if addr.IsRandom() {
      ret := ret[0 := 0x40];
    }
    ret := ret + addr.ToBytes();
    var k := 0;
    while k < |data|
      invariant k <= |data|
      invariant length == 6 + |EncodeAll(data[..k])|
      invariant ret == [if addr.IsRandom() then 0x40 else 0, 0] + addr.ToBytes() + EncodeAll(data[..k])
    {
      var bytes := ToBytes(data[k]);
      EncodeAllSnoc(data, k);
      EncodeAllPrefixLength(data, k + 1);
      Assoc([if addr.IsRandom() then 0x40 else 0, 0] + addr.ToBytes(), EncodeAll(data[..k]), bytes);
      length := length + |bytes|;
      ret := ret + bytes;
      k := k + 1;
    }
    assert data[..k] == data;
    SetLength(if addr.IsRandom() then 0x40 else 0, addr.ToBytes() + EncodeAll(data), length);
    Assoc([if addr.IsRandom() then 0x40 else 0, 0], addr.ToBytes(), EncodeAll(data));
    Assoc([if addr.IsRandom() then 0x40 else 0, length], addr.ToBytes(), EncodeAll(data));
    ret := ret[1 := length];
  }

  lemma SetLength(b0: u8, body: seq<u8>, length: u8)
    ensures ([b0, 0] + body)[1 := length] == [b0, length] + body
  {
    assert forall j :: 0 <= j < 2 + |body| ==> ([b0, 0] + body)[1 := length][j] == ([b0, length] + body)[j];
  }

  /** The ADV_IND header: byte 0 is 0x40 exactly for a random address, byte 1 is the
      length of everything after the 2-byte header, and the address follows. */
  lemma AdvIndHeader(addr: BluetoothAddress, ds: seq<AdvData>)
    requires AdvIndEncodable(ds)
    ensures var b := AdvIndBytes(addr, ds);
      && (b[0] == 0x40 <==> addr.IsRandom())
      && (b[0] == 0 <==> !addr.IsRandom())
      && b[1] == |b| - 2
      && b[2..8] == addr.ToBytes()
      && b[8..] == EncodeAll(ds)
  {
  }

  /** Decoding an encoded ADV_IND gives back the address and the AD structures that the
      encoded bytes parse to (which are not the original ones, as no type byte is written). */
  lemma AdvIndRoundTrip(addr: BluetoothAddress, ds: seq<AdvData>)
    requires AdvIndEncodable(ds)
    requires RecordsDecodable(EncodeAll(ds))
    ensures PrimaryDecodable(AdvIndBytes(addr, ds))
    ensures FromAdvertisingPrimary(AdvIndBytes(addr, ds)) == Success(AdvInd(addr, ParseRecords(EncodeAll(ds))))
  {
    var b := AdvIndBytes(addr, ds);
    AdvIndHeader(addr, ds);
    assert PduType(b[0]) == 0;
    assert TxAdd(b[0]) == addr.IsRandom();
    assert b[8..2 + b[1]] == EncodeAll(ds);
    assert Addr(b[2..8], TxAdd(b[0])) == addr;
    PrimaryAddresses(b);
    PrimaryPayload(b);
    var p := FromAdvertisingPrimary(b).value;
    assert p.AdvInd? && FirstAddress(p) == Some(p.advA);
  }

  /** A Flags structure does not survive encoding and decoding: its flag byte is read back as the AD type. */
  lemma FlagsDoNotRoundTrip()
    ensures RecordsDecodable(ToBytes(Flags(6)))
    ensures ParseRecords(ToBytes(Flags(6))) == [Unknown([6])]
  {
    var b := ToBytes(Flags(6));
    assert b[1..2] == [6];
    assert b[2..] == [];
  }
}
