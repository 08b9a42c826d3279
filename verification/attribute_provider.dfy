/**
 * The GATT attribute table of the watch: a handle-indexed sequence of
 * service, characteristic and characteristic-value attributes, the
 * characteristic-declaration serialisation of Bluetooth Core Specification
 * Vol 3 Part G section 3.3.1, handle-range queries and service-group ends.
 *
 * Handles are 1-based: the attribute at index i of the table has handle i+1.
 */
module Gatt {
  import opened Bits
  import opened Wrappers

  datatype ServiceUuid = Battery

  /** The 16-bit UUID of a service, as stored in its declaration. */
  function ServiceCode(s: ServiceUuid): u16
  {
    match s
    case Battery => 0x180F
  }

  /** A service declaration's value: its 16-bit UUID, least significant byte first. */
  function ServiceData(s: ServiceUuid): (d: seq<u8>)
    ensures |d| == 2 && LeU16(d[0], d[1]) == ServiceCode(s)
  {
    match s
    case Battery => [0x0F, 0x18]
  }

  datatype CharacteristicUuid = BatteryLevel

  function CharacteristicCode(u: CharacteristicUuid): u16
  {
    match u
    case BatteryLevel => 0x2A19
  }

  datatype CharacteristicProperty =
    | Broadcast
    | Read
    | WriteNoResponse
    | Write
    | Notify
    | Indicate
    | AuthenticatedSignedWrites
    | ExtendedProperties
    | Combination(bits: u8)

  /** The eight single-bit bytes. */
  lemma ByteBits()
    ensures Pow2(0) == 0x01 && Pow2(1) == 0x02 && Pow2(2) == 0x04 && Pow2(3) == 0x08
    ensures Pow2(4) == 0x10 && Pow2(5) == 0x20 && Pow2(6) == 0x40 && Pow2(7) == 0x80
  {
  }

  /** The property byte of a characteristic declaration: one bit per single property. */
  function PropertyByte(p: CharacteristicProperty): (b: u8)
    ensures !p.Combination? ==> exists k :: 0 <= k < 8 && b == Pow2(k)
  {
    ByteBits();
    match p
    case Broadcast => 0x01
    case Read => 0x02
    case WriteNoResponse => 0x04
    case Write => 0x08
    case Notify => 0x10
    case Indicate => 0x20
    case AuthenticatedSignedWrites => 0x40
    case ExtendedProperties => 0x80
    case Combination(v) => v
  }

  /** The bit position a single (non-combined) property occupies. */
  function PropertyBit(p: CharacteristicProperty): (k: nat)
    requires !p.Combination?
    ensures k < 8 && PropertyByte(p) == Pow2(k)
  {
    match p
    case Broadcast => 0
    case Read => 1
    case WriteNoResponse => 2
    case Write => 3
    case Notify => 4
    case Indicate => 5
    case AuthenticatedSignedWrites => 6
    case ExtendedProperties => 7
  }

  /** `a | b` on properties: a combination holding the bits of both. */
  function BitOr(a: CharacteristicProperty, b: CharacteristicProperty): (c: CharacteristicProperty)
    ensures c.Combination?
    ensures forall i: nat :: BitSet(PropertyByte(c), i) <==> BitSet(PropertyByte(a), i) || BitSet(PropertyByte(b), i)
  {
    assert Pow2(8) == 0x100;
    OrBound(PropertyByte(a), PropertyByte(b), 8);
    forall i: nat
      ensures BitSet(Or(PropertyByte(a), PropertyByte(b)), i) <==> BitSet(PropertyByte(a), i) || BitSet(PropertyByte(b), i)
    {
      OrBit(PropertyByte(a), PropertyByte(b), i);
    }
    Combination(Or(PropertyByte(a), PropertyByte(b)))
  }

  lemma BitOrCommutes(a: CharacteristicProperty, b: CharacteristicProperty)
    ensures BitOr(a, b) == BitOr(b, a)
  {
    OrComm(PropertyByte(a), PropertyByte(b));
  }

  lemma {:induction false} Pow2Monotone(i: nat, j: nat)
    requires i < j
    ensures Pow2(i) < Pow2(j)
    decreases j
  {
    if i < j - 1 {
      Pow2Monotone(i, j - 1);
    }
  }

  /** Two different powers of two share no bit, so OR-ing them adds them. */
  lemma OrDistinctPowers(i: nat, j: nat)
    requires i < j
    ensures Or(Pow2(i), Pow2(j)) == Pow2(i) + Pow2(j)
  {
    Pow2Monotone(i, j);
    OrDisjoint(1, Pow2(i), j);
    OrComm(Pow2(j), Pow2(i));
  }

  /** Two different single properties occupy different bits, so `|` adds their bytes. */
  lemma DistinctPropertiesAdd(a: CharacteristicProperty, b: CharacteristicProperty)
    requires !a.Combination? && !b.Combination? && a != b
    ensures PropertyByte(BitOr(a, b)) == PropertyByte(a) + PropertyByte(b)
  {
    var i, j := PropertyBit(a), PropertyBit(b);
    assert i != j;
    if i < j {
      OrDistinctPowers(i, j);
    } else {
      OrDistinctPowers(j, i);
      OrComm(Pow2(i), Pow2(j));
    }
  }

  datatype BluetoothAttribute =
    | PrimaryService(service: ServiceUuid)
    | SecondaryService(service: ServiceUuid)
    | Characteristic(property: CharacteristicProperty, uuid: CharacteristicUuid)
    | CharacteristicValue(uuid: CharacteristicUuid, value: seq<u8>)
  {
    predicate IsService() {
      PrimaryService? || SecondaryService?
    }
  }

  const PrimaryServiceType: u16 := 0x2800
  const SecondaryServiceType: u16 := 0x2801
  const CharacteristicType: u16 := 0x2803

  /** The attribute type (a 16-bit UUID) of an attribute. */
  function AttType(att: BluetoothAttribute): (t: u16)
    ensures att.IsService() <==> t == PrimaryServiceType || t == SecondaryServiceType
    ensures att.Characteristic? <==> t == CharacteristicType
    ensures att.CharacteristicValue? ==> t == CharacteristicCode(att.uuid)
  {
    match att
    case PrimaryService(_) => PrimaryServiceType
    case SecondaryService(_) => SecondaryServiceType
    case Characteristic(_, _) => CharacteristicType
    case CharacteristicValue(uuid, _) => CharacteristicCode(uuid)
  }

  /** The value of the attribute stored at `handle`. */
  function Data(att: BluetoothAttribute, handle: u16): (d: seq<u8>)
    requires att.Characteristic? ==> handle < 0xFFFF
    ensures att.IsService() ==> d == ServiceData(att.service)
    ensures att.CharacteristicValue? ==> d == att.value
    ensures att.Characteristic? ==>
      |d| == 5 && d[0] == PropertyByte(att.property)
      && LeU16(d[1], d[2]) == handle + 1
      && LeU16(d[3], d[4]) == CharacteristicCode(att.uuid)
  {
    match att
    case PrimaryService(uuid) => ServiceData(uuid)
    case SecondaryService(uuid) => ServiceData(uuid)
    case Characteristic(prop, uuid) =>
      var next := handle + 1;
      var code := CharacteristicCode(uuid);
      [PropertyByte(prop), next % 0x100, next / 0x100, code % 0x100, code / 0x100]
    case CharacteristicValue(_, value) => value
  }

  /** An attribute as handed to the attribute protocol layer. */
  datatype Attribute = Attribute(attType: u16, handle: u16, value: seq<u8>)

  function ToRubble(att: BluetoothAttribute, handle: u16): (a: Attribute)
    requires att.Characteristic? ==> handle < 0xFFFF
    ensures a.handle == handle
    ensures IsGroupingAttr(a.attType) <==> att.IsService()
    ensures att.Characteristic? ==> |a.value| == 5 && LeU16(a.value[1], a.value[2]) == handle + 1
    ensures att.CharacteristicValue? ==> a.value == att.value
  {
    Attribute(AttType(att), handle, Data(att, handle))
  }

  /**
   * The table can be numbered: every handle fits in 16 bits and no
   * characteristic sits at the last handle, where the handle of its value
   * would overflow.
   */
  predicate Numberable(attrs: seq<BluetoothAttribute>)
  {
    |attrs| <= 0xFFFF
    && forall i :: 0 <= i < |attrs| && attrs[i].Characteristic? ==> i + 1 < 0xFFFF
  }

  /** The protocol-level table: entry i is attribute i at handle i+1. */
  function RubbleAttributes(attrs: seq<BluetoothAttribute>): (r: seq<Attribute>)
    requires Numberable(attrs)
    ensures |r| == |attrs|
    ensures forall i :: 0 <= i < |r| ==> r[i].handle == i + 1
    ensures forall i :: 0 <= i < |r| ==> r[i].attType == AttType(attrs[i]) && r[i].value == Data(attrs[i], i + 1)
  {
    seq(|attrs|, i requires 0 <= i < |attrs| => ToRubble(attrs[i], i + 1))
  }

  datatype Provider = Provider(attributes: seq<BluetoothAttribute>, rubble: seq<Attribute>)
  {
    predicate Valid() {
      Numberable(attributes) && rubble == RubbleAttributes(attributes)
    }
  }

  /** The table the watch serves: the battery service with a readable battery level. */
  function NewProvider(): (p: Provider)
    ensures p.Valid() && |p.attributes| == 3
    ensures p.rubble[0] == Attribute(PrimaryServiceType, 1, [0x0F, 0x18])
    ensures p.rubble[1] == Attribute(CharacteristicType, 2, [0x02, 0x03, 0x00, 0x19, 0x2A])
    ensures p.rubble[2] == Attribute(0x2A19, 3, [0])
  {
    var attributes := [
      PrimaryService(Battery),
      Characteristic(Read, BatteryLevel),
      CharacteristicValue(BatteryLevel, [0])
    ];
    Provider(attributes, RubbleAttributes(attributes))
  }

  /** Whether the attribute type opens a group (a primary or secondary service). */
  predicate IsGroupingAttr(uuid: u16)
    ensures IsGroupingAttr(uuid) <==> exists att: BluetoothAttribute :: att.IsService() && AttType(att) == uuid
  {
    assert AttType(PrimaryService(Battery)) == PrimaryServiceType;
    assert AttType(SecondaryService(Battery)) == SecondaryServiceType;
    uuid == PrimaryServiceType || uuid == SecondaryServiceType
  }

  /** The grouping types are exactly the service declarations. */
  lemma GroupingIffService(att: BluetoothAttribute)
    ensures IsGroupingAttr(AttType(att)) <==> att.IsService()
  {
  }

  /**
   * What a query for handles `start..=end` may ask without the provider
   * panicking: both handles are at least 1 and, when `start` is inside the
   * table, the range is not reversed by more than one.
   */
  predicate RangeAccepted(p: Provider, start: u16, end: u16)
  {
    1 <= start && 1 <= end
    && (start - 1 < |p.attributes| ==> start - 1 <= Min(end - 1, |p.attributes| - 1) + 1)
  }

  function Min(a: int, b: int): int
  {
    if a <= b then a else b
  }

  /** The entries of the protocol-level table whose handles lie in `start..=end`. */
  function Selected(p: Provider, start: u16, end: u16): (sel: seq<Attribute>)
    requires p.Valid() && RangeAccepted(p, start, end)
  {
    if start - 1 >= |p.attributes| then []
    else p.rubble[start - 1 .. Min(end - 1, |p.attributes| - 1) + 1]
  }

  /** The selected entries are exactly the handles `start..=min(end, count)`, in ascending order. */
  lemma SelectedHandles(p: Provider, start: u16, end: u16)
    requires p.Valid() && RangeAccepted(p, start, end)
    ensures |Selected(p, start, end)| == if start > |p.attributes| then 0 else Min(end, |p.attributes|) - start + 1
    ensures forall k :: 0 <= k < |Selected(p, start, end)| ==> Selected(p, start, end)[k].handle == start + k
  {
  }

  /**
   * Calls `visit` on every selected attribute in ascending handle order,
   * stopping at the first one it rejects; `visited` records the calls made.
   */
  method ForAttrsInRange<E>(p: Provider, start: u16, end: u16, visit: Attribute -> Outcome<E>)
    returns (res: Outcome<E>, visited: seq<Attribute>)
    requires p.Valid() && RangeAccepted(p, start, end)
    ensures visited <= Selected(p, start, end)
    ensures forall k :: 0 <= k < |visited| - 1 ==> visit(visited[k]).Pass?
    ensures res.Pass? ==> visited == Selected(p, start, end)
    ensures res.Pass? ==> forall k :: 0 <= k < |visited| ==> visit(visited[k]).Pass?
    ensures res.Fail? ==> |visited| > 0 && res == visit(visited[|visited| - 1])
  {
    var count := |p.attributes|;
    var s := start - 1;
    var attrs: seq<Attribute>;
    if s >= count {
      attrs := [];
    } else {
      var e := Min(end - 1, count - 1);
      attrs := p.rubble[s .. e + 1];
    }
    assert attrs == Selected(p, start, end);
    visited := [];
    var k := 0;
    while k < |attrs|
      invariant 0 <= k <= |attrs| && visited == attrs[..k]
      invariant forall j :: 0 <= j < k ==> visit(visited[j]).Pass?
    {
      assert attrs[..k + 1] == visited + [attrs[k]];
      visited := visited + [attrs[k]];
      var o := visit(attrs[k]);
      if o.Fail? {
        return o, visited;
      }
      k := k + 1;
    }
    assert attrs[..k] == attrs;
    return Pass, visited;
  }

  /**
   * The index of the last attribute of the group that begins at index `i`:
   * the one just before the next service declaration, or the last attribute
   * of the table when no service follows.
   */
  function GroupEndIndex(attrs: seq<BluetoothAttribute>, i: nat): (k: nat)
    requires i < |attrs|
    ensures i <= k < |attrs|
    ensures forall j :: i < j <= k ==> !attrs[j].IsService()
    ensures k + 1 == |attrs| || attrs[k + 1].IsService()
    decreases |attrs| - i
  {
    if i + 1 == |attrs| || attrs[i + 1].IsService() then i
    else GroupEndIndex(attrs, i + 1)
  }

  /**
   * The last attribute of the group opened by `handle`, or None when the
   * attribute there is not a service declaration.
   */
  method GroupEnd(p: Provider, handle: u16) returns (r: Option<Attribute>)
    requires p.Valid() && 1 <= handle <= |p.attributes|
    ensures !p.attributes[handle - 1].IsService() ==> r == None
    ensures p.attributes[handle - 1].IsService() ==>
      r == Some(p.rubble[GroupEndIndex(p.attributes, handle - 1)])
  {
    var start := handle - 1;
    var attrs := p.attributes;
    if !attrs[start].IsService() {
      return None;
    }
    var h := start + 1;
    while h < |attrs|
      invariant start + 1 <= h <= |attrs|
      invariant GroupEndIndex(attrs, h - 1) == GroupEndIndex(attrs, start)
    {
      if attrs[h].IsService() {
        return Some(p.rubble[h - 1]);
      }
      h := h + 1;
    }
    return Some(p.rubble[|p.rubble| - 1]);
  }

  /** In the watch's own table the battery service spans all three handles. */
  lemma BatteryServiceGroup()
    ensures GroupEndIndex(NewProvider().attributes, 0) == 2
    ensures NewProvider().rubble[GroupEndIndex(NewProvider().attributes, 0)].handle == 3
  {
  }
}
