/**
 * The BLE channel table: channel index 0..39 to RF centre frequency (MHz),
 * data-whitening seed and advertising flag (Bluetooth Core Specification,
 * Vol 6 Part B, section 1.4.1 and section 3.2).
 */
module Channels {
  import opened Bits
  import opened Wrappers

  /** A channel as `Channel::new` builds it. */
  datatype Channel = Channel(frequency: nat, number: u8) {

    /** Built by `New`: the frequency is the table entry of the number. */
    predicate Valid() {
      FrequencyOf(number) == Some(frequency)
    }

    /** `number | (1 << 6)`: the seed loaded into the whitening register. */
    function WhiteningIv(): (iv: u8)
      ensures iv >= 0x40 && BitSet(iv, 6)
    {
      OrBound(number, 0x40, 8);
      OrBit(number, 0x40, 6);
      assert BitSet(0x40, 6);
      OrAtLeast(number, 0x40);
      Or(number, 0x40)
    }

    /** A valid channel is an advertising one exactly when it sits on 2402, 2426 or 2480 MHz. */
    predicate IsAdvertising()
      ensures Valid() ==> (IsAdvertising() <==> frequency == 2402 || frequency == 2426 || frequency == 2480)
    {
      AdvertisingFrequencies(this);
      number >= 37
    }
  }

  /** The `match` of `Channel::new`; `None` stands for the panicking arm. */
  function FrequencyOf(number: u8): Option<nat> {
    match number
    case 37 => Some(2402)
    case 0 => Some(2404)
    case 1 => Some(2406)
    case 2 => Some(2408)
    case 3 => Some(2410)
    case 4 => Some(2412)
    case 5 => Some(2414)
    case 6 => Some(2416)
    case 7 => Some(2418)
    case 8 => Some(2420)
    case 9 => Some(2422)
    case 10 => Some(2424)
    case 38 => Some(2426)
    case 11 => Some(2428)
    case 12 => Some(2430)
    case 13 => Some(2432)
    case 14 => Some(2434)
    case 15 => Some(2436)
    case 16 => Some(2438)
    case 17 => Some(2440)
    case 18 => Some(2442)
    case 19 => Some(2444)
    case 20 => Some(2446)
    case 21 => Some(2448)
    case 22 => Some(2450)
    case 23 => Some(2452)
    case 24 => Some(2454)
    case 25 => Some(2456)
    case 26 => Some(2458)
    case 27 => Some(2460)
    case 28 => Some(2462)
    case 29 => Some(2464)
    case 30 => Some(2466)
    case 31 => Some(2468)
    case 32 => Some(2470)
    case 33 => Some(2472)
    case 34 => Some(2474)
    case 35 => Some(2476)
    case 36 => Some(2478)
    case 39 => Some(2480)
    case _ => None
  }

  /** `Channel::new`; a number without a table entry panics. */
  function New(number: u8): (c: Channel)
    requires FrequencyOf(number).Some?
    ensures c.Valid() && c.number == number
  {
    Channel(FrequencyOf(number).value, number)
  }

  /** Independent closed form of the table: advertising channels at 2402, 2426 and 2480 MHz,
      data channels 2 MHz apart in the gaps between them. */
  function ClosedForm(number: nat): nat
    requires number <= 39
  {
    if number == 37 then 2402
    else if number == 38 then 2426
    else if number == 39 then 2480
    else if number <= 10 then 2404 + 2 * number
    else 2428 + 2 * (number - 11)
  }

  /** `Channel::new` succeeds exactly on 0..=39, and there it agrees with the closed form. */
  lemma TableMatchesClosedForm(number: u8)
    ensures FrequencyOf(number).Some? <==> number <= 39
    ensures number <= 39 ==> FrequencyOf(number) == Some(ClosedForm(number))
  {
    if number <= 39 {
      TableEntry(number);
    }
  }

  lemma TableEntry(n: u8)
    requires n <= 39
    ensures FrequencyOf(n) == Some(ClosedForm(n))
  {
    if n < 10 {
      if n < 5 {
        assert n == 0 || n == 1 || n == 2 || n == 3 || n == 4;
      } else {
        assert n == 5 || n == 6 || n == 7 || n == 8 || n == 9;
      }
    } else if n < 20 {
      if n < 15 {
        assert n == 10 || n == 11 || n == 12 || n == 13 || n == 14;
      } else {
        assert n == 15 || n == 16 || n == 17 || n == 18 || n == 19;
      }
    } else if n < 30 {
      if n < 25 {
        assert n == 20 || n == 21 || n == 22 || n == 23 || n == 24;
      } else {
        assert n == 25 || n == 26 || n == 27 || n == 28 || n == 29;
      }
    } else {
      if n < 35 {
        assert n == 30 || n == 31 || n == 32 || n == 33 || n == 34;
      } else {
        assert n == 35 || n == 36 || n == 37 || n == 38 || n == 39;
      }
    }
  }

  /** The advertising channels 37, 38 and 39 are at 2402, 2426 and 2480 MHz; data channel
      n is at 2404 + 2n below channel 38's slot and at 2428 + 2(n - 11) above it. */
  lemma ChannelFrequencies(c: Channel)
    requires c.Valid()
    ensures c.number == 37 ==> c.frequency == 2402
    ensures c.number == 38 ==> c.frequency == 2426
    ensures c.number == 39 ==> c.frequency == 2480
    ensures c.number <= 10 ==> c.frequency == 2404 + 2 * c.number
    ensures 11 <= c.number <= 36 ==> c.frequency == 2428 + 2 * (c.number - 11)
  {
    TableMatchesClosedForm(c.number);
  }

  /** Every valid frequency is even, within 2402..=2480 MHz, and names one channel only. */
  lemma FrequencyRange(c: Channel)
    requires c.Valid()
    ensures c.frequency % 2 == 0 && 2402 <= c.frequency <= 2480
    ensures c.number <= 39
  {
    TableMatchesClosedForm(c.number);
  }

  lemma FrequencyInjective(a: Channel, b: Channel)
    requires a.Valid() && b.Valid()
    requires a.frequency == b.frequency
    ensures a.number == b.number
  {
    TableMatchesClosedForm(a.number);
    TableMatchesClosedForm(b.number);
  }

  /** For every valid channel the whitening seed is the number plus 64, i.e. bit 6 is free. */
  lemma WhiteningIvIsOffset(c: Channel)
    requires c.Valid()
    ensures c.WhiteningIv() == c.number + 64
  {
    TableMatchesClosedForm(c.number);
    assert Pow2(6) == 64;
    OrDisjoint(1, c.number, 6);
    OrComm(c.number, 0x40);
  }

  /** Among valid channels, `is_advertising` holds exactly for 37, 38 and 39. */
  lemma AdvertisingFrequencies(c: Channel)
    ensures c.Valid() ==> (c.number >= 37 <==> c.frequency == 2402 || c.frequency == 2426 || c.frequency == 2480)
  {
    if c.Valid() {
      ChannelFrequencies(c);
      FrequencyRange(c);
    }
  }

  lemma AdvertisingChannels(c: Channel)
    requires c.Valid()
    ensures c.IsAdvertising() <==> c.number == 37 || c.number == 38 || c.number == 39
  {
    TableMatchesClosedForm(c.number);
  }
}
