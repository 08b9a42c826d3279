/**
 * The BLE PHY driver over the nRF52832 RADIO peripheral. Registers are abstract
 * values; STATE and the EVENTS flags belong to the hardware, and the driver only
 * reads them. Triggering a task is recorded in a log of task writes.
 */
module Phy {
  import opened Bits
  import opened Wrappers
  import opened Channels
  import opened Packets

  // ---- Radio state ----

  datatype PhyState = Disabled | RxRU | RxIdle | Rx | RxDisable | TxRU | TxIdle | Tx | TxDisable

  /** The STATE register value of each state. */
  function StateCode(s: PhyState): u32 {
    match s
    case Disabled => 0
    case RxRU => 1
    case RxIdle => 2
    case Rx => 3
    case RxDisable => 4
    case TxRU => 9
    case TxIdle => 10
    case Tx => 11
    case TxDisable => 12
  }

  /** Values `PhyState::from` accepts; any other value panics. */
  predicate ValidStateCode(n: u32) {
    n <= 4 || 9 <= n <= 12
  }

  /** `From<u32> for PhyState`. */
  function StateFromRaw(n: u32): (s: PhyState)
    requires ValidStateCode(n)
    ensures StateCode(s) == n
  {
    if n == 0 then Disabled
    else if n == 1 then RxRU
    else if n == 2 then RxIdle
    else if n == 3 then Rx
    else if n == 4 then RxDisable
    else if n == 9 then TxRU
    else if n == 10 then TxIdle
    else if n == 11 then Tx
    else TxDisable
  }

  /** Every state has a valid code, and decoding it gives the state back. */
  lemma StateCodeRoundTrip(s: PhyState)
    ensures ValidStateCode(StateCode(s)) && StateFromRaw(StateCode(s)) == s
  {
  }

  /** The TX states are exactly those whose STATE value is 9..12. */
  predicate IsTx(s: PhyState)
    ensures IsTx(s) <==> 9 <= StateCode(s) <= 12
  {
    s == Tx || s == TxRU || s == TxIdle || s == TxDisable
  }

  /** The RX states are exactly those whose STATE value is 1..4. */
  predicate IsRx(s: PhyState)
    ensures IsRx(s) <==> 1 <= StateCode(s) <= 4
  {
    s == Rx || s == RxRU || s == RxIdle || s == RxDisable
  }

  /** No state is both transmitting and receiving, and Disabled is the only state that is neither. */
  lemma TxRxPartition(s: PhyState)
    ensures !(IsTx(s) && IsRx(s))
    ensures !IsTx(s) && !IsRx(s) <==> s == Disabled
  {
  }

  // ---- Registers ----

  /** The five SHORTS bits the driver writes; a write clears every other short. */
  datatype Shorts = Shorts(readyStart: bool, endStart: bool, endDisable: bool, disabledTxen: bool, disabledRxen: bool)

  const TxShorts := Shorts(false, false, false, true, false)
  const RxShorts := Shorts(true, true, false, false, true)

  /** The MODE register: data rate and modulation. */
  datatype RadioMode = Nrf1Mbit | Nrf2Mbit | Ble1Mbit | Ble2Mbit

  /**
   * The registers the driver writes. PCNF0 is split into its LFLEN, S0LEN,
   * S1LEN, S1INCL and PLEN fields, PCNF1 into MAXLEN, BALEN and WHITEEN,
   * CRCCNF into LEN and SKIPADDR.
   */
  datatype Registers = Registers(
    mode: RadioMode,
    txPowerDbm: i8,
    lengthBits: u8,
    s0Bytes: u8,
    s1Bits: u8,
    s1Include: bool,
    preamble16: bool,
    skipAddress: bool,
    shorts: Shorts,
    crcInit: u32,
    dataWhiteIv: u8,
    frequency: u8,
    base0: u32,
    base1: u32,
    prefix0: u32,
    crcPoly: u32,
    tifs: u8,
    txAddress: u8,
    rxAddresses: u8,
    maxLength: u8,
    baseLength: u8,
    whitening: bool,
    crcLength: u8,
    interruptsEnabled: bool)

  datatype RadioTask = TaskTxen | TaskDisable | TaskStart

  datatype RadioEvent =
    | Ready | Address | Payload | End | RadioDisabled | DevMatch | DevMiss | RssiEnd | BcMatch | CrcOk | CrcError

  const AdvertisingAccessAddress: u32 := 0x8E89BED6

  /** `aa << 8` on a u32: the low three bytes of the access address moved up one byte. */
  function BaseOf(aa: u32): u32 {
    (aa * 0x100) % 0x1_0000_0000
  }

  /** `(aa >> 24) as u8`: the most significant byte, which goes into a prefix field. */
  function PrefixOf(aa: u32): u8 {
    aa / 0x100_0000
  }

  /** With a 3-byte base address the radio matches on the top three BASE bytes and the
      prefix byte, which together are exactly the access address. */
  lemma AccessAddressSplit(aa: u32)
    ensures PrefixOf(aa) * 0x100_0000 + BaseOf(aa) / 0x100 == aa
  {
    var hi := aa / 0x100_0000;
    var lo := aa % 0x100_0000;
    assert aa == hi * 0x100_0000 + lo;
    assert aa * 0x100 == hi * 0x1_0000_0000 + lo * 0x100;
    assert BaseOf(aa) == lo * 0x100;
  }

  /** Writing a byte into AP1 (bits 8-15 of PREFIX0) and nothing else. */
  lemma Ap1Field(p: u8)
    ensures ((p * 0x100) / 0x100) % 0x100 == p && (p * 0x100) % 0x100 == 0
  {
  }

  /** Logical address 0 (BASE0 with prefix AP0) and 1 (BASE1 with prefix AP1). */
  function LogicalAddress0(r: Registers): nat {
    (r.prefix0 % 0x100) * 0x100_0000 + r.base0 / 0x100
  }

  function LogicalAddress1(r: Registers): nat {
    ((r.prefix0 / 0x100) % 0x100) * 0x100_0000 + r.base1 / 0x100
  }

  /** The register values `PhyRadio::new` writes over whatever the hardware held. */
  function Configure(hw: Registers): (r: Registers)
    ensures LogicalAddress0(r) == AdvertisingAccessAddress
    ensures r.crcPoly == 0x65B && r.tifs == 150 && r.txAddress == 0 && r.rxAddresses == 1
    ensures r.mode == Ble1Mbit && r.txPowerDbm == 4
    ensures r.lengthBits == 8 && r.s0Bytes == 1 && r.s1Bits == 0 && !r.s1Include && !r.preamble16
    ensures r.maxLength == 255 && r.baseLength == 3 && r.whitening
    ensures r.crcLength == 3 && r.skipAddress
    ensures r.interruptsEnabled
  {
    AccessAddressSplit(AdvertisingAccessAddress);
    hw.(mode := Ble1Mbit,
        txPowerDbm := 4,
        lengthBits := 8,
        s0Bytes := 1,
        s1Bits := 0,
        s1Include := false,
        preamble16 := false,
        skipAddress := true,
        base0 := BaseOf(AdvertisingAccessAddress),
        prefix0 := PrefixOf(AdvertisingAccessAddress),
        crcPoly := CrcPolynomial,
        tifs := 150,
        txAddress := 0,
        rxAddresses := 1,
        maxLength := 255,
        baseLength := 3,
        whitening := true,
        crcLength := 3,
        interruptsEnabled := true)
  }

  /** x^24 + x^10 + x^9 + x^6 + x^4 + x^3 + x + 1 with the x^24 term left implicit. */
  const CrcPolynomial: u32 := 0x65B

  /** The OR of `1 << k` over the polynomial's exponents: disjoint bits, so their sum. */
  lemma CrcPolynomialTerms()
    ensures CrcPolynomial == Pow2(10) + Pow2(9) + Pow2(6) + Pow2(4) + Pow2(3) + Pow2(1) + Pow2(0)
  {
    assert Pow2(3) == 8;
    assert Pow2(6) == 64;
    assert Pow2(9) == 512;
    assert Pow2(10) == 1024;
  }

  // ---- set_channel ----

  /** Register effects of `set_channel`: the CRC seed, the whitening seed and the frequency
      offset are always written; BASE1 and PREFIX0 only for an explicit access address. The
      PREFIX0 write sets AP1 and resets the other prefix bytes, AP0 included. */
  function Tune(r: Registers, channel: Channel, crcIv: Option<u32>, accessAddress: Option<u32>): (t: Registers)
    requires channel.Valid()
    requires crcIv.Some? || channel.IsAdvertising()
    requires accessAddress.Some? || channel.IsAdvertising()
    ensures t.crcInit == crcIv.GetOr(0x555555) % 0x100_0000
    ensures t.dataWhiteIv == channel.number + 64
    ensures t.frequency + 2400 == channel.frequency && 2 <= t.frequency <= 80
    ensures accessAddress.Some? ==> LogicalAddress1(t) == accessAddress.value && t.prefix0 % 0x100 == 0
    ensures accessAddress.None? ==> t.base1 == r.base1 && t.prefix0 == r.prefix0
    ensures accessAddress.Some? ==> t.prefix0 == PrefixOf(accessAddress.value) * 0x100
    ensures t == r.(crcInit := t.crcInit, dataWhiteIv := t.dataWhiteIv, frequency := t.frequency,
                    base1 := t.base1, prefix0 := t.prefix0)
  {
    WhiteningIvIsOffset(channel);
    FrequencyRange(channel);
    var t := r.(dataWhiteIv := channel.WhiteningIv(),
                crcInit := crcIv.GetOr(0x555555) % 0x100_0000,
                frequency := channel.frequency - 2400);
    match accessAddress
    case None => t
    case Some(aa) =>
      AccessAddressSplit(aa);
      Ap1Field(PrefixOf(aa));
      t.(base1 := BaseOf(aa), prefix0 := PrefixOf(aa) * 0x100)
  }

  /** Tuning to a data channel with its own access address wipes AP0, so logical address 0
      no longer holds the advertising access address set up by `new`. */
  lemma TuneDropsAdvertisingAddress(r: Registers, channel: Channel, crcIv: Option<u32>, aa: u32)
    requires channel.Valid() && (crcIv.Some? || channel.IsAdvertising())
    ensures LogicalAddress0(Tune(r, channel, crcIv, Some(aa))) < 0x100_0000
    ensures LogicalAddress0(Tune(r, channel, crcIv, Some(aa))) != AdvertisingAccessAddress
  {
    var t := Tune(r, channel, crcIv, Some(aa));
    assert t.prefix0 % 0x100 == 0;
    assert t.base0 / 0x100 < 0x100_0000;
  }

  // ---- tx_enable / rx_enable ----

  function Triggered(t: Option<RadioTask>): seq<RadioTask> {
    if t.None? then [] else [t.value]
  }

  /** The task `tx_enable` triggers from state `s`. */
  function TxEnableTask(s: PhyState): (t: Option<RadioTask>)
    ensures t == Some(TaskDisable) <==> s == Rx || s == RxIdle || s == RxRU
    ensures t == Some(TaskTxen) <==> s == Disabled
    ensures t.None? <==> s == RxDisable || IsTx(s)
  {
    if s == Rx || s == RxIdle || s == RxRU then Some(TaskDisable)
    else if s == Disabled then Some(TaskTxen)
    else None
  }

  /** The task `rx_enable` triggers from state `s`: TXEN, not RXEN, from Disabled. */
  function RxEnableTask(s: PhyState): (t: Option<RadioTask>)
    ensures t == Some(TaskDisable) <==> s == Tx || s == TxIdle || s == TxRU
    ensures t == Some(TaskTxen) <==> s == Disabled
    ensures t.None? <==> s == TxDisable || IsRx(s)
  {
    if s == Tx || s == TxIdle || s == TxRU then Some(TaskDisable)
    else if s == Disabled then Some(TaskTxen)
    else None
  }

  /** Each enable only ever disables the opposite direction, and never one already disabling. */
  lemma EnableDisablesOppositeDirection(s: PhyState)
    ensures TxEnableTask(s) == Some(TaskDisable) <==> IsRx(s) && s != RxDisable
    ensures RxEnableTask(s) == Some(TaskDisable) <==> IsTx(s) && s != TxDisable
    ensures !(TxEnableTask(s) == Some(TaskDisable) && RxEnableTask(s) == Some(TaskDisable))
  {
  }

  // ---- The driver's observable state ----

  /** Everything the driver writes: registers, task log, pending events, the packet queue,
      the packet buffer and the packets it decoded on END while receiving. */
  datatype Radio = Radio(
    regs: Registers,
    tasks: seq<RadioTask>,
    events: set<RadioEvent>,
    queue: seq<(Channel, BluetoothPacket)>,
    buf: seq<u8>,
    received: seq<Result<BluetoothPacket, ()>>)

  /** `tx_enable`: TX shorts, then DISABLE from a running RX state or TXEN from Disabled. */
  function TxEnableStep(s: PhyState, r: Radio): (r': Radio)
    ensures r' == r.(regs := r'.regs, tasks := r'.tasks)
    ensures r'.regs == r.regs.(shorts := TxShorts)
    ensures r'.tasks == r.tasks + (if s == Disabled then [TaskTxen]
                                   else if IsRx(s) && s != RxDisable then [TaskDisable]
                                   else [])
  {
    r.(regs := r.regs.(shorts := TxShorts), tasks := r.tasks + Triggered(TxEnableTask(s)))
  }

  /** `rx_enable`: RX shorts, then DISABLE from a running TX state or TXEN from Disabled. */
  function RxEnableStep(s: PhyState, r: Radio): (r': Radio)
    ensures r' == r.(regs := r'.regs, tasks := r'.tasks)
    ensures r'.regs == r.regs.(shorts := RxShorts)
    ensures r'.tasks == r.tasks + (if s == Disabled then [TaskTxen]
                                   else if IsTx(s) && s != TxDisable then [TaskDisable]
                                   else [])
  {
    r.(regs := r.regs.(shorts := RxShorts), tasks := r.tasks + Triggered(RxEnableTask(s)))
  }

  /** `queue_packet`: push, then `tx_enable`. */
  function QueueStep(s: PhyState, r: Radio, entry: (Channel, BluetoothPacket)): (r': Radio)
    ensures r'.queue == r.queue + [entry] && r'.queue[|r.queue|] == entry
    ensures r'.regs.shorts == TxShorts && r'.events == r.events && r'.buf == r.buf && r'.received == r.received
    ensures |r.tasks| <= |r'.tasks| <= |r.tasks| + 1 && r'.tasks[..|r.tasks|] == r.tasks
  {
    TxEnableStep(s, r.(queue := r.queue + [entry]))
  }

  /** The queue entry `process_packet_queue` can send without panicking: an advertising
      channel (no CRC IV or access address is passed) and an ADV_IND (every other
      `to_bytes` arm is `todo!()`) that fits in one length byte. */
  predicate Sendable(e: (Channel, BluetoothPacket)) {
    && e.0.Valid()
    && e.0.IsAdvertising()
    && e.1.AdvInd?
    && AdvIndEncodable(e.1.advData)
  }

  function Last<T>(q: seq<T>): T
    requires q != []
  {
    q[|q| - 1]
  }

  predicate CanDrain(s: PhyState, q: seq<(Channel, BluetoothPacket)>) {
    s == TxIdle && q != [] ==> Sendable(Last(q))
  }

  /** `process_packet_queue`: in TxIdle the newest entry is popped, the radio is tuned to its
      channel, its bytes are copied to the front of the buffer and START is triggered; with an
      empty queue the radio turns to receiving; otherwise nothing changes. */
  function DrainStep(s: PhyState, r: Radio): (r': Radio)
    requires |r.buf| == 258 && CanDrain(s, r.queue)
    ensures |r'.buf| == 258
    ensures r'.events == r.events && r'.received == r.received
    ensures r.queue == [] ==> r' == RxEnableStep(s, r)
    ensures s != TxIdle && r.queue != [] ==> r' == r
    ensures s == TxIdle && r.queue != [] ==>
      var e := Last(r.queue);
      var bytes := AdvIndBytes(e.1.advA, e.1.advData);
      && r'.queue + [e] == r.queue
      && r'.regs == Tune(r.regs, e.0, None, None)
      && r'.buf[..|bytes|] == bytes
      && r'.buf[|bytes|..] == r.buf[|bytes|..]
      && r'.tasks == r.tasks + [TaskStart]
  {
    if r.queue == [] then
      RxEnableStep(s, r)
    else if s != TxIdle then
      r
    else
      var e := Last(r.queue);
      var bytes := AdvIndBytes(e.1.advA, e.1.advData);
      assert r.queue[..|r.queue| - 1] + [e] == r.queue;
      r.(queue := r.queue[..|r.queue| - 1],
         regs := Tune(r.regs, e.0, None, None),
         buf := bytes + r.buf[|bytes|..],
         tasks := r.tasks + [TaskStart])
  }

  /** The queue is last in, first out: a packet queued while the radio idles in TX is the
      one the next drain sends, and the entries queued before it stay queued. */
  lemma QueueThenDrainSendsNewest(r: Radio, entry: (Channel, BluetoothPacket))
    requires |r.buf| == 258 && Sendable(entry)
    ensures var d := DrainStep(TxIdle, QueueStep(TxIdle, r, entry));
      var bytes := AdvIndBytes(entry.1.advA, entry.1.advData);
      && d.queue == r.queue
      && d.buf[..|bytes|] == bytes
      && d.regs.frequency + 2400 == entry.0.frequency
      && d.tasks == r.tasks + [TaskStart]
  {
    var q := QueueStep(TxIdle, r, entry);
    assert Last(q.queue) == entry;
    assert q.queue[..|q.queue| - 1] == r.queue;
  }

  // ---- on_radio_interrupt ----

  /** The order in which `on_radio_interrupt` checks the event registers. */
  function Rank(e: RadioEvent): nat {
    match e
    case Ready => 0
    case Address => 1
    case Payload => 2
    case End => 3
    case RadioDisabled => 4
    case DevMatch => 5
    case DevMiss => 6
    case RssiEnd => 7
    case BcMatch => 8
    case CrcOk => 9
    case CrcError => 10
  }

  /** The event an interrupt handles: the pending event checked first. */
  function FirstPending(events: set<RadioEvent>): (e: Option<RadioEvent>)
    ensures e.None? <==> events == {}
    ensures e.Some? ==> e.value in events && forall x :: x in events ==> Rank(e.value) <= Rank(x)
  {
    SomeEventPending(events);
    if Ready in events then Some(Ready)
    else if Address in events then Some(Address)
    else if Payload in events then Some(Payload)
    else if End in events then Some(End)
    else if RadioDisabled in events then Some(RadioDisabled)
    else if DevMatch in events then Some(DevMatch)
    else if DevMiss in events then Some(DevMiss)
    else if RssiEnd in events then Some(RssiEnd)
    else if BcMatch in events then Some(BcMatch)
    else if CrcOk in events then Some(CrcOk)
    else if CrcError in events then Some(CrcError)
    else None
  }

  lemma SomeEventPending(events: set<RadioEvent>)
    ensures events != {} ==>
      Ready in events || Address in events || Payload in events || End in events ||
      RadioDisabled in events || DevMatch in events || DevMiss in events || RssiEnd in events ||
      BcMatch in events || CrcOk in events || CrcError in events
  {
    if events != {} {
      var x :| x in events;
      match x
      case Ready =>
      case Address =>
      case Payload =>
      case End =>
      case RadioDisabled =>
      case DevMatch =>
      case DevMiss =>
      case RssiEnd =>
      case BcMatch =>
      case CrcOk =>
      case CrcError =>
    }
  }

  function Clear(events: set<RadioEvent>, e: Option<RadioEvent>): set<RadioEvent> {
    if e.None? then events else events - {e.value}
  }

  /** A write to INTENSET: ones enable, zeros leave the interrupt as it was. */
  function SetInterrupts(r: Radio, value: bool): Radio {
    if value then r.(regs := r.regs.(interruptsEnabled := true)) else r
  }

  /** What an interrupt may run into without panicking: a send for READY and END, and a
      decodable buffer when END arrives while receiving. */
  predicate InterruptOk(s: PhyState, r: Radio) {
    && |r.buf| == 258
    && (FirstPending(r.events) == Some(Ready) || FirstPending(r.events) == Some(End) ==> CanDrain(s, r.queue))
    && (FirstPending(r.events) == Some(End) && IsRx(s) ==> PrimaryDecodable(r.buf))
  }

  /** `on_radio_interrupt`. */
  function InterruptStep(s: PhyState, r: Radio): (r': Radio)
    requires InterruptOk(s, r)
    ensures r'.events == Clear(r.events, FirstPending(r.events))
    ensures r'.regs.interruptsEnabled
    ensures |r'.buf| == 258
  {
    var first := FirstPending(r.events);
    var r1 := SetInterrupts(r, false).(events := Clear(r.events, first));
    var r2 := if first == Some(Ready) || first == Some(End) then DrainStep(s, r1) else r1;
    var r3 :=
      if first == Some(End) && IsRx(s) then r2.(received := r2.received + [FromAdvertisingPrimary(r2.buf)])
      else r2;
    SetInterrupts(r3, true)
  }

  /** One interrupt clears exactly one pending event, the first in the order they are checked, and leaves
      the others pending. */
  lemma InterruptClearsOneEvent(s: PhyState, r: Radio)
    requires InterruptOk(s, r) && r.events != {}
    ensures var r' := InterruptStep(s, r);
      && |r.events - r'.events| == 1
      && r'.events < r.events
      && forall x :: x in r.events - r'.events ==> forall y :: y in r.events ==> Rank(x) <= Rank(y)
  {
    var e := FirstPending(r.events).value;
    assert r.events - InterruptStep(s, r).events == {e};
  }

  /** Only READY and END touch the queue, the registers other than INTENSET, the task log
      and the buffer; every other event only clears its flag. */
  lemma OnlyReadyAndEndDrain(s: PhyState, r: Radio)
    requires InterruptOk(s, r)
    requires FirstPending(r.events) != Some(Ready) && FirstPending(r.events) != Some(End)
    ensures var r' := InterruptStep(s, r);
      && r'.queue == r.queue && r'.tasks == r.tasks && r'.buf == r.buf && r'.received == r.received
      && r'.regs == r.regs.(interruptsEnabled := true)
  {
  }

  /** READY and END drain the queue as `process_packet_queue` does, and END while receiving
      appends the packet decoded from the buffer to what was received. */
  lemma ReadyAndEndDrain(s: PhyState, r: Radio)
    requires InterruptOk(s, r)
    requires FirstPending(r.events) == Some(Ready) || FirstPending(r.events) == Some(End)
    ensures var d := DrainStep(s, r.(events := Clear(r.events, FirstPending(r.events))));
      var r' := InterruptStep(s, r);
      && r'.queue == d.queue && r'.tasks == d.tasks && r'.buf == d.buf
      && r'.regs == d.regs.(interruptsEnabled := true)
      && (FirstPending(r.events) == Some(End) && IsRx(s) ==>
            r'.received == r.received + [FromAdvertisingPrimary(d.buf)])
      && (FirstPending(r.events) != Some(End) || !IsRx(s) ==> r'.received == r.received)
  {
  }

  /** The link settings `new` writes: everything but the per-channel, address, shortcut and
      interrupt registers. */
  predicate SameLinkSettings(a: Registers, b: Registers) {
    && a.mode == b.mode && a.txPowerDbm == b.txPowerDbm
    && a.lengthBits == b.lengthBits && a.s0Bytes == b.s0Bytes && a.s1Bits == b.s1Bits
    && a.s1Include == b.s1Include && a.preamble16 == b.preamble16
    && a.maxLength == b.maxLength && a.baseLength == b.baseLength && a.whitening == b.whitening
    && a.crcLength == b.crcLength && a.skipAddress == b.skipAddress && a.crcPoly == b.crcPoly
    && a.tifs == b.tifs && a.txAddress == b.txAddress && a.rxAddresses == b.rxAddresses
    && a.base0 == b.base0
  }

  /** Draining the queue leaves the link settings as they were. */
  lemma DrainKeepsLinkSettings(s: PhyState, r: Radio)
    requires |r.buf| == 258 && CanDrain(s, r.queue)
    ensures SameLinkSettings(DrainStep(s, r).regs, r.regs)
  {
  }

  /** No interrupt changes the link settings, so the ones `new` writes stay in force. */
  lemma InterruptKeepsLinkSettings(s: PhyState, r: Radio)
    requires InterruptOk(s, r)
    ensures SameLinkSettings(InterruptStep(s, r).regs, r.regs)
  {
    var first := FirstPending(r.events);
    if first == Some(Ready) || first == Some(End) {
      var r1 := r.(events := Clear(r.events, first));
      ReadyAndEndDrain(s, r);
      DrainKeepsLinkSettings(s, r1);
    } else {
      OnlyReadyAndEndDrain(s, r);
    }
  }

  // ---- The driver object ----

  /** `<[u8]>::copy_from_slice` onto the front of `dst`. */
  method CopyFromSlice(dst: array<u8>, src: seq<u8>)
    requires |src| <= dst.Length
    modifies dst
    ensures dst[..] == src + old(dst[..])[|src|..]
  {
    var i := 0;
    while i < |src|
      invariant i <= |src|
      invariant forall k :: 0 <= k < i ==> dst[k] == src[k]
      invariant forall k :: i <= k < dst.Length ==> dst[k] == old(dst[k])
    {
      dst[i] := src[i];
      i := i + 1;
    }
    assert dst[..] == src + old(dst[..])[|src|..];
  }

  class PhyRadio {
    var regs: Registers
    /** STATE, owned by the hardware. */
    var stateRaw: u32
    var tasks: seq<RadioTask>
    /** EVENTS_* registers that are set, owned by the hardware except for clearing. */
    var events: set<RadioEvent>
    var queue: seq<(Channel, BluetoothPacket)>
    var received: seq<Result<BluetoothPacket, ()>>
    const buffer: array<u8>

    predicate Valid() {
      buffer.Length == 258
    }

    function Snapshot(): Radio
      reads this, buffer
    {
      Radio(regs, tasks, events, queue, buffer[..], received)
    }

    /** `get_state`. */
    function State(): PhyState
      reads this
      requires ValidStateCode(stateRaw)
    {
      StateFromRaw(stateRaw)
    }

    /** `PhyRadio::new`: `hw`, `hwState` and `hwEvents` are what the peripheral held. */
    constructor (hw: Registers, hwState: u32, hwEvents: set<RadioEvent>, packetBuffer: array<u8>)
      requires packetBuffer.Length == 258
      ensures Valid() && buffer == packetBuffer
      ensures regs == Configure(hw)
      ensures stateRaw == hwState && events == hwEvents
      ensures tasks == [] && queue == [] && received == []
    {
      buffer := packetBuffer;
      regs := Configure(hw);
      stateRaw := hwState;
      events := hwEvents;
      tasks := [];
      queue := [];
      received := [];
    }

    /** `set_channel`. */
    method SetChannel(channel: Channel, crcIv: Option<u32>, accessAddress: Option<u32>)
      requires channel.Valid()
      requires crcIv.Some? || channel.IsAdvertising()
      requires accessAddress.Some? || channel.IsAdvertising()
      modifies this`regs
      ensures regs == Tune(old(regs), channel, crcIv, accessAddress)
    {
      regs := Tune(regs, channel, crcIv, accessAddress);
    }

    /** `tx_enable`. */
    method TxEnable()
      requires ValidStateCode(stateRaw)
      modifies this`regs, this`tasks
      ensures Snapshot() == TxEnableStep(State(), old(Snapshot()))
    {
      regs := regs.(shorts := TxShorts);
      var s := State();
      if s == Rx || s == RxIdle || s == RxRU {
        tasks := tasks + [TaskDisable];
      } else if s == Disabled {
        tasks := tasks + [TaskTxen];
      }
    }

    /** `rx_enable`. */
    method RxEnable()
      requires ValidStateCode(stateRaw)
      modifies this`regs, this`tasks
      ensures Snapshot() == RxEnableStep(State(), old(Snapshot()))
    {
      regs := regs.(shorts := RxShorts);
      var s := State();
      if s == Tx || s == TxIdle || s == TxRU {
        tasks := tasks + [TaskDisable];
      } else if s == Disabled {
        tasks := tasks + [TaskTxen];
      }
    }

    /** `queue_packet`. */
    method QueuePacket(packet: BluetoothPacket, channel: Channel)
      requires ValidStateCode(stateRaw)
      modifies this`regs, this`tasks, this`queue
      ensures Snapshot() == QueueStep(State(), old(Snapshot()), (channel, packet))
    {
      queue := queue + [(channel, packet)];
      TxEnable();
    }

    /** `process_packet_queue`. */
    method ProcessPacketQueue()
      requires Valid() && ValidStateCode(stateRaw) && CanDrain(State(), queue)
      modifies this`regs, this`tasks, this`queue, buffer
      ensures Snapshot() == DrainStep(State(), old(Snapshot()))
    {
      if State() == TxIdle {
        if |queue| > 0 {
          var entry := queue[|queue| - 1];
          queue := queue[..|queue| - 1];
          SetChannel(entry.0, None, None);
          var bytes := PacketToBytes(entry.1);
          CopyFromSlice(buffer, bytes);
          tasks := tasks + [TaskStart];
        } else {
          RxEnable();
        }
      } else if |queue| == 0 {
        RxEnable();
      }
    }

    /** `set_interrupts`. */
    method SetInterruptMask(value: bool)
      modifies this`regs
      ensures Snapshot() == SetInterrupts(old(Snapshot()), value)
    {
      if value {
        regs := regs.(interruptsEnabled := true);
      }
    }

    /** `on_radio_interrupt`. */
    method OnRadioInterrupt()
      requires Valid() && ValidStateCode(stateRaw) && InterruptOk(State(), Snapshot())
      modifies this`regs, this`tasks, this`queue, this`events, this`received, buffer
      ensures Snapshot() == InterruptStep(State(), old(Snapshot()))
    {
      SetInterruptMask(false);
      if Ready in events {
        events := events - {Ready};
        ProcessPacketQueue();
      } else if Address in events {
        events := events - {Address};
      } else if Payload in events {
        events := events - {Payload};
      } else if End in events {
        events := events - {End};
        ProcessPacketQueue();
        if IsRx(State()) {
          received := received + [FromAdvertisingPrimary(buffer[..])];
        }
      } else if RadioDisabled in events {
        events := events - {RadioDisabled};
      } else if DevMatch in events {
        events := events - {DevMatch};
      } else if DevMiss in events {
        events := events - {DevMiss};
      } else if RssiEnd in events {
        events := events - {RssiEnd};
      } else if BcMatch in events {
        events := events - {BcMatch};
      } else if CrcOk in events {
        events := events - {CrcOk};
      } else if CrcError in events {
        events := events - {CrcError};
      }
      SetInterruptMask(true);
    }
  }
}
