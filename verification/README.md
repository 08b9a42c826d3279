# pinetime-rs core, modelled in Dafny

This project models the firmware core of a PineTime smartwatch (pinetime-rs). It covers:

- **BLE advertising layer.** The channel table; the advertising PDU codec (AD structures, device addresses, primary advertising PDUs and ADV_IND encoding); and the PHY driver over the nRF52832 RADIO peripheral.
- **GATT attribute table.** The attribute table that answers attribute-protocol queries.
- **ST7789 display.** The command encoder, and two display drivers that frame commands on the SPI bus and drive the backlight pins. The first driver is the legacy `src/display` one; the second is `src/drivers/display`, which adds colour packing per pixel format.
- **Touch panel.** Report decoding and the event-handler fallback chain.
- **MCUboot image metadata.** The header and the trailer.
- **Memory and time.** The bump-pointer heap allocator and the RTC-driven wall clock.

One Dafny module per source file:

| module | file | source |
|---|---|---|
| `Channels` | channels.dfy | src/drivers/bluetooth/phy/channels.rs |
| `Packets` | packets.dfy | src/drivers/bluetooth/phy/packets.rs |
| `Phy` | phy.dfy | src/drivers/bluetooth/phy/mod.rs |
| `Gatt` | attribute_provider.dfy | src/drivers/bluetooth/attribute_provider.rs |
| `DisplayCommands` | display_commands.dfy | src/display/commands.rs |
| `DisplayBus` | display_bus.dfy | pins, SPI bytes and delays shared by both display drivers |
| `LegacyDisplay` | legacy_display.dfy | src/display/mod.rs |
| `DisplayDriver` | display_driver.dfy | src/drivers/display/mod.rs |
| `TouchPanel` | touchpanel.dfy | src/drivers/touchpanel/mod.rs |
| `McubootHeader` | mcuboot_header.dfy | src/drivers/mcuboot/header.rs |
| `McubootFooter` | mcuboot_footer.dfy | src/drivers/mcuboot/footer.rs |
| `Allocator` | allocator.dfy | src/allocator/mod.rs |
| `Clock` | clock.dfy | src/drivers/clock/mod.rs |
| `Bits`, `Seqs`, `Wrappers` | bits.dfy, seqs.dfy, wrappers.dfy | fixed-width integers, arithmetic bit-OR, little-endian words, `Option`/`Result` |

**Form of the model.**

- Pure code becomes functions with lemmas about them.
- Code that updates state becomes classes:
  - `Phy.PhyRadio`: the registers, task log, event flags, packet queue and a 258-byte packet `array`.
  - `DisplayDriver.Display` and `LegacyDisplay.Display`: a log of every pin write, SPI byte and delay.
  - `McubootFooter.Footer`: the trailer bytes as an `array`.
  - `Allocator.BumpPointerAlloc` and `Clock.Clock`.
- Each method is proved against a specification function or a ghost log of the commands sent. The property lemmas are stated about those functions.
- Bitwise `&` with a low-bit mask, `>>` and `<<` are written as `%`, `/` and `*` by powers of two. `|` is `Bits.Or`, defined bit by bit; where the operands share no bit it is proved equal to their sum.
- **Panics.** A panic on malformed input read from outside (an unknown gesture byte, bad MCUboot magic) is an error result (`Failure`, `None`). A panic that the caller must avoid becomes a precondition. Examples: an invalid channel number, a missing CRC IV on a data channel, u32 overflow in `tick`, and a `todo!()` arm. The out-of-bounds slices of `from_advertising_primary` are different: its bytes arrive over the air, so no caller can avoid them. They are excluded by the precondition `Packets.PrimaryDecodable`, and "## Left out" says what that leaves unmodelled. Errors the source itself returns stay errors: `BluetoothAddress::new` gives `Err(())` for fewer than 6 bytes, and `Packets.NewAddress` gives `Failure`.

**Behaviour of the code as written, which the model keeps:**

- The PHY packet queue is last in, first out: `Vec::pop` sends the newest packet first.
- `rx_enable` from Disabled triggers TXEN, not RXEN.
- `AdvData::to_bytes` writes no AD-type byte, so decoding an encoded AD structure does not give it back. `Packets.FlagsDoNotRoundTrip` exhibits a case.
- `BluetoothAddress::new` panics on more than 6 bytes.
- Tuning to a data channel with its own access address writes the whole PREFIX0 register, which clears AP0. The advertising access address set by `new` is then gone (`Phy.TuneDropsAdvertisingAddress`).

## Model

| member | source | states |
|---|---|---|
| Channels.WhiteningIv | src/drivers/bluetooth/phy/channels.rs:58-60 | the whitening seed has bit 6 set, so it is at least 0x40 |
| Channels.New | src/drivers/bluetooth/phy/channels.rs:7-56 | `new` stores the number unchanged with the frequency of its table entry; numbers without an entry are excluded (they panic) |
| Channels.TableMatchesClosedForm | src/drivers/bluetooth/phy/channels.rs:8-49 | `new` is defined exactly for 0..=39, and there its table equals an independent closed form of the BLE channel plan |
| Channels.TableEntry | src/drivers/bluetooth/phy/channels.rs:9-48 | every entry 0..=39 of the table matches the closed form |
| Channels.ChannelFrequencies | src/drivers/bluetooth/phy/channels.rs:9-48 | 37→2402, 38→2426, 39→2480 MHz; n in 0..=10 → 2404+2n; n in 11..=36 → 2428+2(n−11) |
| Channels.FrequencyRange | src/drivers/bluetooth/phy/channels.rs:8-49 | every valid frequency is even and in 2402..=2480, and the number is at most 39 |
| Channels.FrequencyInjective | src/drivers/bluetooth/phy/channels.rs:8-49 | two valid channels with the same frequency have the same number |
| Channels.WhiteningIvIsOffset | src/drivers/bluetooth/phy/channels.rs:58-60 | for every valid channel `number \| 0x40` equals number + 64 |
| Channels.Channel.IsAdvertising | src/drivers/bluetooth/phy/channels.rs:62-64 | a valid channel is an advertising one exactly when its frequency is 2402, 2426 or 2480 MHz |
| Channels.AdvertisingChannels | src/drivers/bluetooth/phy/channels.rs:62-64 | among valid channels `is_advertising` holds exactly for 37, 38 and 39 |
| Packets.TxPowerByteRoundTrip | src/drivers/bluetooth/phy/packets.rs:58-74 | `as i8` and `as u8` are inverse two's-complement reinterpretations |
| Packets.FromRecord | src/drivers/bluetooth/phy/packets.rs:64-77 | type byte 1 gives Flags of byte 1, 10 gives TxPowerLevel of byte 1 as i8, 8 and 9 give the short and complete name of the bytes after the type, anything else gives Unknown of the whole record |
| Packets.ToBytes | src/drivers/bluetooth/phy/packets.rs:50-61 | Unknown is emitted unchanged; every other variant is a length byte equal to the number of bytes after it: [1, flags], [1, level as u8], or the name length then the name |
| Packets.FromRecordThenToBytes | src/drivers/bluetooth/phy/packets.rs:50-77 | decoding then encoding gives [1, payload] for Flags and Tx power, the name length then the name for names, and the record itself otherwise |
| Packets.ParseFrom | src/drivers/bluetooth/phy/packets.rs:21-48 | the reference definition of the record walk yields at most one element per two bytes (plus one) |
| Packets.DecodableFromSuffix | src/drivers/bluetooth/phy/packets.rs:26-45 | the cursor walk runs without panicking from `i` exactly when the suffix from `i` parses |
| Packets.WalkFromIsParse | src/drivers/bluetooth/phy/packets.rs:26-45 | walking with a cursor from `i` equals parsing the suffix that starts at `i` |
| Packets.DataFromPdu | src/drivers/bluetooth/phy/packets.rs:21-48 | the `while` loop returns exactly the parsed records, at most one per input byte |
| Packets.ParseCons | src/drivers/bluetooth/phy/packets.rs:38-44 | an in-bounds record is decoded by `From<&[u8]>` and the walk continues 1+len bytes later |
| Packets.ParseStopsAtZero | src/drivers/bluetooth/phy/packets.rs:26-32 | parsing stops at the first zero length byte and returns only the records before it |
| Packets.ParseOverrun | src/drivers/bluetooth/phy/packets.rs:34-44 | a record whose length overruns the buffer becomes Unknown of every byte after its length byte and is the last element |
| Packets.NewAddress | src/drivers/bluetooth/phy/packets.rs:105-129 | fewer than 6 bytes is an error; 6 bytes give an address whose `to_bytes` is the input and whose `is_random` is the flag |
| Packets.BluetoothAddress.ToBytes | src/drivers/bluetooth/phy/packets.rs:118-122 | the same six bytes whichever kind the address is; the kind and the bytes rebuild the address |
| Packets.BluetoothAddress.IsRandom | src/drivers/bluetooth/phy/packets.rs:124-129 | holds exactly for the random address with its own bytes |
| Packets.FromAdvertisingPrimary | src/drivers/bluetooth/phy/packets.rs:148-191 | once the slices are in bounds decoding never fails, the variant is the one the low nibble of byte 0 names, and types 8..15 are the unknown PDU |
| Packets.PrimaryAddresses | src/drivers/bluetooth/phy/packets.rs:149-186 | the first address is bytes 2..8 with TxAdd (bit 6) for types 0..6; the second is bytes 8..14 with RxAdd (bit 7) exactly for types 1, 3 and 5 |
| Packets.PrimaryPayload | src/drivers/bluetooth/phy/packets.rs:154-188 | the unknown PDU keeps the payload `data[2..2+byte1]`, CONNECT_IND's LLData is bytes 14..36, and the AD list is parsed from byte 8 to the end of the payload |
| Packets.EncodeAllSnoc | src/drivers/bluetooth/phy/packets.rs:206-210 | encoding one more AD structure appends its bytes |
| Packets.EncodeAllPrefixLength | src/drivers/bluetooth/phy/packets.rs:206-210 | the bytes of a prefix of the AD list are no longer than those of the whole list |
| Packets.AdvIndBytes | src/drivers/bluetooth/phy/packets.rs:196-215 | an ADV_IND without length overflow is at most 257 bytes |
| Packets.PacketToBytes | src/drivers/bluetooth/phy/packets.rs:194-218 | the loop that appends AD structures and sums the length field produces exactly the ADV_IND bytes |
| Packets.SetLength | src/drivers/bluetooth/phy/packets.rs:198-212 | overwriting byte 1 of the header sets the length and nothing else |
| Packets.AdvIndHeader | src/drivers/bluetooth/phy/packets.rs:196-215 | byte 0 is 0x40 exactly for a random address and 0 otherwise; byte 1 is the total length minus 2; bytes 2..8 are the address; the AD bytes follow |
| Packets.AdvIndRoundTrip | src/drivers/bluetooth/phy/packets.rs:148-215 | decoding an encoded ADV_IND gives back the address and the AD list its bytes parse to |
| Packets.FlagsDoNotRoundTrip | src/drivers/bluetooth/phy/packets.rs:52-77 | the encoding of `Flags(6)` parses back as `Unknown([6])`, because no AD-type byte is written |
| Phy.StateFromRaw | src/drivers/bluetooth/phy/mod.rs:32-46 | each accepted STATE value (0..4, 9..12) maps to the state whose code it is |
| Phy.StateCodeRoundTrip | src/drivers/bluetooth/phy/mod.rs:32-46 | every state's code is accepted and decodes back to that state |
| Phy.IsTx | src/drivers/bluetooth/phy/mod.rs:50-55 | the TX states are exactly those whose STATE value is 9..12 |
| Phy.IsRx | src/drivers/bluetooth/phy/mod.rs:57-62 | the RX states are exactly those whose STATE value is 1..4 |
| Phy.TxRxPartition | src/drivers/bluetooth/phy/mod.rs:49-62 | no state is both TX and RX, and Disabled is the only state that is neither |
| Phy.AccessAddressSplit | src/drivers/bluetooth/phy/mod.rs:150-156 | the top three bytes of `aa << 8` and the prefix byte `aa >> 24` together give back the access address |
| Phy.Ap1Field | src/drivers/bluetooth/phy/mod.rs:234-236 | writing a byte to AP1 puts it in bits 8-15 and zeroes AP0 |
| Phy.Configure | src/drivers/bluetooth/phy/mod.rs:85-184 | after `new`: BLE 1 Mbit/s, +4 dBm; 8-bit length field, 1-byte S0, no S1, 8-bit preamble; max length 255, 3-byte base address, whitening on; 3-byte CRC that skips the address; logical address 0 is 0x8E89BED6; CRCPOLY 0x65B, TIFS 150, TX address 0, RX address 0 enabled, interrupts enabled |
| Phy.CrcPolynomialTerms | src/drivers/bluetooth/phy/mod.rs:131-145 | 0x65B is the OR of `1 << k` for the exponents 10, 9, 6, 4, 3, 1 and 0 |
| Phy.Tune | src/drivers/bluetooth/phy/mod.rs:189-239 | CRCINIT is the CRC IV or 0x555555, DATAWHITEIV is number+64, FREQUENCY is frequency−2400; BASE1/PREFIX0 change only when an access address is given, and then logical address 1 is that address and PREFIX0 holds only AP1; no other register changes; data channels without IV or access address are excluded (they panic) |
| Phy.TuneDropsAdvertisingAddress | src/drivers/bluetooth/phy/mod.rs:226-238 | with an explicit access address the PREFIX0 write clears AP0, so logical address 0 no longer matches the advertising access address |
| Phy.TxEnableTask | src/drivers/bluetooth/phy/mod.rs:243-269 | DISABLE exactly from Rx/RxIdle/RxRU, TXEN exactly from Disabled, nothing from RxDisable and the TX states |
| Phy.RxEnableTask | src/drivers/bluetooth/phy/mod.rs:273-299 | DISABLE exactly from Tx/TxIdle/TxRU, TXEN (not RXEN) exactly from Disabled, nothing from TxDisable and the RX states |
| Phy.EnableDisablesOppositeDirection | src/drivers/bluetooth/phy/mod.rs:243-299 | each enable disables only a running opposite direction, and never both in the same state |
| Phy.DrainStep | src/drivers/bluetooth/phy/mod.rs:336-359 | in TxIdle the last entry is removed, the radio is tuned to its channel, its bytes fill buffer[0..len] with the rest of the buffer unchanged, and START fires; an empty queue runs `rx_enable`; otherwise nothing changes |
| Phy.QueueThenDrainSendsNewest | src/drivers/bluetooth/phy/mod.rs:329-359 | a packet queued while idling in TX is the one the next drain sends, and the entries queued before it stay queued (last in, first out) |
| Phy.FirstPending | src/drivers/bluetooth/phy/mod.rs:363-403 | the event handled is a pending one that comes first in the order the handler checks events, and there is one exactly when some event is pending |
| Phy.SomeEventPending | src/drivers/bluetooth/phy/mod.rs:363-403 | any non-empty set of pending events contains one of the eleven events the handler checks |
| Phy.InterruptStep | src/drivers/bluetooth/phy/mod.rs:361-405 | the interrupt clears the first pending event only and leaves interrupts enabled |
| Phy.InterruptClearsOneEvent | src/drivers/bluetooth/phy/mod.rs:361-405 | exactly one event is cleared, it was pending and it comes first in the order the handler checks events |
| Phy.ReadyAndEndDrain | src/drivers/bluetooth/phy/mod.rs:363-381 | on READY and END the queue, tasks, buffer and registers become those of `process_packet_queue`; the packet decoded from the buffer is appended to what was received exactly on END while receiving |
| Phy.DrainKeepsLinkSettings | src/drivers/bluetooth/phy/mod.rs:336-359 | draining the queue changes none of the link settings `new` writes |
| Phy.InterruptKeepsLinkSettings | src/drivers/bluetooth/phy/mod.rs:361-405 | no interrupt changes the link settings `new` writes |
| Phy.OnlyReadyAndEndDrain | src/drivers/bluetooth/phy/mod.rs:363-376 | any event other than READY and END leaves the queue, registers, tasks, buffer and decoded packets unchanged |
| Phy.CopyFromSlice | src/drivers/bluetooth/phy/mod.rs:345-346 | the slice copy overwrites the front of the buffer and keeps the rest |
| Phy.PhyRadio.constructor | src/drivers/bluetooth/phy/mod.rs:73-187 | registers hold `Configure` of the hardware values, and the queue and task log are empty |
| Phy.PhyRadio.SetChannel | src/drivers/bluetooth/phy/mod.rs:189-239 | the registers become `Tune` of the old ones |
| Phy.TxEnableStep | src/drivers/bluetooth/phy/mod.rs:243-269 | SHORTS become the TX shorts; DISABLE is triggered from Rx, RxIdle and RxRU, TXEN from Disabled, nothing from the other states; no other register or part of the radio changes |
| Phy.RxEnableStep | src/drivers/bluetooth/phy/mod.rs:273-299 | SHORTS become the RX shorts; DISABLE is triggered from Tx, TxIdle and TxRU, TXEN from Disabled, nothing from the other states; no other register or part of the radio changes |
| Phy.QueueStep | src/drivers/bluetooth/phy/mod.rs:329-332 | the entry is the new last element of the queue, SHORTS become the TX shorts, at most one task is added after the old ones, and the events, buffer and received packets are unchanged |
| Phy.PhyRadio.TxEnable | src/drivers/bluetooth/phy/mod.rs:243-269 | SHORTS become the TX shorts and the task of `TxEnableTask` is triggered |
| Phy.PhyRadio.RxEnable | src/drivers/bluetooth/phy/mod.rs:273-299 | SHORTS become the RX shorts and the task of `RxEnableTask` is triggered |
| Phy.PhyRadio.QueuePacket | src/drivers/bluetooth/phy/mod.rs:329-332 | the entry is appended at the end of the queue and then `tx_enable` runs |
| Phy.PhyRadio.ProcessPacketQueue | src/drivers/bluetooth/phy/mod.rs:336-359 | the new queue, registers, tasks and buffer are `DrainStep` of the old ones |
| Phy.PhyRadio.SetInterruptMask | src/drivers/bluetooth/phy/mod.rs:305-327 | writing ones to INTENSET enables the interrupts; writing zeros leaves them as they were |
| Phy.PhyRadio.OnRadioInterrupt | src/drivers/bluetooth/phy/mod.rs:361-405 | the new state is `InterruptStep` of the old one |
| Gatt.ServiceData | src/drivers/bluetooth/attribute_provider.rs:48-54 | the battery service value is its UUID 0x180F, least significant byte first |
| Gatt.PropertyByte | src/drivers/bluetooth/attribute_provider.rs:82-96 | each single property is one bit of the byte, a power of two below 256 |
| Gatt.PropertyBit | src/drivers/bluetooth/attribute_provider.rs:82-96 | each single property byte is one bit, `1 << k` with k < 8 |
| Gatt.BitOr | src/drivers/bluetooth/attribute_provider.rs:98-106 | `a \| b` is a Combination whose set bits are those of a or b |
| Gatt.BitOrCommutes | src/drivers/bluetooth/attribute_provider.rs:98-106 | `a \| b` equals `b \| a` |
| Gatt.DistinctPropertiesAdd | src/drivers/bluetooth/attribute_provider.rs:82-106 | two different single properties OR to the sum of their bytes |
| Gatt.AttType | src/drivers/bluetooth/attribute_provider.rs:117-126 | services, and nothing else, get 0x2800 or 0x2801; characteristic declarations, and nothing else, get 0x2803; a value gets its characteristic's UUID |
| Gatt.Data | src/drivers/bluetooth/attribute_provider.rs:128-145 | a service gives its UUID bytes, a value its stored bytes, a characteristic [properties, handle+1 little-endian, UUID little-endian] |
| Gatt.ToRubble | src/drivers/bluetooth/attribute_provider.rs:147-153 | the handle is the one given; the type opens a group exactly for a service; a declaration's value is 5 bytes pointing at handle+1; a value attribute carries its stored bytes |
| Gatt.RubbleAttributes | src/drivers/bluetooth/attribute_provider.rs:183-188 | same length as the table; entry i has handle i+1, the type of attribute i and `data(i+1)` |
| Gatt.NewProvider | src/drivers/bluetooth/attribute_provider.rs:164-181 | three attributes: the battery service at handle 1, the read-only battery level declaration [0x02,0x03,0x00,0x19,0x2A] at 2, and its value [0] at 3 |
| Gatt.IsGroupingAttr | src/drivers/bluetooth/attribute_provider.rs:215-219 | a type opens a group exactly when some service declaration has that type |
| Gatt.GroupingIffService | src/drivers/bluetooth/attribute_provider.rs:215-219 | an attribute's type is a grouping type exactly when it is a service declaration |
| Gatt.SelectedHandles | src/drivers/bluetooth/attribute_provider.rs:198-207 | a query selects no attribute when start−1 ≥ count, else handles start..=min(end, count) in ascending order |
| Gatt.ForAttrsInRange | src/drivers/bluetooth/attribute_provider.rs:192-213 | visits a prefix of the selection in order; succeeds only after visiting all of it, and otherwise returns the first visitor error, from the last attribute visited |
| Gatt.GroupEndIndex | src/drivers/bluetooth/attribute_provider.rs:229-242 | the group that starts at index i ends before the next service declaration, or at the last attribute |
| Gatt.GroupEnd | src/drivers/bluetooth/attribute_provider.rs:221-262 | None for a non-service attribute; for a service, the attribute at the group's end index |
| Gatt.BatteryServiceGroup | src/drivers/bluetooth/attribute_provider.rs:221-243 | in the watch's table the battery service group ends at handle 3 |
| DisplayCommands.RgbFromCode | src/display/commands.rs:8-12 | a recognised code is the discriminant of the format it gives |
| DisplayCommands.ControlFromCode | src/display/commands.rs:14-21 | a recognised code is the discriminant of the format it gives |
| DisplayCommands.PixelCodesRoundTrip | src/display/commands.rs:8-21 | each discriminant is recognised again, and all fit in 3 bits |
| DisplayCommands.PixelFormatByte | src/display/commands.rs:98-99 | `(r << 4) \| c` equals 16·r + c |
| DisplayCommands.PixelFormatNibbles | src/display/commands.rs:98-104 | the high nibble of COLMOD is the RGB code and the low nibble the control code |
| DisplayCommands.BigEndian | src/display/commands.rs:69-72 | two data bytes, most significant first, that recombine to the value |
| DisplayCommands.DataBytes | src/display/commands.rs:84-90 | one data byte per input byte, in order |
| DisplayCommands.Encode | src/display/commands.rs:46-113 | every encoding starts with one Command byte and all later bytes are Data |
| DisplayCommands.AddressSetIsBigEndian | src/display/commands.rs:67-80 | CASET/RASET are 0x2A/0x2B followed by start and end, big-endian, which recombine to the addresses |
| DisplayCommands.RamWriteLayout | src/display/commands.rs:81-90 | RAMWR is 0x2C followed by one data byte per pixel byte, 1+\|v\| bytes |
| DisplayCommands.Values | src/display/commands.rs:84-90 | the byte values of a run of transmission bytes, in order |
| DisplayCommands.DecodeAddressSet | src/display/commands.rs:67-80 | CASET and RASET are recovered from their bytes |
| DisplayCommands.DecodeRamWrite | src/display/commands.rs:81-90 | RAMWR is recovered from its bytes, an empty one as the bare start-of-write |
| DisplayCommands.DecodePixelFormat | src/display/commands.rs:98-104 | COLMOD is recovered from its bytes |
| DisplayCommands.DecodeEncode | src/display/commands.rs:46-113 | decoding, with its own opcode table, recovers every command from its encoding |
| DisplayCommands.EncodeInjective | src/display/commands.rs:46-113 | different commands have different encodings, except an empty RAMWR and the bare start-of-write |
| DisplayCommands.EncodeAll | src/display/commands.rs:46-113 | a run of commands puts at least one byte on the bus per command |
| DisplayBus.LevelsAppend | src/display/mod.rs:172-200 | the pin levels after two runs are those after the second run, started where the first left off |
| DisplayBus.ObserveAppend | src/display/mod.rs:172-200 | what the panel receives from two runs is what each delivers, in order |
| DisplayBus.ObserveQuiet | src/display/mod.rs:202-262 | pin writes and delays without SPI traffic deliver nothing |
| DisplayBus.TransmitOne | src/display/mod.rs:189-200 | with chip select low a transmitted byte arrives as the same Data/Command byte, and only the command/data pin moves |
| DisplayBus.ObserveTransmitAll | src/display/mod.rs:181-200 | with chip select low the panel receives exactly the transmitted bytes |
| DisplayBus.ObserveFramed | src/display/mod.rs:172-187 | bytes framed by chip select low…high arrive unchanged from any pin levels, and chip select ends high |
| DisplayBus.ObserveSend | src/display/mod.rs:172-187 | `send` delivers exactly the encoding of the command, ends with chip select high, and moves no backlight or reset pin |
| DisplayBus.BrightnessLevels | src/display/mod.rs:232-250 | each backlight pin is low exactly when its bit (0, 1, 2) of the value is set; no other pin moves and nothing is sent |
| DisplayBus.BrightnessIgnoresHighBits | src/display/mod.rs:232-250 | only the low three bits of the brightness matter |
| DisplayBus.FullBrightnessSignals | src/drivers/display/mod.rs:112-130 | brightness 7 drives all three backlight pins low |
| DisplayBus.HardResetLevels | src/display/mod.rs:258-262 | a hard reset leaves reset high, moves no other pin and sends nothing |
| DisplayBus.SendAfter | src/display/mod.rs:172-187 | sending after any run adds exactly the command's encoding to what the panel received |
| DisplayBus.QuietAfter | src/display/mod.rs:202-262 | a run without SPI traffic adds nothing to what the panel received |
| DisplayBus.DelayKeepsLevels | src/display/mod.rs:258-262 | a delay moves no pin |
| LegacyDisplay.Encode | src/display/mod.rs:99-167 | every encoding starts with a Command byte |
| LegacyDisplay.EncodeAgrees | src/display/mod.rs:99-167 | the duplicate encoder gives the same bytes as the encoder of src/display/commands.rs for every command |
| LegacyDisplay.LiftCovers | src/display/mod.rs:56-91 | every shared command except COLMOD with the 4K format is expressible with the duplicate command type |
| LegacyDisplay.BigEndianBytes | src/display/mod.rs:367 | a colour is two bytes |
| LegacyDisplay.BigEndianMatchesDriver | src/display/mod.rs:367 | `to_be_bytes` of an Rgb565 colour equals the driver's bit packing of its channels |
| LegacyDisplay.PixelCommands | src/display/mod.rs:359-369 | a pixel inside the 240×240 box gives CASET, RASET and RAMWR; a pixel outside gives nothing |
| LegacyDisplay.InBoxOnly | src/display/mod.rs:360 | the in-box pixels of a sequence, in order |
| LegacyDisplay.DrawOnlyInBox | src/display/mod.rs:356-372 | drawing a sequence sends exactly what drawing its in-box pixels sends, three commands per in-box pixel |
| LegacyDisplay.Display.constructor | src/display/mod.rs:319-343 | nothing sent yet |
| LegacyDisplay.Display.TransmitByte | src/display/mod.rs:189-200 | sets the command/data pin for the byte kind, then writes one SPI byte |
| LegacyDisplay.Display.SendNoCs | src/display/mod.rs:181-187 | transmits the command's bytes in order |
| LegacyDisplay.Display.Send | src/display/mod.rs:172-178 | chip select low, the bytes, chip select high; the panel has received the command |
| LegacyDisplay.Display.Quiet | src/display/mod.rs:258-262 | pin writes and delays keep what the panel received |
| LegacyDisplay.Display.SetSleep | src/display/mod.rs:202-210 | sends SLPIN or SLPOUT as asked, then waits 5 ms |
| LegacyDisplay.Display.SetInvert | src/display/mod.rs:212-218 | sends INVON or INVOFF as asked |
| LegacyDisplay.Display.SetDisplayOn | src/display/mod.rs:220-226 | sends DISPON or DISPOFF as asked |
| LegacyDisplay.Display.SetNormalMode | src/display/mod.rs:228-230 | sends NORON |
| LegacyDisplay.Display.SetBrightness | src/display/mod.rs:232-250 | backlight pins active low on bits 0-2; reset and chip select unchanged |
| LegacyDisplay.Display.SoftwareReset | src/display/mod.rs:252-256 | sends SWRESET, then waits 120 ms |
| LegacyDisplay.Display.HardReset | src/display/mod.rs:258-262 | reset low, 10 µs, reset high; no other pin moved |
| LegacyDisplay.Display.SetMemoryDataAccessControl | src/display/mod.rs:265-267 | sends MADCTL with the configuration |
| LegacyDisplay.Display.SetInterfacePixelFormat | src/display/mod.rs:269-274 | sends COLMOD with the two formats |
| LegacyDisplay.Display.SelectArea | src/display/mod.rs:276-285 | sends the column range before the row range |
| LegacyDisplay.Display.Init | src/display/mod.rs:287-315 | the whole signal log is the newer driver's Rgb565 `InitSignals`: reset raised, the hard-reset pulse, the same nine commands in the same order with the same delays, then brightness 7; ends with reset high, chip select high and all backlight pins low |
| LegacyDisplay.Display.DrawPixel | src/display/mod.rs:360-368 | sends the pixel's commands: three inside the box, none outside |
| LegacyDisplay.Display.DrawIter | src/display/mod.rs:356-372 | the loop sends `DrawCommands` of the pixels, so out-of-box pixels send nothing |
| DisplayDriver.Rgb565HighByte | src/drivers/display/mod.rs:233 | `(r << 3) \| ((g >> 3) & 7)` equals 8·r + g/8 |
| DisplayDriver.Rgb565LowByte | src/drivers/display/mod.rs:234 | `(g << 5) \| (b & 0x1F)` in u8 equals 32·(g mod 8) + b |
| DisplayDriver.Rgb565Bytes | src/drivers/display/mod.rs:231-238 | byte1·256 + byte2 = r·2048 + g·32 + b |
| DisplayDriver.Rgb565Channels | src/drivers/display/mod.rs:231-238 | r, g and b are read back from the two bytes (rrrrrggg gggbbbbb) |
| DisplayDriver.Rgb666Bytes | src/drivers/display/mod.rs:251-256 | three bytes, each a channel shifted left by 2 with its low two bits clear |
| DisplayDriver.Gray2Bytes | src/drivers/display/mod.rs:270-281 | three equal bytes |
| DisplayDriver.Gray2Levels | src/drivers/display/mod.rs:271-278 | luma 0..3 gives 0x00/0x3C/0xC0/0xFC, strictly increasing |
| DisplayDriver.ColorBytes | src/drivers/display/mod.rs:232-281 | two bytes in the Rgb565 mode, three in the others |
| DisplayDriver.PixelFormatOf | src/drivers/display/mod.rs:222-267 | the pixel configuration is a COLMOD command |
| DisplayDriver.PixelFormatMatchesPacking | src/drivers/display/mod.rs:222-281 | COLMOD announces 16 bpp exactly when two bytes are sent per pixel, and 18 bpp exactly when three are |
| DisplayDriver.InitCommands | src/drivers/display/mod.rs:167-190 | `init` sends nine commands, the third being the mode's pixel format |
| DisplayDriver.Display.constructor | src/drivers/display/mod.rs:192-218 | nothing sent yet |
| DisplayDriver.Display.TransmitByte | src/drivers/display/mod.rs:69-80 | sets the command/data pin for the byte kind, then writes one SPI byte |
| DisplayDriver.Display.SendNoCs | src/drivers/display/mod.rs:61-67 | transmits the command's bytes in order |
| DisplayDriver.Display.Send | src/drivers/display/mod.rs:52-58 | chip select low, the bytes, chip select high; the panel has received the command and no backlight or reset pin moved |
| DisplayDriver.Display.Quiet | src/drivers/display/mod.rs:138-142 | pin writes and delays keep what the panel received |
| DisplayDriver.Display.SetSleep | src/drivers/display/mod.rs:82-90 | sends SLPIN or SLPOUT, then waits 5 ms |
| DisplayDriver.Display.SetInvert | src/drivers/display/mod.rs:92-98 | sends INVON or INVOFF as asked |
| DisplayDriver.Display.SetDisplayOn | src/drivers/display/mod.rs:100-106 | sends DISPON or DISPOFF as asked |
| DisplayDriver.Display.SetNormalMode | src/drivers/display/mod.rs:108-110 | sends NORON |
| DisplayDriver.Display.SetBrightness | src/drivers/display/mod.rs:112-130 | backlight pins active low on bits 0-2; reset, chip select and command/data unchanged |
| DisplayDriver.Display.SoftwareReset | src/drivers/display/mod.rs:132-136 | sends SWRESET, then waits 120 ms |
| DisplayDriver.Display.HardReset | src/drivers/display/mod.rs:138-142 | reset low, 10 µs, reset high; no other pin moved |
| DisplayDriver.Display.SetMemoryDataAccessControl | src/drivers/display/mod.rs:145-147 | sends MADCTL with the configuration |
| DisplayDriver.Display.SetInterfacePixelFormat | src/drivers/display/mod.rs:149-154 | sends COLMOD with the two formats |
| DisplayDriver.Display.SelectArea | src/drivers/display/mod.rs:156-165 | sends the column range before the row range |
| DisplayDriver.Display.SetPixelConfig | src/drivers/display/mod.rs:222-267 | sends the mode's COLMOD (65K/16 bpp for Rgb565, 262K/18 bpp otherwise), then MADCTL 0 |
| DisplayDriver.Display.TransmitColor | src/drivers/display/mod.rs:232-281 | transmits the colour's packed bytes as data bytes |
| DisplayDriver.Display.Init | src/drivers/display/mod.rs:167-190 | the whole signal log is `InitSignals`: reset raised, the hard-reset pulse, SWRESET and 120 ms, SLPOUT and 5 ms, the mode's COLMOD and MADCTL, CASET and RASET for 240x240, INVON, NORON, DISPON, then brightness 7; the panel receives the nine commands of `InitCommands`; ends with reset high, chip select high and all backlight pins low |
| DisplayDriver.InitSignalsBracketed | src/drivers/display/mod.rs:167-190 | the `init` log starts with reset high, reset low, 10 µs, reset high and ends with the three backlight pins driven low |
| TouchPanel.GestureFromByte | src/drivers/touchpanel/mod.rs:30-44 | a recognised byte is the code of the gesture it gives |
| TouchPanel.GestureBytes | src/drivers/touchpanel/mod.rs:30-44 | exactly 0x00-0x05, 0x0B and 0x0C are recognised, and each gesture's code gives it back |
| TouchPanel.Coordinate | src/drivers/touchpanel/mod.rs:104-105 | below 4096, high byte = low nibble of the first byte, low byte = the second byte |
| TouchPanel.ReportPoint | src/drivers/touchpanel/mod.rs:103-106 | both coordinates are below 4096 |
| TouchPanel.ReportPointBytes | src/drivers/touchpanel/mod.rs:103-106 | two reports give the same point exactly when they agree on the low nibbles of bytes 3 and 5 and on bytes 4 and 6 |
| TouchPanel.Chain | src/drivers/touchpanel/mod.rs:46-85 | the methods entered start with the one called, end at a method the handler implements or at `on_event`, and are never more than the default route |
| TouchPanel.ChainLinks | src/drivers/touchpanel/mod.rs:47-84 | every method before the last keeps its default body and forwards to the next |
| TouchPanel.SlideRoute | src/drivers/touchpanel/mod.rs:48-78 | a default body forwarding to `on_slide` ends at the default `on_event` |
| TouchPanel.DefaultChains | src/drivers/touchpanel/mod.rs:47-84 | with default bodies: slide_* and click_double/click_long → on_slide → on_event; click_single → on_click → on_event |
| TouchPanel.ChainFollowsDefaultRoute | src/drivers/touchpanel/mod.rs:46-85 | the methods entered with any handler are a prefix of those entered when the handler implements nothing |
| TouchPanel.HandleInterrupt | src/drivers/touchpanel/mod.rs:95-120 | an unknown gesture byte fails with that byte; otherwise the point is decoded, nothing is called without a handler, and with one the gesture's own method is called first |
| McubootHeader.Get | src/drivers/mcuboot/header.rs:19-57 | a header exactly when bytes 0..4 are 3D B8 F3 96; major = byte 20, minor = byte 21, revision = bytes 22-23 and build = bytes 24-27, little-endian |
| McubootHeader.GetReadsOnlyMagicAndVersion | src/drivers/mcuboot/header.rs:31-52 | the result depends on bytes 0..4 and 20..28 only |
| McubootHeader.Layout | src/drivers/mcuboot/header.rs:20-50 | a laid-out header region is 32 bytes |
| McubootHeader.LeU16Inverse | src/drivers/mcuboot/header.rs:41-44 | `from_le_bytes` of a value's two bytes is the value |
| McubootHeader.LeU32Inverse | src/drivers/mcuboot/header.rs:45-50 | `from_le_bytes` of a value's four bytes is the value |
| McubootHeader.GetLayout | src/drivers/mcuboot/header.rs:19-57 | reading a header written with a version gives that version back |
| McubootFooter.MarkedValid | src/drivers/mcuboot/footer.rs:40-42 | the trailer keeps its 40-byte length |
| McubootFooter.MarkedValidProperties | src/drivers/mcuboot/footer.rs:25-48 | after marking, `is_valid` holds, no other byte changed, the magic check gives the same answer, and marking again changes nothing |
| McubootFooter.MarkConfirmedIsNoop | src/drivers/mcuboot/footer.rs:40-48 | marking leaves the trailer unchanged exactly when it was already valid |
| McubootFooter.Footer.IsValid | src/drivers/mcuboot/footer.rs:44-48 | valid exactly when byte 0x10 is 0x01, that is, exactly when marking valid would change nothing |
| McubootFooter.Footer.constructor | src/drivers/mcuboot/footer.rs:34-36 | the footer refers to the given trailer |
| McubootFooter.Footer.Get | src/drivers/mcuboot/footer.rs:11-37 | a footer exactly when trailer bytes 24..40 are the MCUboot magic |
| McubootFooter.Footer.MarkValid | src/drivers/mcuboot/footer.rs:40-42 | writes 0x01 at offset 0x10 in place, nothing else, and `is_valid` holds afterwards |
| Allocator.AlignUp | src/allocator/mod.rs:29-32 | for a power-of-two alignment the start is aligned and head ≤ start < head + align |
| Allocator.Allocate | src/allocator/mod.rs:22-42 | the head never moves back; either it stays or the block starts at the aligned head and the head moves to its end; a non-null pointer is aligned |
| Allocator.AllocFits | src/allocator/mod.rs:34-40 | success exactly when the aligned block fits below `end`; otherwise null and the same head; `head ≤ end` is kept |
| Allocator.SuccessiveAllocsDisjoint | src/allocator/mod.rs:34-40 | two successive successful allocations hand out disjoint blocks, the second after the first, both inside the arena |
| Allocator.BumpPointerAlloc.constructor | src/allocator/mod.rs:14-17 | the arena's head and end as given |
| Allocator.BumpPointerAlloc.Alloc | src/allocator/mod.rs:22-42 | the pointer and new head are `Allocate` of the old head, and `head ≤ end` is kept |
| Allocator.BumpPointerAlloc.Dealloc | src/allocator/mod.rs:44-46 | nothing changes |
| Clock.Ticked | src/drivers/clock/mod.rs:20-27 | the time advances by 125 ms per counter tick and the new counter is remembered |
| Clock.TickTwice | src/drivers/clock/mod.rs:20-27 | two ticks equal one tick to the later counter, and a repeated tick with an unchanged counter changes nothing |
| Clock.TickAll | src/drivers/clock/mod.rs:20-27 | after a run of ticks the remembered counter is the last reading |
| Clock.TickAllElapsed | src/drivers/clock/mod.rs:20-27 | over any run of ticks the time advances by 125 ms per counter tick between the first and last reading |
| Clock.TimeFromEpoch | src/drivers/clock/mod.rs:12-27 | from `new`, the time is always 125 ms times the last counter reading |
| Clock.Clock.constructor | src/drivers/clock/mod.rs:12-18 | starts at the Unix epoch with the previous counter at 0 |
| Clock.Clock.Tick | src/drivers/clock/mod.rs:20-27 | the new time and counter are `Ticked` of the old ones |

## Left out

- Register I/O is abstract. There is no MMIO, no `dump_registers` and no `rprintln!` logging. On END while receiving, the decoded packet is recorded in a log instead of printed.
- The RADIO STATE register and the EVENTS flags belong to the hardware. The model takes them as given and does not simulate the radio's own state transitions; within one driver call STATE is fixed.
- Phy.PhyRadio.OnRadioInterrupt: on END while receiving, the buffer holds a PDU sent by another device, and `from_advertising_primary` panics on a malformed one (for example a header byte 0x00 with a length byte of 3, too short for the 6-byte address), which halts the firmware. The precondition `Phy.InterruptOk` excludes such buffers (it asks `Packets.PrimaryDecodable` of them), so the model says nothing about what a remote sender can make the firmware do with a malformed packet.
- Phy.PhyRadio.SetInterruptMask: does not model the individual INTENSET bits, only whether interrupts are enabled.
- PACKETPTR is written by `new` with the packet buffer's address; the pointer value is not modelled, and the buffer is the `array` the driver holds.
- AD local names stay the bytes they were decoded from; `String::from_utf8_lossy` is not modelled.
- The `rubble` attribute protocol and link layer are not part of this model. The visitor of `for_attrs_in_range` is a function, and the provider passed to it (`&Self`) is left out. Attribute UUIDs are 16-bit only.
- Gatt.ForAttrsInRange: start and end must be at least 1, since `- 1` underflows otherwise, and the range may not be reversed by more than one, since the slice panics otherwise.
- Display delays are signals in the log; time is not modelled. The SPI `write` and the pin `unwrap`s are taken to succeed.
- `fill_contiguous`, `size` and the graphics helpers depend on embedded-graphics rectangles, which are not part of this model. The legacy driver's `new` only stores its pins.
- Packets.AdvIndEncodable: the ADV_IND length byte is summed with a u8 `length +=`, which panics in debug builds and wraps in release builds past 255; encoding requires that it does not. Likewise Packets.Encodable requires names of at most 255 bytes, where `u8::try_from(n.len()).unwrap()` panics.
- DisplayDriver.Display.TransmitColor: a Gray2 luma above 3 panics in the source; here it is excluded by the precondition `Fits`.
- TouchPanel.HandleInterrupt: the I2C read of the 63-byte report is a parameter, and a failed read (`unwrap`) is not modelled. The handler's own method bodies are abstracted to the set of methods it implements; the model gives the order in which methods are entered, not what they do.
- The MCUboot header and trailer are byte sequences or arrays given as parameters, not raw flash addresses. The `src/drivers/mcuboot/mod.rs` delegation is not modelled.
- The allocator's `interrupt::free` critical section is left out: `alloc` is modelled single-threaded.
- Allocator.BumpPointerAlloc.Alloc: the 32-bit additions `head + align - 1` and `start + size` must not overflow (a precondition). Release builds would wrap silently.
- Clock: the date and time is an unbounded count of milliseconds since the epoch; chrono's date range and the i64 conversion are not modelled. The RTC counter value is a parameter of `Tick`.
- Clock.Clock.Tick: the counter must not have gone backwards, and `(counter - prev) * 125` must fit in u32 (a precondition; both panic in debug builds). Counter wrap-around of the RTC is therefore not modelled.
