# SX127x LoRa driver, modelled in Dafny

This project models the driver object of `lib/sx127x.js`, a Node.js driver for
Semtech SX1276/77/78/79 LoRa transceivers on a Linux SPI bus. The model covers:

- the register-access protocol;
- the configuration setters and the value encoders behind them;
- the transmit and receive protocols, including the interrupt handler;
- the on-die temperature sequence;
- `open` and `close`.

It proves what each of these does to the SPI bus, to the chip's register file
and to the driver's own fields.

The modules follow the structure of the driver:

- `Wire` (wire.dfy) defines the register and mode constants and the faults an
  operation can end in. It also holds the frames the driver puts on the bus
  and how the chip decodes them. A write frame has bit 7 of the address set; a
  read frame has it cleared and is padded with zeros. Finally it gives the
  byte a JavaScript number becomes when it is stored in a `Buffer`, and what
  the chip's register file looks like after a write burst.
- `Config` (config.dfy) holds the pure encoders: the clamps, the bandwidth
  bucket, the coding-rate denominator, the FRF frequency word and its three
  bytes, the PA_CONFIG byte, and the read-modify-write bit-field updates.
- `Signal` (signal.dfy) holds the values derived from raw status registers:
  the IRQ-flag tests, packet RSSI and SNR, the temperature reading, and the
  position of the first TX_DONE in a run of flag reads.
- `Radio` (radio.dfy) holds class `Sx127x`, the driver object. Its fields are
  the driver's fields (`_frequency`, `_spreadingFactor`, `_txPower`,
  `_packetIndex`, ...). Its methods are the driver's methods, each with the
  driver's branches and loops.

The chip is the environment of the object:

- `spi` says whether an SPI handle is attached.
- `bus` logs every send buffer.
- `chip` is the 128-byte register file. Every write frame is stored into it as
  the chip decodes the frame: the address auto-increments, and the FIFO port
  at address 0 is not stored.
- `replies` is the script of the chip's answers: the k-th data byte it clocks
  out over the object's life is `replies(k)`. `cursor` counts how many have
  been consumed.

The contract of each driver operation (register access, every setter,
sleep and standby, the receive and transmit operations, the interrupt handler
and the temperature reading) states its whole effect as functions of the old
state and of the script:

- its result;
- the frames it sends;
- how many answers it consumes;
- the register file it leaves;
- the fields it changes.

`open` and its parts state their result, the fields they change and the
register values the configuration leaves behind, but not their frames.

Events the driver emits (a received packet, the invocation of the write
callback) are appended to `events`. The dio0 interrupt watch is the counter
`watchers`.

A source operation that throws becomes a `Result` error:

- a read with no handle attached fails with `SpiNotDefined`;
- a write with no handle fails with `NoTransport`, because `_writeRegister`
  has no guard and dereferences the absent handle;
- a `Buffer` encoder's range error becomes `OutOfRange`;
- a wrong chip version becomes `InvalidVersion`;
- the transmit poll's limit becomes `WriteTimeout`;
- the receive mode check becomes `ModeChangeFailed`.

Three behaviours of the code are followed as written:

- `setSignalBandwidth` stores the requested bandwidth, not the bucket it
  chose.
- `setCodingRate` picks the largest denominator `d` in 5..8 whose rate `4/d`
  is still at least the requested rate (5 when none is).
- `read()` returns -1 only when `available()` is exactly 0. A negative
  `available()` reads a byte.

## Model

| member | source | states |
|---|---|---|
| Wire.ReadFrameDecodes | lib/sx127x.js:490-495 | a read's send buffer has bit 7 of the address byte clear, and the chip decodes it as a read of that many bytes at the address's low seven bits |
| Wire.WriteFrameDecodes | lib/sx127x.js:543-550 | a write's send buffer has bit 7 set, and the chip decodes it as a write of exactly the given data at the address |
| Wire.Store | lib/sx127x.js:543-566 | a write burst changes only the registers it covers (consecutive from the address, none for the FIFO port); a one-byte write to a register sets exactly that register |
| Wire.ByteValue | lib/sx127x.js:549 | a number stored into a Buffer byte keeps its value modulo 256 |
| Wire.ByteOfValue | lib/sx127x.js:549 | storing a byte's value, or any number congruent to it mod 256, gives back that byte |
| Config.Clamp | lib/sx127x.js:195-201 | the clamped level lies in [lo, hi], equals the input when in range, and is the point of the range nearest to the input |
| Config.SetBits | lib/sx127x.js:184-193 | the masked bits are all set (boost on) or all cleared, and every bit outside the mask is unchanged |
| Config.WithTempMonitorOff | lib/sx127x.js:637-654 | bit 0 of IMAGE_CALIBRATION becomes TempMonitorOff, bits 1-7 are kept |
| Config.PaConfig | lib/sx127x.js:204 | for a clamped level the PA_CONFIG byte lies in 0x80..0x8F, has PA_BOOST set, and its low nibble plus 2 is the level |
| Config.WithSpreadingFactor | lib/sx127x.js:219-223 | MODEM_CONFIG_2's high nibble is the spreading factor and its low nibble is unchanged |
| Config.BandwidthCode | lib/sx127x.js:228-252 | the code is the first of 0..8 whose upper edge is at least the input (every earlier edge is below it), or 9 above 250 kHz |
| Config.BandwidthMonotone | lib/sx127x.js:228-252 | the bandwidth code is monotone non-decreasing in the requested bandwidth |
| Config.WithBandwidth | lib/sx127x.js:254-258 | MODEM_CONFIG_1's high nibble is the bandwidth code and its low nibble is unchanged |
| Config.Denominator | lib/sx127x.js:262-272 | the denominator lies in 5..8; every larger denominator's rate is below the request; its own rate reaches the request, or it is 5 (the fallback when no rate does) |
| Config.WithCodingRate | lib/sx127x.js:276-282 | bits 1-3 of MODEM_CONFIG_1 hold `d - 4`, bits 0 and 4-7 are unchanged |
| Config.DenominatorOfRatio | lib/sx127x.js:262-274 | the stored rate 4/d selects the same denominator again, so re-applying the stored coding rate (as open() does) is idempotent |
| Config.FrfWord | lib/sx127x.js:170 | the FRF word is floor(f * 2^19 / 32 MHz): the largest word whose frequency does not exceed f |
| Config.FrfBytesValue | lib/sx127x.js:168-172 | the three bytes left after slicing the Int32BE buffer are the low 24 bits of the word, big-endian |
| Config.FrequencyRoundTrip | lib/sx127x.js:165-175 | over the 24-bit FRF range the written bytes give back the requested frequency rounded down to the 32 MHz / 2^19 step |
| Config.Uint16BE | lib/sx127x.js:286-290 | the two bytes are big-endian and their value is the preamble length |
| Signal.FirstTxDone | lib/sx127x.js:471-477 | the index of the first flag byte with TX_DONE, or the run's length: TX_DONE at it, none before it |
| Signal.FirstTxDoneAt | lib/sx127x.js:471-477 | a flag run whose first TX_DONE is at index i has FirstTxDone equal to i |
| Signal.Int8 | lib/sx127x.js:614 | the signed reading lies in [-128, 127] and is the number that stores back to the same byte |
| Signal.Rssi | lib/sx127x.js:612 | RSSI is the raw byte minus 164 below 868 MHz and minus 157 from 868 MHz on, with its range on each port |
| Signal.Snr | lib/sx127x.js:614 | SNR is exactly a quarter of the signed raw byte, so it lies in [-32, 31.75] dB |
| Signal.Temperature | lib/sx127x.js:663-670 | above 128 the reading is 255 - raw (in signed terms -1 - int8), at 128 and below it is -raw, plus the compensation in both cases |
| Signal.TemperatureStep | lib/sx127x.js:663-670 | one raw LSB is one degree down, except across 128 to 129 where the two formulas meet |
| Radio.Sx127x.constructor | lib/sx127x.js:64-82 | every configuration field takes its option or, when the option is absent or zero, the default; a zeroed register file and no handle |
| Radio.Sx127x.LengthRegister | lib/sx127x.js:387-391 | the packet length is read from PAYLOAD_LENGTH exactly in implicit-header mode and from RX_NB_BYTES otherwise |
| Radio.Sx127x.Packet | lib/sx127x.js:606-614 | the packet the handler reports is a data event with exactly as many bytes as the length register answered |
| Radio.Sx127x.ReadRegister | lib/sx127x.js:490-510 | a read frame, one answer consumed and returned, no register stored; without a handle an SpiNotDefined error and nothing sent |
| Radio.Sx127x.ReadRegisterBytes | lib/sx127x.js:512-541 | a read frame of the given length, that many answers consumed and returned from offset 1; without a handle an SpiNotDefined error |
| Radio.Sx127x.WriteRegister | lib/sx127x.js:543-566 | a write frame sent and stored, no answer consumed; without a handle a NoTransport error and nothing sent |
| Radio.Sx127x.ReadVersion | lib/sx127x.js:160-163 | the VERSION register read and its answer returned |
| Radio.Sx127x.SetFrequency | lib/sx127x.js:165-175 | the field is set; the FRF registers hold the low 24 bits of the FRF word and read back as the requested frequency rounded down to a synthesizer step; a word outside int32 is a range error that sends nothing |
| Radio.Sx127x.InvertIq | lib/sx127x.js:177-182 | INVERT_IQ read, then written back with bit 6 set and the other bits as read |
| Radio.Sx127x.SetLnaBoost | lib/sx127x.js:184-193 | LNA read, then written back with bits 0-1 set or cleared and the other bits as read |
| Radio.Sx127x.SetTxPower | lib/sx127x.js:195-205 | the stored level is the clamp of the request into [2, 17] and PA_CONFIG receives a byte in 0x80..0x8F encoding it |
| Radio.Sx127x.SetSpreadingFactor | lib/sx127x.js:207-225 | the factor clamped into [6, 12] and stored; the detection pair is 0xC5/0x0C exactly for factor 6; MODEM_CONFIG_2 keeps its low nibble |
| Radio.Sx127x.SetSignalBandwidth | lib/sx127x.js:227-259 | the request stored as given; MODEM_CONFIG_1's high nibble gets its bucket, its low nibble as read |
| Radio.Sx127x.SetCodingRate | lib/sx127x.js:261-283 | the stored rate is 4/d for the chosen denominator; MODEM_CONFIG_1 gets `d - 4` in bits 1-3, bits 0 and 4-7 as read |
| Radio.Sx127x.SetPreambleLength | lib/sx127x.js:285-293 | the field is set; PREAMBLE holds the length big-endian; a length outside 16 bits is a range error that sends nothing |
| Radio.Sx127x.SetSyncWord | lib/sx127x.js:295-299 | the field is set and SYNC_WORD holds the sync word modulo 256 |
| Radio.Sx127x.SetCrc | lib/sx127x.js:301-312 | the field is set; MODEM_CONFIG_2 is written back with bit 2 set or cleared and the other bits as read |
| Radio.Sx127x.Sleep | lib/sx127x.js:318-320 | OP_MODE becomes LoRa sleep |
| Radio.Sx127x.StandBy | lib/sx127x.js:322-324 | OP_MODE becomes LoRa standby |
| Radio.Sx127x.SetContinuousReceiveMode | lib/sx127x.js:326-354 | the dio0 watch added; implicit-header mode exactly when a length is given, the header bit and the payload length written accordingly; dio0 mapped to RX_DONE; RX_CONTINUOUS entered |
| Radio.Sx127x.ReceiveSingle | lib/sx127x.js:356-436 | the flags cleared; with a good packet its length is returned, the FIFO pointed at it and standby entered; otherwise, unless already in RX_SINGLE, eleven mode reads are made and the last one alone decides between 0 and the mode-change error |
| Radio.Sx127x.AwaitPacket | lib/sx127x.js:401-433 | the mode-confirmation loop consumes exactly eleven answers after entering RX_SINGLE, and only the eleventh decides |
| Radio.Sx127x.Available | lib/sx127x.js:569-571 | the byte count read minus the packet index |
| Radio.Sx127x.Read | lib/sx127x.js:574-582 | -1 and no FIFO read exactly when available() is 0; otherwise the next FIFO byte and the packet index advanced by one |
| Radio.Sx127x.OnDio0Rise | lib/sx127x.js:585-622 | nothing happens when err is set or the value is 0; with a write pending the flags are cleared and the callback invoked once; otherwise the packet is read and reported exactly when PAYLOAD_CRC_ERROR is clear |
| Radio.Sx127x.FetchPacket | lib/sx127x.js:604-615 | the FIFO pointed at the current packet, the packet with its RSSI and SNR read, the FIFO pointer reset to 0 |
| Radio.Sx127x.Write | lib/sx127x.js:439-480 | the payload loaded and TX entered; the poll reads flags until TX_DONE, succeeding (and writing back exactly 0x08) exactly when one of the 101 flag reads shows TX_DONE, and failing with a timeout after the 101st read otherwise |
| Radio.Sx127x.TxDoneWithin | lib/sx127x.js:470-479 | the poll's first TX_DONE falls within its limit exactly when one of the 101 scripted flag answers has TX_DONE |
| Radio.Sx127x.AwaitTxDone | lib/sx127x.js:470-479 | the poll consumes flag answers up to and including the first with TX_DONE, at most 101; it writes back TX_DONE only on success |
| Radio.Sx127x.TxRegisters | lib/sx127x.js:454-466 | after loading, OP_MODE is TX, the header bit matches the header mode and PAYLOAD_LENGTH is the payload length modulo 256 |
| Radio.Sx127x.ReadTemperature | lib/sx127x.js:624-676 | the converted reading of the TEMPERATURE answer; the final OP_MODE write restores the saved op mode verbatim and the sensor is left switched off |
| Radio.Sx127x.SetTempMonitor | lib/sx127x.js:637-654 | IMAGE_CALIBRATION read and written back with bit 0 set to TempMonitorOff |
| Radio.Sx127x.Open | lib/sx127x.js:107-143 | a wrong version fails after one read; otherwise success exactly when the frequency word fits int32 and the preamble 16 bits, and then the spreading factor, coding rate and power are clamped or normalised as the setters do; FRF, the detection pair, the coding-rate bits, preamble, sync word and CRC bit hold the stored configuration; the fixed setup is done; and inverted IQ is set when asked for |
| Radio.Sx127x.ApplyModemConfig | lib/sx127x.js:128-134 | the setters leave the FRF, detection, coding-rate, preamble, sync-word and CRC registers holding the stored configuration, and touch no other register |
| Radio.Sx127x.CarrierKept | lib/sx127x.js:132-134 | the framing setters cannot undo the carrier configuration |
| Radio.Sx127x.RadioSetupKeeps | lib/sx127x.js:135-142 | the fixed setup after the setters cannot undo the modem configuration |
| Radio.Sx127x.ApplyRadioSetup | lib/sx127x.js:135-142 | both FIFO bases 0, LNA boosted, MODEM_CONFIG_3 0x04, PA_CONFIG for the clamped power, standby, no IRQ flag; no other register touched |
| Radio.Sx127x.Close | lib/sx127x.js:145-158 | the handle released; without one, the dereference fails |

## Left out

- Opening the SPI device, the transfer callbacks' `err` argument and errors from `close` are not modelled, because they are foreign I/O. A transfer always succeeds once a handle is attached. `Open` takes the handle to open.
- The status byte the chip clocks out first in every read is modelled as 0. It is discarded, as the driver discards it.
- The GPIO lines (`onoff`), the reset pulse (`_reset`) and `unexport` are hardware I/O. The dio0 watch is the counter `watchers`.
- Delays (`sleep(ms)` and `setTimeout`) are no-ops. Only the number of reads in each loop is modelled.
- Asynchronous interleaving of the dio0 handler with foreground calls is not modelled. Each operation runs atomically.
- The `arguments.length` sniffing in `write`, `receiveSingle` and `setContinuousReceiveMode` is not modelled. The model takes explicit arguments, and a length of 0 stands for an absent one.
- The write callback is a flag: whether one is pending. `OnDio0Rise` records its invocation as an event.
- `readRandom` is left out. It reads a register and discards the value.
- The `_trace` debug output is left out.
- JavaScript double arithmetic is replaced by exact arithmetic:
  - the frequency is an integer number of Hz and the FRF word is exact;
  - bandwidth and coding rate are reals;
  - SNR is a real.
- Radio.Sx127x.Open: the chip's answers to reads are scripted independently of its register file. So bits that a read-modify-write copies from the chip's answer are not constrained after open: neither the bandwidth code in the high nibble of MODEM_CONFIG_1 (re-read by setCodingRate) nor the spreading factor in the high nibble of MODEM_CONFIG_2 (re-read by setCrc). `Open` does not list its frames on the bus; its parts (`SetFrequency` and the other setters) do.
- Radio.Sx127x.ApplyModemConfig: for the same reason (reads scripted independently of the register file) it does not state the bandwidth code in MODEM_CONFIG_1's high nibble or the spreading factor in MODEM_CONFIG_2's high nibble. setCodingRate and setCrc write those registers back from a scripted answer. `SetSignalBandwidth` and `SetSpreadingFactor` state what each writes. `ApplyModemConfig` and the other parts of open (`Configure`, `ConfigureRegisters`, `Prepare`, `SetUpRadio`, `ApplyCarrier`, `ApplyModulation`, `ApplyFraming`, `ApplyRadioSetup`) do not state their frames on the bus.
- Radio.Sx127x.ReceiveSingle: without an SPI handle, only the first access is modelled as failing. The handle cannot go away during a call, so later accesses in the same operation cannot fail.
