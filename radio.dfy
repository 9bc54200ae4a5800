// The SX127x driver object: its configuration fields, its SPI register access,
// the configuration setters (read-modify-write cycles on the chip's register
// file), the transmit and receive protocols and the temperature sequence.
//
// The chip is the environment. Writes land in `chip`, the chip's 128-byte
// register file, as the chip decodes them from the frame. What the chip answers
// to reads is given by `replies`: the k-th data byte it clocks out over the
// whole life of the object is `replies(k)`, and `cursor` counts how many have
// been consumed. `bus` is every send buffer the driver has put on the SPI bus.

module Radio {
  import opened Wire
  import opened Config
  import opened Signal

  datatype Option<T> = None | Some(value: T)

  /** Constructor options; `None` is an absent property. */
  datatype Options = Options(
    frequency: Option<int>,
    spreadingFactor: Option<int>,
    signalBandwidth: Option<real>,
    codingRate: Option<real>,
    preambleLength: Option<int>,
    syncWord: Option<int>,
    txPower: Option<int>,
    crc: Option<bool>,
    tempCompensationFactor: Option<int>,
    invertIqReg: Option<bool>)

  /** `options.x || d`: an absent or zero number takes the default. */
  function OrInt(o: Option<int>, d: int): int {
    if o.Some? && o.value != 0 then o.value else d
  }

  function OrReal(o: Option<real>, d: real): real {
    if o.Some? && o.value != 0.0 then o.value else d
  }

  function OrBool(o: Option<bool>): bool {
    o.Some? && o.value
  }

  /** What the driver reports to its user: a received packet ("data" event) or
      the invocation of the callback handed to Write. */
  datatype Notice = Data(data: seq<bv8>, rssi: int, snr: real) | WriteCallback

  /** Op-mode bytes the driver writes. */
  const OP_SLEEP: bv8 := 0x80      // MODE_LONG_RANGE_MODE | MODE_SLEEP
  const OP_STDBY: bv8 := 0x81      // MODE_LONG_RANGE_MODE | MODE_STDBY
  const OP_TX: bv8 := 0x83         // MODE_LONG_RANGE_MODE | MODE_TX
  const OP_RX_CONTINUOUS: bv8 := 0x85
  const OP_RX_SINGLE: bv8 := 0x86

  /** Bounds of the two polling loops. */
  const TX_POLL_LIMIT: nat := 100
  const MODE_CHECKS: nat := 10

  const EXPECTED_VERSION: bv8 := 0x12

  class Sx127x {
    // the chip and the bus
    var chip: seq<bv8>
    const replies: nat -> bv8
    var spi: bool
    var cursor: nat
    var bus: seq<seq<bv8>>
    // what the driver reports, and the dio0 watch
    var events: seq<Notice>
    var watchers: nat
    var writeCallback: bool
    // configuration
    var frequency: int
    var spreadingFactor: int
    var signalBandwidth: real
    var codingRate: real
    var preambleLength: int
    var syncWord: int
    var txPower: int
    var crc: bool
    var implicitHeaderMode: bool
    var packetIndex: int
    var tempCompensationFactor: int
    var invertIqReg: bool

    ghost predicate Valid()
      reads this`chip
    {
      |chip| == REGISTER_COUNT
    }

    /** The next `n` data bytes the chip clocks out, starting with the `from`-th. */
    function Answers(from: nat, n: nat): (a: seq<bv8>)
      ensures |a| == n && forall k :: 0 <= k < n ==> a[k] == replies(from + k)
    {
      seq(n, k requires 0 <= k < n => replies(from + k))
    }

    /** The packet the receive handler reports when the chip answers the
        length read with reply `c`: that many payload bytes, then RSSI and SNR. */
    function Packet(c: nat): (p: Notice)
      reads this`frequency
      ensures p.Data? && |p.data| == replies(c) as nat
    {
      var n := replies(c) as nat;
      Data(Answers(c + 1, n), Rssi(replies(c + 1 + n), frequency), Snr(replies(c + 2 + n)))
    }

    /** The register holding the length of a received packet: PAYLOAD_LENGTH in
        implicit-header mode, RX_NB_BYTES otherwise. */
    function LengthRegister(): (reg: bv8)
      reads this`implicitHeaderMode
      ensures reg == REG_PAYLOAD_LENGTH <==> implicitHeaderMode
      ensures reg == REG_RX_NB_BYTES <==> !implicitHeaderMode
    {
      if implicitHeaderMode then REG_PAYLOAD_LENGTH else REG_RX_NB_BYTES
    }

    /** Reading and writing back the IRQ flags, which clears the ones set. */
    function FlagFrames(flags: bv8): seq<seq<bv8>> {
      [Rd(REG_IRQ_FLAGS), Wr(REG_IRQ_FLAGS, flags)]
    }

    /** The frames of the receive handler's packet reads starting at reply `c`:
        the FIFO pointed at the packet, its length, its bytes, RSSI and SNR
        read, the FIFO pointer reset. */
    function PacketFrames(c: nat): (frames: seq<seq<bv8>>)
      reads this`implicitHeaderMode
      ensures |frames| == 7 && frames[3] == ReadFrame(REG_FIFO, replies(c + 1) as nat)
    {
      [Rd(REG_FIFO_RX_CURRENT_ADDR), Wr(REG_FIFO_ADDR_PTR, replies(c)),
       Rd(LengthRegister()), ReadFrame(REG_FIFO, replies(c + 1) as nat),
       Rd(REG_PKT_RSSI_VALUE), Rd(REG_PKT_SNR_VALUE), Wr(REG_FIFO_ADDR_PTR, 0x00)]
    }

    /** Nothing on the bus, nothing consumed, nothing stored. */
    twostate predicate Quiet()
      reads this`bus, this`cursor, this`chip
    {
      bus == old(bus) && cursor == old(cursor) && chip == old(chip)
    }

    constructor (options: Options, replies: nat -> bv8)
      ensures Valid() && chip == Zeros(REGISTER_COUNT)
      ensures this.replies == replies && !spi && cursor == 0 && bus == []
      ensures events == [] && watchers == 0 && !writeCallback
      ensures frequency == OrInt(options.frequency, 915000000)
      ensures spreadingFactor == OrInt(options.spreadingFactor, 7)
      ensures signalBandwidth == OrReal(options.signalBandwidth, 125000.0)
      ensures codingRate == OrReal(options.codingRate, 4.0 / 5.0)
      ensures preambleLength == OrInt(options.preambleLength, 8)
      ensures syncWord == OrInt(options.syncWord, 0x12)
      ensures txPower == OrInt(options.txPower, 17)
      ensures crc == OrBool(options.crc) && !implicitHeaderMode && packetIndex == 0
      ensures tempCompensationFactor == OrInt(options.tempCompensationFactor, 0)
      ensures invertIqReg == OrBool(options.invertIqReg)
    {
      chip := Zeros(REGISTER_COUNT);
      this.replies := replies;
      spi := false;
      cursor := 0;
      bus := [];
      events := [];
      watchers := 0;
      writeCallback := false;
      frequency := OrInt(options.frequency, 915000000);
      spreadingFactor := OrInt(options.spreadingFactor, 7);
      signalBandwidth := OrReal(options.signalBandwidth, 125000.0);
      codingRate := OrReal(options.codingRate, 4.0 / 5.0);
      preambleLength := OrInt(options.preambleLength, 8);
      syncWord := OrInt(options.syncWord, 0x12);
      txPower := OrInt(options.txPower, 17);
      crc := OrBool(options.crc);
      implicitHeaderMode := false;
      packetIndex := 0;
      tempCompensationFactor := OrInt(options.tempCompensationFactor, 0);
      invertIqReg := OrBool(options.invertIqReg);
    }

    // ---- register access ----------------------------------------------------

    /** One full-duplex SPI transfer. The frame goes on the bus; the chip decodes
        it, stores the data of a write, and answers a read with a status byte
        (not modelled: 0) followed by its next data bytes. */
    method Transfer(frame: seq<bv8>) returns (rx: seq<bv8>)
      requires Valid() && spi && |frame| >= 1
      modifies this`bus, this`cursor, this`chip
      ensures Valid()
      ensures bus == old(bus) + [frame]
      ensures Decode(frame).Read? ==>
        && rx == [0] + Answers(old(cursor), |frame| - 1)
        && cursor == old(cursor) + |frame| - 1
        && chip == old(chip)
      ensures Decode(frame).Write? ==>
        && cursor == old(cursor)
        && chip == Store(old(chip), Decode(frame).addr, Decode(frame).data)
    {
      bus := bus + [frame];
      match Decode(frame)
      case Read(_, n) =>
        rx := [0] + Answers(cursor, n);
        cursor := cursor + n;
      case Write(addr, data) =>
        rx := [];
        chip := Store(chip, addr, data);
    }

    /** _readRegister: a two-byte transfer whose second received byte is the value. */
    method ReadRegister(addr: bv8) returns (r: Result<bv8>)
      requires Valid()
      modifies this`bus, this`cursor, this`chip
      ensures Valid()
      ensures spi ==> r == Ok(replies(old(cursor))) && cursor == old(cursor) + 1
      ensures spi ==> bus == old(bus) + [Rd(addr)] && chip == old(chip)
      ensures !spi ==> r == Err(SpiNotDefined) && Quiet()
    {
      var frame := ReadFrame(addr, 1);
      ReadFrameDecodes(addr, 1);
      if !spi {
        return Err(SpiNotDefined);
      }
      var rx := Transfer(frame);
      r := Ok(rx[1]);
    }

    /** _readRegisterBytes: the received buffer from offset 1 on. */
    method ReadRegisterBytes(addr: bv8, length: nat) returns (r: Result<seq<bv8>>)
      requires Valid()
      modifies this`bus, this`cursor, this`chip
      ensures Valid()
      ensures spi ==> r == Ok(Answers(old(cursor), length)) && cursor == old(cursor) + length
      ensures spi ==> bus == old(bus) + [ReadFrame(addr, length)] && chip == old(chip)
      ensures !spi ==> r == Err(SpiNotDefined) && Quiet()
    {
      var frame := ReadFrame(addr, length);
      ReadFrameDecodes(addr, length);
      if !spi {
        return Err(SpiNotDefined);
      }
      var rx := Transfer(frame);
      r := Ok(rx[1..]);
    }

    /** _writeRegister: the address with the write bit, then the data. The driver
        has no handle check here; dereferencing the absent handle fails instead. */
    method WriteRegister(addr: bv8, data: seq<bv8>) returns (r: Result<()>)
      requires Valid()
      modifies this`bus, this`cursor, this`chip
      ensures Valid()
      ensures cursor == old(cursor)
      ensures spi ==> r == Ok(()) && bus == old(bus) + [WriteFrame(addr, data)]
      ensures spi ==> chip == Store(old(chip), addr & 0x7f, data)
      ensures !spi ==> r == Err(NoTransport) && bus == old(bus) && chip == old(chip)
    {
      var frame := WriteFrame(addr, data);
      WriteFrameDecodes(addr, data);
      if !spi {
        return Err(NoTransport);
      }
      var _ := Transfer(frame);
      r := Ok(());
    }

    method ReadVersion() returns (r: Result<bv8>)
      requires Valid()
      modifies this`bus, this`cursor, this`chip
      ensures Valid()
      ensures spi ==> r == Ok(replies(old(cursor))) && cursor == old(cursor) + 1
      ensures spi ==> bus == old(bus) + [Rd(REG_VERSION)] && chip == old(chip)
      ensures !spi ==> r == Err(SpiNotDefined) && Quiet()
    {
      r := ReadRegister(REG_VERSION);
    }

    // ---- configuration setters ----------------------------------------------
    //
    // Each operation's first register access fails when no SPI handle is
    // attached, and then nothing else happens. The handle cannot go away in the
    // middle of an operation, so once the first access has gone through the later
    // ones cannot fail and their results are not inspected.

    /** setFrequency: the FRF word, written as three bytes from REG_FRF on. */
    method SetFrequency(f: int) returns (r: Result<()>)
      requires Valid()
      modifies this`frequency, this`bus, this`cursor, this`chip
      ensures Valid()
      ensures frequency == f && cursor == old(cursor)
      ensures !FitsInt32(FrfWord(f)) ==> r == Err(OutOfRange) && Quiet()
      ensures FitsInt32(FrfWord(f)) && !spi ==> r == Err(NoTransport) && Quiet()
      ensures FitsInt32(FrfWord(f)) && spi ==>
        && r == Ok(())
        && bus == old(bus) + [WriteFrame(REG_FRF, FrfBytes(FrfWord(f)))]
        && chip == Store(old(chip), REG_FRF, FrfBytes(FrfWord(f)))
        && chip[REG_FRF as int..REG_FRF as int + 3] == FrfBytes(FrfWord(f))
        && chip[REG_FRF] as int * 0x1_0000 + chip[REG_FRF + 1] as int * 0x100 + chip[REG_FRF + 2] as int
           == FrfWord(f) % 0x100_0000
      ensures 0 <= f < 0x100_0000 * FXOSC / FRF_SCALE && spi ==>
        var frf := Uint24(chip[REG_FRF as int..REG_FRF as int + 3]);
        FrequencyOf(frf) <= f as real < FrequencyOf(frf) + FXOSC as real / FRF_SCALE as real
    {
      frequency := f;
      var w := FrfWord(f);
      if !FitsInt32(w) {
        // Buffer.writeInt32BE throws a RangeError before anything is sent
        return Err(OutOfRange);
      }
      var bytes := FrfBytes(w);
      r := WriteRegister(REG_FRF, bytes);
      if spi {
        FrfBytesValue(w);
        assert chip[REG_FRF as int..REG_FRF as int + 3] == bytes;
        if 0 <= f < 0x100_0000 * FXOSC / FRF_SCALE {
          FrequencyRoundTrip(f);
        }
      }
    }

    /** invertIqReg: sets bit 6 of REG_INVERT_IQ. */
    method InvertIq() returns (r: Result<()>)
      requires Valid()
      modifies this`bus, this`cursor, this`chip
      ensures Valid()
      ensures spi ==>
        var iq := SetBits(replies(old(cursor)), 0x40, true);
        && r == Ok(()) && cursor == old(cursor) + 1
        && bus == old(bus) + [Rd(REG_INVERT_IQ), Wr(REG_INVERT_IQ, iq)]
        && chip == old(chip)[REG_INVERT_IQ as int := iq]
      ensures !spi ==> r == Err(SpiNotDefined) && Quiet()
    {
      var v := ReadRegister(REG_INVERT_IQ);
      if v.Err? {
        return Err(v.error);
      }
      r := WriteRegister(REG_INVERT_IQ, [SetBits(v.value, 0x40, true)]);
    }

    /** setLnaBoost: sets or clears bits 0-1 (LnaBoostHf) of REG_LNA. */
    method SetLnaBoost(boost: bool) returns (r: Result<()>)
      requires Valid()
      modifies this`bus, this`cursor, this`chip
      ensures Valid()
      ensures spi ==>
        var lna := SetBits(replies(old(cursor)), 0x03, boost);
        && r == Ok(()) && cursor == old(cursor) + 1
        && bus == old(bus) + [Rd(REG_LNA), Wr(REG_LNA, lna)]
        && chip == old(chip)[REG_LNA as int := lna]
      ensures !spi ==> r == Err(SpiNotDefined) && Quiet()
    {
      var v := ReadRegister(REG_LNA);
      if v.Err? {
        return Err(v.error);
      }
      r := WriteRegister(REG_LNA, [SetBits(v.value, 0x03, boost)]);
    }

    /** setTxPower: clamps the level to [2, 17], stores it and writes PA_CONFIG. */
    method SetTxPower(level: int) returns (r: Result<()>)
      requires Valid()
      modifies this`txPower, this`bus, this`cursor, this`chip
      ensures Valid()
      ensures txPower == Clamp(level, TX_POWER_MIN, TX_POWER_MAX) && cursor == old(cursor)
      ensures spi ==>
        && r == Ok(())
        && bus == old(bus) + [Wr(REG_PA_CONFIG, PaConfig(txPower))]
        && chip == old(chip)[REG_PA_CONFIG as int := PaConfig(txPower)]
        && 0x80 <= chip[REG_PA_CONFIG] <= 0x8f
      ensures !spi ==> r == Err(NoTransport) && Quiet()
    {
      txPower := Clamp(level, TX_POWER_MIN, TX_POWER_MAX);
      r := WriteRegister(REG_PA_CONFIG, [PaConfig(txPower)]);
    }

    /** setSpreadingFactor: clamps to [6, 12], writes the detection pair for the
        factor and puts the factor in the high nibble of MODEM_CONFIG_2. */
    method SetSpreadingFactor(sf: int) returns (r: Result<()>)
      requires Valid()
      modifies this`spreadingFactor, this`bus, this`cursor, this`chip
      ensures Valid()
      ensures spreadingFactor == Clamp(sf, SF_MIN, SF_MAX)
      ensures spi ==>
        var s := spreadingFactor;
        var config2 := WithSpreadingFactor(replies(old(cursor)), s);
        && r == Ok(()) && cursor == old(cursor) + 1
        && bus == old(bus) + [Wr(REG_DETECTION_OPTIMIZE, DetectionOptimize(s)),
                              Wr(REG_DETECTION_THRESHOLD, DetectionThreshold(s)),
                              Rd(REG_MODEM_CONFIG_2), Wr(REG_MODEM_CONFIG_2, config2)]
        && chip == old(chip)[REG_DETECTION_OPTIMIZE as int := DetectionOptimize(s)]
                                    [REG_DETECTION_THRESHOLD as int := DetectionThreshold(s)]
                                    [REG_MODEM_CONFIG_2 as int := config2]
      ensures spi ==> (chip[REG_DETECTION_OPTIMIZE] == 0xc5 && chip[REG_DETECTION_THRESHOLD] == 0x0c
                       <==> spreadingFactor == 6)
      ensures spi ==> chip[REG_MODEM_CONFIG_2] & 0x0f == replies(old(cursor)) & 0x0f
      ensures !spi ==> r == Err(NoTransport) && Quiet()
    {
      spreadingFactor := Clamp(sf, SF_MIN, SF_MAX);
      var s := spreadingFactor;
      r := WriteRegister(REG_DETECTION_OPTIMIZE, [DetectionOptimize(s)]);
      if r.Err? {
        return;
      }
      var _ := WriteRegister(REG_DETECTION_THRESHOLD, [DetectionThreshold(s)]);
      var config2 := ReadRegister(REG_MODEM_CONFIG_2);
      r := WriteRegister(REG_MODEM_CONFIG_2, [WithSpreadingFactor(config2.value, s)]);
    }

    /** setSignalBandwidth: stores the requested bandwidth as given and puts its
        code in the high nibble of MODEM_CONFIG_1. */
    method SetSignalBandwidth(sbw: real) returns (r: Result<()>)
      requires Valid()
      modifies this`signalBandwidth, this`bus, this`cursor, this`chip
      ensures Valid()
      ensures signalBandwidth == sbw
      ensures spi ==>
        var config1 := WithBandwidth(replies(old(cursor)), BandwidthCode(sbw));
        && r == Ok(()) && cursor == old(cursor) + 1
        && bus == old(bus) + [Rd(REG_MODEM_CONFIG_1), Wr(REG_MODEM_CONFIG_1, config1)]
        && chip == old(chip)[REG_MODEM_CONFIG_1 as int := config1]
      ensures spi ==> chip[REG_MODEM_CONFIG_1] & 0x0f == replies(old(cursor)) & 0x0f
      ensures !spi ==> r == Err(SpiNotDefined) && Quiet()
    {
      var bw := BandwidthCode(sbw);
      signalBandwidth := sbw;
      var config1 := ReadRegister(REG_MODEM_CONFIG_1);
      if config1.Err? {
        return Err(config1.error);
      }
      r := WriteRegister(REG_MODEM_CONFIG_1, [WithBandwidth(config1.value, bw)]);
    }

    /** setCodingRate: picks the denominator, stores the rate 4/d it stands for
        and puts d - 4 in bits 1-3 of MODEM_CONFIG_1. */
    method SetCodingRate(cr: real) returns (r: Result<()>)
      requires Valid()
      modifies this`codingRate, this`bus, this`cursor, this`chip
      ensures Valid()
      ensures codingRate == Ratio(Denominator(cr))
      ensures spi ==>
        var config1 := WithCodingRate(replies(old(cursor)), Denominator(cr));
        && r == Ok(()) && cursor == old(cursor) + 1
        && bus == old(bus) + [Rd(REG_MODEM_CONFIG_1), Wr(REG_MODEM_CONFIG_1, config1)]
        && chip == old(chip)[REG_MODEM_CONFIG_1 as int := config1]
      ensures spi ==> chip[REG_MODEM_CONFIG_1] & 0xf1 == replies(old(cursor)) & 0xf1
      ensures !spi ==> r == Err(SpiNotDefined) && Quiet()
    {
      var d := Denominator(cr);
      codingRate := Ratio(d);
      var config1 := ReadRegister(REG_MODEM_CONFIG_1);
      if config1.Err? {
        return Err(config1.error);
      }
      r := WriteRegister(REG_MODEM_CONFIG_1, [WithCodingRate(config1.value, d)]);
    }

    /** setPreambleLength: the length as a big-endian 16-bit value from REG_PREAMBLE on. */
    method SetPreambleLength(length: int) returns (r: Result<()>)
      requires Valid()
      modifies this`preambleLength, this`bus, this`cursor, this`chip
      ensures Valid()
      ensures preambleLength == length && cursor == old(cursor)
      ensures !(0 <= length < 0x1_0000) ==> r == Err(OutOfRange) && Quiet()
      ensures 0 <= length < 0x1_0000 && !spi ==> r == Err(NoTransport) && Quiet()
      ensures 0 <= length < 0x1_0000 && spi ==>
        && r == Ok(())
        && bus == old(bus) + [WriteFrame(REG_PREAMBLE, Uint16BE(length))]
        && chip == Store(old(chip), REG_PREAMBLE, Uint16BE(length))
        && chip[REG_PREAMBLE] as int * 0x100 + chip[REG_PREAMBLE + 1] as int == length
    {
      preambleLength := length;
      if !(0 <= length < 0x1_0000) {
        // Buffer.writeUInt16BE throws a RangeError before anything is sent
        return Err(OutOfRange);
      }
      r := WriteRegister(REG_PREAMBLE, Uint16BE(length));
    }

    method SetSyncWord(sw: int) returns (r: Result<()>)
      requires Valid()
      modifies this`syncWord, this`bus, this`cursor, this`chip
      ensures Valid()
      ensures syncWord == sw && cursor == old(cursor)
      ensures spi ==>
        && r == Ok(())
        && bus == old(bus) + [Wr(REG_SYNC_WORD, Byte(sw))]
        && chip == old(chip)[REG_SYNC_WORD as int := Byte(sw)]
        && chip[REG_SYNC_WORD] as int == sw % 0x100
      ensures !spi ==> r == Err(NoTransport) && Quiet()
    {
      syncWord := sw;
      r := WriteRegister(REG_SYNC_WORD, [Byte(sw)]);
      ByteValue(sw);
    }

    /** setCrc: sets or clears bit 2 (RxPayloadCrcOn) of MODEM_CONFIG_2. */
    method SetCrc(on: bool) returns (r: Result<()>)
      requires Valid()
      modifies this`crc, this`bus, this`cursor, this`chip
      ensures Valid()
      ensures crc == on
      ensures spi ==>
        var config2 := SetBits(replies(old(cursor)), 0x04, on);
        && r == Ok(()) && cursor == old(cursor) + 1
        && bus == old(bus) + [Rd(REG_MODEM_CONFIG_2), Wr(REG_MODEM_CONFIG_2, config2)]
        && chip == old(chip)[REG_MODEM_CONFIG_2 as int := config2]
      ensures !spi ==> r == Err(SpiNotDefined) && Quiet()
    {
      crc := on;
      var config2 := ReadRegister(REG_MODEM_CONFIG_2);
      if config2.Err? {
        return Err(config2.error);
      }
      r := WriteRegister(REG_MODEM_CONFIG_2, [SetBits(config2.value, 0x04, on)]);
    }

    // ---- operating modes ----------------------------------------------------

    method Sleep() returns (r: Result<()>)
      requires Valid()
      modifies this`bus, this`cursor, this`chip
      ensures Valid()
      ensures cursor == old(cursor)
      ensures spi ==> r == Ok(()) && bus == old(bus) + [Wr(REG_OP_MODE, OP_SLEEP)]
                      && chip == old(chip)[REG_OP_MODE as int := OP_SLEEP]
      ensures !spi ==> r == Err(NoTransport) && Quiet()
    {
      r := WriteRegister(REG_OP_MODE, [MODE_LONG_RANGE_MODE | MODE_SLEEP]);
    }

    method StandBy() returns (r: Result<()>)
      requires Valid()
      modifies this`bus, this`cursor, this`chip
      ensures Valid()
      ensures cursor == old(cursor)
      ensures spi ==> r == Ok(()) && bus == old(bus) + [Wr(REG_OP_MODE, OP_STDBY)]
                      && chip == old(chip)[REG_OP_MODE as int := OP_STDBY]
      ensures !spi ==> r == Err(NoTransport) && Quiet()
    {
      r := WriteRegister(REG_OP_MODE, [MODE_LONG_RANGE_MODE | MODE_STDBY]);
    }

    // ---- receive ------------------------------------------------------------

    /** setContinuousReceiveMode: registers the dio0 handler, sets the header mode
        (implicit when a length is given), maps dio0 to RX_DONE and enters
        RX_CONTINUOUS. Pass 0 for an absent length. */
    method SetContinuousReceiveMode(length: int) returns (r: Result<()>)
      requires Valid()
      modifies this`watchers, this`implicitHeaderMode, this`bus, this`cursor, this`chip
      ensures Valid()
      ensures watchers == old(watchers) + 1 && implicitHeaderMode == (length != 0)
      ensures spi ==>
        var config1 := SetBits(replies(old(cursor)), 0x01, length != 0);
        var payload := if length != 0 then [Wr(REG_PAYLOAD_LENGTH, Byte(length))] else [];
        var file := old(chip)[REG_MODEM_CONFIG_1 as int := config1];
        && r == Ok(()) && cursor == old(cursor) + 1
        && bus == old(bus) + [Rd(REG_MODEM_CONFIG_1), Wr(REG_MODEM_CONFIG_1, config1)] + payload
                  + [Wr(REG_DIO_MAPPING_1, 0x00), Wr(REG_OP_MODE, OP_RX_CONTINUOUS)]
        && chip == (if length != 0 then file[REG_PAYLOAD_LENGTH as int := Byte(length)] else file)
                       [REG_DIO_MAPPING_1 as int := 0x00][REG_OP_MODE as int := OP_RX_CONTINUOUS]
      ensures !spi ==> r == Err(SpiNotDefined) && Quiet()
    {
      watchers := watchers + 1;
      implicitHeaderMode := length != 0;
      var config1 := ReadRegister(REG_MODEM_CONFIG_1);
      if config1.Err? {
        return Err(config1.error);
      }
      var _ := WriteRegister(REG_MODEM_CONFIG_1, [SetBits(config1.value, 0x01, implicitHeaderMode)]);
      if implicitHeaderMode {
        var _ := WriteRegister(REG_PAYLOAD_LENGTH, [Byte(length)]);
      }
      var _ := WriteRegister(REG_DIO_MAPPING_1, [0x00]);
      r := WriteRegister(REG_OP_MODE, [MODE_LONG_RANGE_MODE | MODE_RX_CONTINUOUS]);
    }

    /** receiveSingle: reads and clears the IRQ flags. With a good packet waiting
        it returns the packet length, points the FIFO at it and goes to standby;
        otherwise, unless the chip already is in RX_SINGLE, it enters RX_SINGLE
        and checks the mode: ten reads that decide nothing, then a final read that
        must show RX_SINGLE. Pass 0 for an absent length. */
    method ReceiveSingle(length: int) returns (r: Result<int>)
      requires Valid()
      modifies this`watchers, this`implicitHeaderMode, this`packetIndex, this`bus, this`cursor, this`chip
      ensures Valid()
      ensures watchers == 0 && implicitHeaderMode == (length != 0)
      ensures !spi ==> r == Err(if length != 0 then NoTransport else SpiNotDefined)
                       && Quiet() && packetIndex == old(packetIndex)
      ensures spi ==>
        var c := old(cursor);
        var flags := replies(c);
        var head := if length != 0 then [Wr(REG_PAYLOAD_LENGTH, Byte(length))] else [];
        var file := if length != 0 then old(chip)[REG_PAYLOAD_LENGTH as int := Byte(length)]
                    else old(chip);
        var lengthReg := if length != 0 then REG_PAYLOAD_LENGTH else REG_RX_NB_BYTES;
        var cleared := old(bus) + head + [Rd(REG_IRQ_FLAGS), Wr(REG_IRQ_FLAGS, flags)];
        if PacketReady(flags) then
          && r == Ok(replies(c + 1) as int) && packetIndex == 0 && cursor == c + 3
          && bus == cleared + [Rd(lengthReg), Rd(REG_FIFO_RX_CURRENT_ADDR),
                               Wr(REG_FIFO_ADDR_PTR, replies(c + 2)), Wr(REG_OP_MODE, OP_STDBY)]
          && chip == file[REG_IRQ_FLAGS as int := flags][REG_FIFO_ADDR_PTR as int := replies(c + 2)]
                             [REG_OP_MODE as int := OP_STDBY]
        else if replies(c + 1) == OP_RX_SINGLE then
          && r == Ok(0) && packetIndex == old(packetIndex) && cursor == c + 2
          && bus == cleared + [Rd(REG_OP_MODE)]
          && chip == file[REG_IRQ_FLAGS as int := flags]
        else
          && r == (if replies(c + 2 + MODE_CHECKS) == OP_RX_SINGLE then Ok(0) else Err(ModeChangeFailed))
          && packetIndex == old(packetIndex) && cursor == c + 3 + MODE_CHECKS
          && bus == cleared + [Rd(REG_OP_MODE), Wr(REG_FIFO_ADDR_PTR, 0), Wr(REG_OP_MODE, OP_RX_SINGLE)]
                    + Repeat(Rd(REG_OP_MODE), MODE_CHECKS + 1)
          && chip == file[REG_IRQ_FLAGS as int := flags][REG_FIFO_ADDR_PTR as int := 0]
                             [REG_OP_MODE as int := OP_RX_SINGLE]
    {
      watchers := 0;
      implicitHeaderMode := length != 0;
      var flags := ClearFlags(length);
      if flags.Err? {
        return Err(flags.error);
      }
      if PacketReady(flags.value) {
        r := TakePacket();
      } else {
        r := AwaitPacket();
      }
    }

    /** The opening of receiveSingle: the payload length written when one is
        given, then the IRQ flags read and written back to clear them. */
    method ClearFlags(length: int) returns (r: Result<bv8>)
      requires Valid()
      modifies this`bus, this`cursor, this`chip
      ensures Valid()
      ensures !spi ==> r == Err(if length != 0 then NoTransport else SpiNotDefined) && Quiet()
      ensures spi ==>
        var flags := replies(old(cursor));
        var head := if length != 0 then [Wr(REG_PAYLOAD_LENGTH, Byte(length))] else [];
        var file := if length != 0 then old(chip)[REG_PAYLOAD_LENGTH as int := Byte(length)]
                    else old(chip);
        && r == Ok(flags) && cursor == old(cursor) + 1
        && bus == old(bus) + head + [Rd(REG_IRQ_FLAGS), Wr(REG_IRQ_FLAGS, flags)]
        && chip == file[REG_IRQ_FLAGS as int := flags]
    {
      if length != 0 {
        var w := WriteRegister(REG_PAYLOAD_LENGTH, [Byte(length)]);
        if w.Err? {
          return Err(w.error);
        }
      }
      r := ReadRegister(REG_IRQ_FLAGS);
      if r.Err? {
        return;
      }
      var _ := WriteRegister(REG_IRQ_FLAGS, [r.value]);
    }

    /** The packet branch of receiveSingle: reset the packet index, read the
        length (from PAYLOAD_LENGTH in implicit-header mode, RX_NB_BYTES
        otherwise), point the FIFO at the packet and go to standby. */
    method TakePacket() returns (r: Result<int>)
      requires Valid() && spi
      modifies this`packetIndex, this`bus, this`cursor, this`chip
      ensures Valid()
      ensures
        var c := old(cursor);
        var lengthReg := if implicitHeaderMode then REG_PAYLOAD_LENGTH else REG_RX_NB_BYTES;
        && r == Ok(replies(c) as int) && packetIndex == 0 && cursor == c + 2
        && bus == old(bus) + [Rd(lengthReg), Rd(REG_FIFO_RX_CURRENT_ADDR),
                              Wr(REG_FIFO_ADDR_PTR, replies(c + 1)), Wr(REG_OP_MODE, OP_STDBY)]
        && chip == old(chip)[REG_FIFO_ADDR_PTR as int := replies(c + 1)][REG_OP_MODE as int := OP_STDBY]
    {
      packetIndex := 0;
      var packetLength := ReadRegister(if implicitHeaderMode then REG_PAYLOAD_LENGTH else REG_RX_NB_BYTES);
      var rxAddr := ReadRegister(REG_FIFO_RX_CURRENT_ADDR);
      var _ := WriteRegister(REG_FIFO_ADDR_PTR, [rxAddr.value]);
      var _ := StandBy();
      r := Ok(packetLength.value as int);
    }

    /** The no-packet branch of receiveSingle: unless the op mode already reads
        RX_SINGLE, reset the FIFO pointer, enter RX_SINGLE, read the mode ten
        times without acting on it, and fail unless one more read shows RX_SINGLE. */
    method AwaitPacket() returns (r: Result<int>)
      requires Valid() && spi
      modifies this`bus, this`cursor, this`chip
      ensures Valid()
      ensures
        var c := old(cursor);
        if replies(c) == OP_RX_SINGLE then
          r == Ok(0) && cursor == c + 1 && bus == old(bus) + [Rd(REG_OP_MODE)] && chip == old(chip)
        else
          && r == (if replies(c + 1 + MODE_CHECKS) == OP_RX_SINGLE then Ok(0) else Err(ModeChangeFailed))
          && cursor == c + 2 + MODE_CHECKS
          && bus == old(bus) + [Rd(REG_OP_MODE), Wr(REG_FIFO_ADDR_PTR, 0), Wr(REG_OP_MODE, OP_RX_SINGLE)]
                    + Repeat(Rd(REG_OP_MODE), MODE_CHECKS + 1)
          && chip == old(chip)[REG_FIFO_ADDR_PTR as int := 0][REG_OP_MODE as int := OP_RX_SINGLE]
    {
      var mode := ReadRegister(REG_OP_MODE);
      if mode.value == MODE_LONG_RANGE_MODE | MODE_RX_SINGLE {
        return Ok(0);
      }
      var _ := WriteRegister(REG_FIFO_ADDR_PTR, [0]);
      var _ := WriteRegister(REG_OP_MODE, [MODE_LONG_RANGE_MODE | MODE_RX_SINGLE]);
      ghost var bus0, file0 := bus, chip;
      var i := 0;
      while i < MODE_CHECKS
        invariant 0 <= i <= MODE_CHECKS
        invariant cursor == old(cursor) + 1 + i
        invariant bus == bus0 + Repeat(Rd(REG_OP_MODE), i)
        invariant chip == file0
      {
        // the driver sleeps 25 ms after a read that does not show RX_SINGLE;
        // delays are not modelled, and the read decides nothing
        var _ := ReadRegister(REG_OP_MODE);
        i := i + 1;
      }
      mode := ReadRegister(REG_OP_MODE);
      assert bus == bus0 + Repeat(Rd(REG_OP_MODE), MODE_CHECKS + 1);
      if mode.value != MODE_LONG_RANGE_MODE | MODE_RX_SINGLE {
        return Err(ModeChangeFailed);
      }
      r := Ok(0);
    }

    /** available: bytes of the current packet not yet read. */
    method Available() returns (r: Result<int>)
      requires Valid()
      modifies this`bus, this`cursor, this`chip
      ensures Valid()
      ensures spi ==> r == Ok(replies(old(cursor)) as int - packetIndex) && cursor == old(cursor) + 1
                      && bus == old(bus) + [Rd(REG_RX_NB_BYTES)] && chip == old(chip)
      ensures !spi ==> r == Err(SpiNotDefined) && Quiet()
    {
      var count := ReadRegister(REG_RX_NB_BYTES);
      if count.Err? {
        return Err(count.error);
      }
      r := Ok(count.value as int - packetIndex);
    }

    /** read: -1 when available() is zero, otherwise the next FIFO byte, advancing
        the packet index. */
    method Read() returns (r: Result<int>)
      requires Valid()
      modifies this`packetIndex, this`bus, this`cursor, this`chip
      ensures Valid()
      ensures spi ==>
        var available := replies(old(cursor)) as int - old(packetIndex);
        && chip == old(chip)
        && (available == 0 ==> r == Ok(-1) && packetIndex == old(packetIndex)
                               && cursor == old(cursor) + 1 && bus == old(bus) + [Rd(REG_RX_NB_BYTES)])
        && (available != 0 ==> r == Ok(replies(old(cursor) + 1) as int) && packetIndex == old(packetIndex) + 1
                               && cursor == old(cursor) + 2 && bus == old(bus) + [Rd(REG_RX_NB_BYTES), Rd(REG_FIFO)])
      ensures !spi ==> r == Err(SpiNotDefined) && Quiet() && packetIndex == old(packetIndex)
    {
      var available := Available();
      if available.Err? {
        return Err(available.error);
      }
      if available.value == 0 {
        return Ok(-1);
      }
      packetIndex := packetIndex + 1;
      var b := ReadRegister(REG_FIFO);
      r := Ok(b.value as int);
    }

    /** _onDio0Rise: the dio0 edge handler. With a write callback pending it
        clears the IRQ flags and invokes it; otherwise it reads the packet, derives
        RSSI and SNR and reports the packet unless PAYLOAD_CRC_ERROR is set. */
    method OnDio0Rise(err: bool, value: int) returns (r: Result<()>)
      requires Valid()
      modifies this`events, this`writeCallback, this`bus, this`cursor, this`chip
      ensures Valid()
      ensures err || value == 0 ==>
        r == Ok(()) && Quiet() && events == old(events) && writeCallback == old(writeCallback)
      ensures !(err || value == 0) && !spi ==>
        r == Err(SpiNotDefined) && Quiet() && events == old(events) && writeCallback == old(writeCallback)
      ensures !(err || value == 0) && spi && old(writeCallback) ==>
        var flags := replies(old(cursor));
        && r == Ok(()) && cursor == old(cursor) + 1 && !writeCallback
        && bus == old(bus) + [Rd(REG_IRQ_FLAGS), Wr(REG_IRQ_FLAGS, flags)]
        && chip == old(chip)[REG_IRQ_FLAGS as int := flags]
        && events == old(events) + [WriteCallback]
      ensures !(err || value == 0) && spi && !old(writeCallback) ==>
        var c := old(cursor);
        var flags := replies(c);
        && r == Ok(()) && cursor == c + 5 + replies(c + 2) as nat && !writeCallback
        && bus == old(bus) + FlagFrames(flags) + PacketFrames(c + 1)
        && chip == old(chip)[REG_IRQ_FLAGS as int := flags][REG_FIFO_ADDR_PTR as int := 0x00]
        && events == old(events) + (if flags & IRQ_PAYLOAD_CRC_ERROR_MASK == 0 then [Packet(c + 2)] else [])
      ensures !(err || value == 0) && spi && !old(writeCallback) ==>
        (events != old(events) <==> replies(old(cursor)) & IRQ_PAYLOAD_CRC_ERROR_MASK == 0)
    {
      if err || value == 0 {
        return Ok(());
      }
      if writeCallback {
        r := CompleteWrite();
      } else {
        r := ReceivePacket();
      }
    }

    /** The write-completion branch of _onDio0Rise: clear the IRQ flags, invoke
        the pending callback and forget it. */
    method CompleteWrite() returns (r: Result<()>)
      requires Valid()
      modifies this`events, this`writeCallback, this`bus, this`cursor, this`chip
      ensures Valid()
      ensures !spi ==> r == Err(SpiNotDefined) && Quiet()
                       && events == old(events) && writeCallback == old(writeCallback)
      ensures spi ==>
        var flags := replies(old(cursor));
        && r == Ok(()) && cursor == old(cursor) + 1 && !writeCallback
        && bus == old(bus) + [Rd(REG_IRQ_FLAGS), Wr(REG_IRQ_FLAGS, flags)]
        && chip == old(chip)[REG_IRQ_FLAGS as int := flags]
        && events == old(events) + [WriteCallback]
    {
      var flags := ReadRegister(REG_IRQ_FLAGS);
      if flags.Err? {
        return Err(flags.error);
      }
      var _ := WriteRegister(REG_IRQ_FLAGS, [flags.value]);
      events := events + [WriteCallback];
      writeCallback := false;
      r := Ok(());
    }

    /** The receive branch of _onDio0Rise. */
    method ReceivePacket() returns (r: Result<()>)
      requires Valid()
      modifies this`events, this`bus, this`cursor, this`chip
      ensures Valid()
      ensures !spi ==> r == Err(SpiNotDefined) && Quiet() && events == old(events)
      ensures spi ==>
        var c := old(cursor);
        var flags := replies(c);
        && r == Ok(()) && cursor == c + 5 + replies(c + 2) as nat
        && bus == old(bus) + FlagFrames(flags) + PacketFrames(c + 1)
        && chip == old(chip)[REG_IRQ_FLAGS as int := flags][REG_FIFO_ADDR_PTR as int := 0x00]
        && events == old(events) + (if flags & IRQ_PAYLOAD_CRC_ERROR_MASK == 0 then [Packet(c + 2)] else [])
    {
      var flags := ClearFlags(0);
      if flags.Err? {
        return Err(flags.error);
      }
      assert bus == old(bus) + FlagFrames(flags.value);
      var packet := FetchPacket();
      if flags.value & IRQ_PAYLOAD_CRC_ERROR_MASK == 0 {
        events := events + [packet];
      }
      r := Ok(());
    }

    /** The packet reads of the receive handler: the FIFO pointed at the
        current packet, the packet read, then the FIFO pointer reset. */
    method FetchPacket() returns (p: Notice)
      requires Valid() && spi
      modifies this`bus, this`cursor, this`chip
      ensures Valid()
      ensures
        var c := old(cursor);
        && p == Packet(c + 1) && cursor == c + 4 + replies(c + 1) as nat
        && bus == old(bus) + PacketFrames(c)
        && chip == old(chip)[REG_FIFO_ADDR_PTR as int := 0x00]
    {
      ghost var c, file, bus0 := cursor, chip, bus;
      var rxAddr := ReadRegister(REG_FIFO_RX_CURRENT_ADDR);
      var _ := WriteRegister(REG_FIFO_ADDR_PTR, [rxAddr.value]);
      p := ReadPayload();
      var _ := WriteRegister(REG_FIFO_ADDR_PTR, [0x00]);
      assert chip == file[REG_FIFO_ADDR_PTR as int := 0x00];
    }

    /** The length of the packet the FIFO points at (from PAYLOAD_LENGTH in
        implicit-header mode, RX_NB_BYTES otherwise), its bytes, its RSSI and SNR. */
    method ReadPayload() returns (p: Notice)
      requires Valid() && spi
      modifies this`bus, this`cursor, this`chip
      ensures Valid()
      ensures
        var c := old(cursor);
        var n := replies(c) as nat;
        && p == Packet(c)
        && cursor == c + 3 + n
        && bus == old(bus) + [Rd(LengthRegister()), ReadFrame(REG_FIFO, n), Rd(REG_PKT_RSSI_VALUE), Rd(REG_PKT_SNR_VALUE)]
        && chip == old(chip)
    {
      var count := ReadRegister(LengthRegister());
      var data := ReadRegisterBytes(REG_FIFO, count.value as nat);
      var rssi := ReadRegister(REG_PKT_RSSI_VALUE);
      var snr := ReadRegister(REG_PKT_SNR_VALUE);
      p := Data(data.value, Rssi(rssi.value, frequency), Snr(snr.value));
      assert p == Packet(old(cursor));
    }

    // ---- transmit -----------------------------------------------------------

    /** The frames write() puts on the bus before it polls: the header-mode bit
        of MODEM_CONFIG_1 set for an implicit header and cleared otherwise,
        standby, the FIFO pointer reset, the payload length as one byte, the
        payload through the FIFO port, dio0 mapped to TX_DONE, and TX mode. */
    function TxFrames(config1: bv8, implicitHeader: bool, data: seq<bv8>): seq<seq<bv8>> {
      [Rd(REG_MODEM_CONFIG_1), Wr(REG_MODEM_CONFIG_1, SetBits(config1, 0x01, implicitHeader)),
       Wr(REG_OP_MODE, OP_STDBY), Wr(REG_FIFO_ADDR_PTR, 0), Wr(REG_PAYLOAD_LENGTH, Byte(|data|)),
       WriteFrame(REG_FIFO, data), Wr(REG_DIO_MAPPING_1, 0x40), Wr(REG_OP_MODE, OP_TX)]
    }

    /** The number of IRQ-flag reads write() makes when the first read showing
        TX_DONE is read `n` (from 0): up to and including that one, or all
        TX_POLL_LIMIT + 1 when none shows it. */
    function PollCount(n: nat): nat {
      if n <= TX_POLL_LIMIT then n + 1 else TX_POLL_LIMIT + 1
    }

    /** The frames of write()'s poll: the flag reads, then TX_DONE cleared
        when it was seen. */
    function PollFrames(n: nat): seq<seq<bv8>> {
      Repeat(Rd(REG_IRQ_FLAGS), PollCount(n))
        + (if n <= TX_POLL_LIMIT then [Wr(REG_IRQ_FLAGS, IRQ_TX_DONE_MASK)] else [])
    }

    /** The register file after the poll: the TX_DONE flag written back when it was seen. */
    function PollRegisters(file: seq<bv8>, n: nat): seq<bv8>
      requires |file| == REGISTER_COUNT
    {
      if n <= TX_POLL_LIMIT then file[REG_IRQ_FLAGS as int := IRQ_TX_DONE_MASK] else file
    }

    /** The register file once the payload is loaded and TX mode entered. The
        payload itself goes to the packet buffer, not the register file. */
    function TxRegisters(file: seq<bv8>, config1: bv8, implicitHeader: bool, data: seq<bv8>): (r: seq<bv8>)
      requires |file| == REGISTER_COUNT
      ensures |r| == REGISTER_COUNT && r[REG_OP_MODE] == OP_TX
      ensures r[REG_MODEM_CONFIG_1] & 0x01 == (if implicitHeader then 0x01 else 0x00)
      ensures r[REG_PAYLOAD_LENGTH] as int == |data| % 256
    {
      ByteValue(|data|);
      file[REG_MODEM_CONFIG_1 as int := SetBits(config1, 0x01, implicitHeader)]
          [REG_FIFO_ADDR_PTR as int := 0][REG_PAYLOAD_LENGTH as int := Byte(|data|)]
          [REG_DIO_MAPPING_1 as int := 0x40][REG_OP_MODE as int := OP_TX]
    }

    /** write: drops the dio0 watch, records the completion callback, loads the
        payload and starts transmitting, then polls the IRQ flags until TX_DONE
        shows, giving up when 101 reads have not shown it; TX_DONE is then
        cleared. The reads that decide are the 101 after MODEM_CONFIG_1's. */
    method Write(data: seq<bv8>, implicitHeader: bool, callback: bool) returns (r: Result<()>)
      requires Valid()
      modifies this`watchers, this`writeCallback, this`bus, this`cursor, this`chip
      ensures Valid()
      ensures watchers == 0 && writeCallback == callback
      ensures !spi ==> r == Err(SpiNotDefined) && Quiet()
      ensures spi ==>
        var c := old(cursor);
        var n := FirstTxDone(Answers(c + 1, TX_POLL_LIMIT + 1));
        && r == (if n <= TX_POLL_LIMIT then Ok(()) else Err(WriteTimeout))
        && cursor == c + 1 + PollCount(n)
        && bus == old(bus) + TxFrames(replies(c), implicitHeader, data) + PollFrames(n)
        && chip == PollRegisters(TxRegisters(old(chip), replies(c), implicitHeader, data), n)
      ensures spi ==> (r.Ok? <==> exists k :: old(cursor) < k <= old(cursor) + 1 + TX_POLL_LIMIT && TxDone(replies(k)))
    {
      ghost var c := cursor;
      r := Transmit(data, implicitHeader);
      if spi {
        TxDoneWithin(c);
      }
      watchers := 0;
      writeCallback := callback;
    }

    /** The bus side of write(): the payload loaded, then the TX_DONE poll. */
    method Transmit(data: seq<bv8>, implicitHeader: bool) returns (r: Result<()>)
      requires Valid()
      modifies this`bus, this`cursor, this`chip
      ensures Valid()
      ensures !spi ==> r == Err(SpiNotDefined) && Quiet()
      ensures spi ==>
        var c := old(cursor);
        var n := FirstTxDone(Answers(c + 1, TX_POLL_LIMIT + 1));
        && r == (if n <= TX_POLL_LIMIT then Ok(()) else Err(WriteTimeout))
        && cursor == c + 1 + PollCount(n)
        && bus == old(bus) + TxFrames(replies(c), implicitHeader, data) + PollFrames(n)
        && chip == PollRegisters(TxRegisters(old(chip), replies(c), implicitHeader, data), n)
    {
      r := LoadPayload(data, implicitHeader);
      if r.Err? {
        return;
      }
      r := AwaitTxDone();
    }

    /** write()'s poll, reading flag replies `c + 1` to `c + 1 + TX_POLL_LIMIT`,
        sees TX_DONE within its limit exactly when one of those replies has it. */
    lemma TxDoneWithin(c: nat)
      ensures FirstTxDone(Answers(c + 1, TX_POLL_LIMIT + 1)) <= TX_POLL_LIMIT
          <==> exists k :: c < k <= c + 1 + TX_POLL_LIMIT && TxDone(replies(k))
    {
      var polls := Answers(c + 1, TX_POLL_LIMIT + 1);
      var i := FirstTxDone(polls);
      if i <= TX_POLL_LIMIT {
        assert TxDone(replies(c + 1 + i));
      } else {
        forall k | c < k <= c + 1 + TX_POLL_LIMIT
          ensures !TxDone(replies(k))
        {
          assert replies(k) == polls[k - c - 1];
        }
      }
    }

    /** The part of write() before the polling loop. */
    method LoadPayload(data: seq<bv8>, implicitHeader: bool) returns (r: Result<()>)
      requires Valid()
      modifies this`bus, this`cursor, this`chip
      ensures Valid()
      ensures !spi ==> r == Err(SpiNotDefined) && Quiet()
      ensures spi ==>
        && r == Ok(()) && cursor == old(cursor) + 1
        && bus == old(bus) + TxFrames(replies(old(cursor)), implicitHeader, data)
        && chip == TxRegisters(old(chip), replies(old(cursor)), implicitHeader, data)
    {
      var config1 := ReadRegister(REG_MODEM_CONFIG_1);
      if config1.Err? {
        return Err(config1.error);
      }
      var _ := WriteRegister(REG_MODEM_CONFIG_1, [SetBits(config1.value, 0x01, implicitHeader)]);
      var _ := StandBy();
      var _ := WriteRegister(REG_FIFO_ADDR_PTR, [0]);
      ghost var bus1, file1 := bus, chip;
      assert bus1 == old(bus) + TxFrames(replies(old(cursor)), implicitHeader, data)[..4];
      r := StartTx(data);
      assert bus == bus1 + TxFrames(replies(old(cursor)), implicitHeader, data)[4..];
    }

    /** The second half of the loading: payload length, payload, dio0 mapping, TX. */
    method StartTx(data: seq<bv8>) returns (r: Result<()>)
      requires Valid() && spi
      modifies this`bus, this`cursor, this`chip
      ensures Valid()
      ensures r == Ok(()) && cursor == old(cursor)
      ensures bus == old(bus) + [Wr(REG_PAYLOAD_LENGTH, Byte(|data|)), WriteFrame(REG_FIFO, data),
                                 Wr(REG_DIO_MAPPING_1, 0x40), Wr(REG_OP_MODE, OP_TX)]
      ensures chip == old(chip)[REG_PAYLOAD_LENGTH as int := Byte(|data|)]
                                       [REG_DIO_MAPPING_1 as int := 0x40][REG_OP_MODE as int := OP_TX]
    {
      var _ := WriteRegister(REG_PAYLOAD_LENGTH, [Byte(|data|)]);
      ghost var before := chip;
      var _ := WriteRegister(REG_FIFO, data);
      assert chip == before;
      var _ := WriteRegister(REG_DIO_MAPPING_1, [0x40]);
      r := WriteRegister(REG_OP_MODE, [MODE_LONG_RANGE_MODE | MODE_TX]);
    }

    /** The polling loop of write(): IRQ_FLAGS read until TX_DONE shows, at most
        TX_POLL_LIMIT + 1 times (the driver sleeps 1 ms between reads; delays
        are not modelled), then TX_DONE cleared. */
    method AwaitTxDone() returns (r: Result<()>)
      requires Valid() && spi
      modifies this`bus, this`cursor, this`chip
      ensures Valid()
      ensures
        var n := FirstTxDone(Answers(old(cursor), TX_POLL_LIMIT + 1));
        && r == (if n <= TX_POLL_LIMIT then Ok(()) else Err(WriteTimeout))
        && cursor == old(cursor) + PollCount(n)
        && bus == old(bus) + PollFrames(n)
        && chip == PollRegisters(old(chip), n)
    {
      ghost var c, bus0 := cursor, bus;
      ghost var polls := Answers(c, TX_POLL_LIMIT + 1);
      var i := 0;
      var flags := ReadRegister(REG_IRQ_FLAGS);
      while flags.value & IRQ_TX_DONE_MASK == 0
        invariant 0 <= i <= TX_POLL_LIMIT
        invariant flags == Ok(replies(c + i)) && cursor == c + i + 1
        invariant bus == bus0 + Repeat(Rd(REG_IRQ_FLAGS), i + 1)
        invariant chip == old(chip)
        invariant forall j :: 0 <= j < i ==> !TxDone(polls[j])
        decreases TX_POLL_LIMIT - i
      {
        i := i + 1;
        if i > TX_POLL_LIMIT {
          assert forall j :: 0 <= j < |polls| ==> !TxDone(polls[j]);
          return Err(WriteTimeout);
        }
        flags := ReadRegister(REG_IRQ_FLAGS);
        assert bus == bus0 + Repeat(Rd(REG_IRQ_FLAGS), i + 1);
      }
      FirstTxDoneAt(polls, i);
      var _ := WriteRegister(REG_IRQ_FLAGS, [IRQ_TX_DONE_MASK]);
      r := Ok(());
    }

    // ---- temperature --------------------------------------------------------

    /** The frames of readTemperature when its reads start at reply `c`: the op
        mode saved, LoRa sleep, FSK sleep, FSRx, the sensor sampled, and the
        saved op mode restored. */
    function TemperatureFrames(c: nat): seq<seq<bv8>> {
      [Rd(REG_OP_MODE), Wr(REG_OP_MODE, OP_SLEEP), Wr(REG_OP_MODE, MODE_SLEEP), Wr(REG_OP_MODE, MODE_FSRX)]
      + SensorFrames(c + 1) + [Wr(REG_OP_MODE, replies(c))]
    }

    /** The sensor sampled with its reads starting at reply `c`: enabled and then
        disabled again through bit 0 of IMAGE_CALIBRATION, FSK sleep, the
        TEMPERATURE register read. */
    function SensorFrames(c: nat): seq<seq<bv8>> {
      [Rd(REG_IMAGE_CALIBRATION), Wr(REG_IMAGE_CALIBRATION, WithTempMonitorOff(replies(c), false)),
       Rd(REG_IMAGE_CALIBRATION), Wr(REG_IMAGE_CALIBRATION, WithTempMonitorOff(replies(c + 1), true)),
       Wr(REG_OP_MODE, MODE_SLEEP), Rd(REG_TEMPERATURE)]
    }

    /** readTemperature: the on-die sensor reading, corrected by the
        compensation factor; the op mode is left as it was read, the sensor
        switched off again. */
    method ReadTemperature() returns (r: Result<int>)
      requires Valid()
      modifies this`bus, this`cursor, this`chip
      ensures Valid()
      ensures !spi ==> r == Err(SpiNotDefined) && Quiet()
      ensures spi ==>
        var c := old(cursor);
        && r == Ok(Temperature(replies(c + 3), tempCompensationFactor)) && cursor == c + 4
        && bus == old(bus) + TemperatureFrames(c)
        && chip == old(chip)[REG_IMAGE_CALIBRATION as int := WithTempMonitorOff(replies(c + 2), true)]
                                    [REG_OP_MODE as int := replies(c)]
      ensures spi ==> chip[REG_OP_MODE] == replies(old(cursor)) && chip[REG_IMAGE_CALIBRATION] & 0x01 == 0x01
    {
      var previous := ReadRegister(REG_OP_MODE);
      if previous.Err? {
        return Err(previous.error);
      }
      EnterFsrx();
      var raw := SampleTemperature();
      ghost var cal := chip[REG_IMAGE_CALIBRATION];
      assert cal & 0x01 == 0x01;
      var _ := WriteRegister(REG_OP_MODE, [previous.value]);
      assert chip[REG_IMAGE_CALIBRATION] == cal;
      r := Ok(Temperature(raw, tempCompensationFactor));
    }

    /** LoRa sleep, FSK sleep (standby for the oscillator), FSRx. */
    method EnterFsrx()
      requires Valid() && spi
      modifies this`bus, this`cursor, this`chip
      ensures Valid()
      ensures cursor == old(cursor)
      ensures bus == old(bus) + [Wr(REG_OP_MODE, OP_SLEEP), Wr(REG_OP_MODE, MODE_SLEEP), Wr(REG_OP_MODE, MODE_FSRX)]
      ensures chip == old(chip)[REG_OP_MODE as int := MODE_FSRX]
    {
      var _ := WriteRegister(REG_OP_MODE, [MODE_LONG_RANGE_MODE]);
      var _ := WriteRegister(REG_OP_MODE, [MODE_SLEEP]);
      var _ := WriteRegister(REG_OP_MODE, [MODE_FSRX]);
    }

    /** The middle of readTemperature: the sensor switched on and off again,
        FSK sleep, the sensor register read. */
    method SampleTemperature() returns (raw: bv8)
      requires Valid() && spi
      modifies this`bus, this`cursor, this`chip
      ensures Valid()
      ensures raw == replies(old(cursor) + 2) && cursor == old(cursor) + 3
      ensures bus == old(bus) + SensorFrames(old(cursor))
      ensures chip == old(chip)[REG_IMAGE_CALIBRATION as int := WithTempMonitorOff(replies(old(cursor) + 1), true)]
                                       [REG_OP_MODE as int := MODE_SLEEP]
    {
      var _ := SetTempMonitor(false);
      var _ := SetTempMonitor(true);
      var _ := WriteRegister(REG_OP_MODE, [MODE_SLEEP]);
      var t := ReadRegister(REG_TEMPERATURE);
      raw := t.value;
    }

    /** A read-modify-write of bit 0 (TempMonitorOff) of IMAGE_CALIBRATION. */
    method SetTempMonitor(off: bool) returns (r: Result<()>)
      requires Valid()
      modifies this`bus, this`cursor, this`chip
      ensures Valid()
      ensures !spi ==> r == Err(SpiNotDefined) && Quiet()
      ensures spi ==>
        var cal := WithTempMonitorOff(replies(old(cursor)), off);
        && r == Ok(()) && cursor == old(cursor) + 1
        && bus == old(bus) + [Rd(REG_IMAGE_CALIBRATION), Wr(REG_IMAGE_CALIBRATION, cal)]
        && chip == old(chip)[REG_IMAGE_CALIBRATION as int := cal]
    {
      var cal := ReadRegister(REG_IMAGE_CALIBRATION);
      if cal.Err? {
        return Err(cal.error);
      }
      r := WriteRegister(REG_IMAGE_CALIBRATION, [WithTempMonitorOff(cal.value, off)]);
    }

    // ---- open and close -----------------------------------------------------

    /** The modem registers the configuration part of open() writes last, with
        the value each must hold afterwards. Bits that a read-modify-write takes
        from the chip's answer are not constrained. */
    ghost predicate ModemConfigured(file: seq<bv8>)
      requires |file| == REGISTER_COUNT
      reads this`frequency, this`spreadingFactor, this`codingRate, this`preambleLength, this`syncWord, this`crc
    {
      CarrierConfigured(file) && FramingConfigured(file)
    }

    /** Carrier frequency, spreading factor and coding rate as written. */
    ghost predicate CarrierConfigured(file: seq<bv8>)
      requires |file| == REGISTER_COUNT
      reads this`frequency, this`spreadingFactor, this`codingRate
    {
      && FitsInt32(FrfWord(frequency))
      && file[REG_FRF] as int * 0x1_0000 + file[REG_FRF + 1] as int * 0x100 + file[REG_FRF + 2] as int
         == FrfWord(frequency) % 0x100_0000
      && file[REG_DETECTION_OPTIMIZE] == DetectionOptimize(spreadingFactor)
      && file[REG_DETECTION_THRESHOLD] == DetectionThreshold(spreadingFactor)
      && ((file[REG_MODEM_CONFIG_1] >> 1) & 0x07) as int == Denominator(codingRate) - 4
    }

    /** Preamble length, sync word and the CRC bit as written. */
    ghost predicate FramingConfigured(file: seq<bv8>)
      requires |file| == REGISTER_COUNT
      reads this`preambleLength, this`syncWord, this`crc
    {
      && 0 <= preambleLength < 0x1_0000
      && file[REG_PREAMBLE] as int * 0x100 + file[REG_PREAMBLE + 1] as int == preambleLength
      && file[REG_SYNC_WORD] as int == syncWord % 0x100
      && file[REG_MODEM_CONFIG_2] & 0x04 == (if crc then 0x04 else 0x00)
    }

    /** The registers the end of open() sets: both FIFO base addresses zero,
        the LNA boosted, automatic gain control on, the power level, standby,
        no IRQ flag set. */
    ghost predicate RadioSetUp(file: seq<bv8>)
      requires |file| == REGISTER_COUNT
      reads this`txPower
    {
      && file[REG_FIFO_TX_BASE_ADDR] == 0 && file[REG_FIFO_RX_BASE_ADDR] == 0
      && file[REG_LNA] & 0x03 == 0x03 && file[REG_MODEM_CONFIG_3] == 0x04
      && TX_POWER_MIN <= txPower <= TX_POWER_MAX && file[REG_PA_CONFIG] == PaConfig(txPower)
      && file[REG_OP_MODE] == OP_STDBY && file[REG_IRQ_FLAGS] == 0x00
    }

    predicate SetupRegister(k: int) {
      || k == REG_FIFO_TX_BASE_ADDR as int || k == REG_FIFO_RX_BASE_ADDR as int
      || k == REG_LNA as int || k == REG_MODEM_CONFIG_3 as int || k == REG_PA_CONFIG as int
      || k == REG_OP_MODE as int || k == REG_IRQ_FLAGS as int
    }

    /** The registers CarrierConfigured and FramingConfigured speak of, and the
        others their setters write. */
    predicate CarrierRegister(k: int) {
      || REG_FRF as int <= k < REG_FRF as int + 3
      || k == REG_DETECTION_OPTIMIZE as int || k == REG_DETECTION_THRESHOLD as int
      || k == REG_MODEM_CONFIG_1 as int || k == REG_MODEM_CONFIG_2 as int
    }

    predicate ModulationRegister(k: int) {
      || k == REG_DETECTION_OPTIMIZE as int || k == REG_DETECTION_THRESHOLD as int
      || k == REG_MODEM_CONFIG_1 as int || k == REG_MODEM_CONFIG_2 as int
    }

    predicate FramingRegister(k: int) {
      || REG_PREAMBLE as int <= k < REG_PREAMBLE as int + 2
      || k == REG_SYNC_WORD as int || k == REG_MODEM_CONFIG_2 as int
    }

    /** open: attaches the SPI handle, checks the chip version, puts the chip to
        sleep, applies the stored configuration (inverted IQ when asked for,
        frequency, spreading factor, bandwidth, coding rate, preamble, sync word,
        CRC), zeroes both FIFO base addresses, boosts the LNA, turns on the
        automatic gain control, sets the power, goes to standby and clears the
        IRQ flags. Opening the handle, the GPIO lines and the reset pulse are not
        modelled: the handle is taken to open. */
    method Open() returns (r: Result<()>)
      requires Valid()
      modifies this`spi, this`spreadingFactor, this`codingRate, this`txPower, this`frequency,
               this`signalBandwidth, this`preambleLength, this`syncWord, this`crc,
               this`bus, this`cursor, this`chip
      ensures Valid()
      ensures spi
      ensures frequency == old(frequency) && signalBandwidth == old(signalBandwidth)
      ensures preambleLength == old(preambleLength) && syncWord == old(syncWord) && crc == old(crc)
      ensures replies(old(cursor)) != EXPECTED_VERSION ==>
        && r == Err(InvalidVersion(replies(old(cursor)))) && cursor == old(cursor) + 1
        && bus == old(bus) + [Rd(REG_VERSION)] && chip == old(chip)
      ensures replies(old(cursor)) == EXPECTED_VERSION ==>
        (r.Ok? <==> FitsInt32(FrfWord(frequency)) && 0 <= preambleLength < 0x1_0000)
      ensures replies(old(cursor)) == EXPECTED_VERSION && r.Err? ==> r.error == OutOfRange
      ensures replies(old(cursor)) == EXPECTED_VERSION && r.Ok? ==>
        && spreadingFactor == Clamp(old(spreadingFactor), SF_MIN, SF_MAX)
        && codingRate == Ratio(Denominator(old(codingRate)))
        && txPower == Clamp(old(txPower), TX_POWER_MIN, TX_POWER_MAX)
        && ModemConfigured(chip) && RadioSetUp(chip)
        && (invertIqReg ==> chip[REG_INVERT_IQ] & 0x40 == 0x40)
    {
      spi := true;
      var version := ReadVersion();
      if version.value != EXPECTED_VERSION {
        return Err(InvalidVersion(version.value));
      }
      r := Configure();
    }

    /** The part of open() after the version check. */
    method Configure() returns (r: Result<()>)
      requires Valid() && spi
      modifies this`spreadingFactor, this`codingRate, this`txPower, this`frequency,
               this`signalBandwidth, this`preambleLength, this`syncWord, this`crc,
               this`bus, this`cursor, this`chip
      ensures Valid()
      ensures frequency == old(frequency) && signalBandwidth == old(signalBandwidth)
      ensures preambleLength == old(preambleLength) && syncWord == old(syncWord) && crc == old(crc)
      ensures r.Ok? <==> FitsInt32(FrfWord(frequency)) && 0 <= preambleLength < 0x1_0000
      ensures r.Err? ==> r.error == OutOfRange
      ensures r.Ok? ==>
        && spreadingFactor == Clamp(old(spreadingFactor), SF_MIN, SF_MAX)
        && codingRate == Ratio(Denominator(old(codingRate)))
        && txPower == Clamp(old(txPower), TX_POWER_MIN, TX_POWER_MAX)
        && ModemConfigured(chip) && RadioSetUp(chip)
        && (invertIqReg ==> chip[REG_INVERT_IQ] & 0x40 == 0x40)
    {
      Prepare();
      ghost var iq := chip[REG_INVERT_IQ];
      r := ConfigureRegisters();
      assert chip[REG_INVERT_IQ] == iq;
    }

    /** The stored configuration applied, then the fixed setup. */
    method ConfigureRegisters() returns (r: Result<()>)
      requires Valid() && spi
      modifies this`spreadingFactor, this`codingRate, this`txPower, this`frequency,
               this`signalBandwidth, this`preambleLength, this`syncWord, this`crc,
               this`bus, this`cursor, this`chip
      ensures Valid()
      ensures frequency == old(frequency) && signalBandwidth == old(signalBandwidth)
      ensures preambleLength == old(preambleLength) && syncWord == old(syncWord) && crc == old(crc)
      ensures r.Ok? <==> FitsInt32(FrfWord(frequency)) && 0 <= preambleLength < 0x1_0000
      ensures r.Err? ==> r.error == OutOfRange
      ensures r.Ok? ==>
        && spreadingFactor == Clamp(old(spreadingFactor), SF_MIN, SF_MAX)
        && codingRate == Ratio(Denominator(old(codingRate)))
        && txPower == Clamp(old(txPower), TX_POWER_MIN, TX_POWER_MAX)
        && ModemConfigured(chip) && RadioSetUp(chip)
      ensures chip[REG_INVERT_IQ] == old(chip[REG_INVERT_IQ])
    {
      r := ApplyModemConfig();
      if r.Err? {
        return;
      }
      r := SetUpRadio();
    }

    /** The fixed setup, on top of a configured modem which it leaves configured. */
    method SetUpRadio() returns (r: Result<()>)
      requires Valid() && spi && ModemConfigured(chip)
      modifies this`txPower, this`bus, this`cursor, this`chip
      ensures Valid()
      ensures r == Ok(())
      ensures txPower == Clamp(old(txPower), TX_POWER_MIN, TX_POWER_MAX)
      ensures ModemConfigured(chip) && RadioSetUp(chip)
      ensures chip[REG_INVERT_IQ] == old(chip[REG_INVERT_IQ])
    {
      ghost var configured := chip;
      r := ApplyRadioSetup();
      RadioSetupKeeps(configured, chip);
    }

    /** Sleep mode, then inverted IQ when the options ask for it. */
    method Prepare()
      requires Valid() && spi
      modifies this`bus, this`cursor, this`chip
      ensures Valid()
      ensures invertIqReg ==> chip[REG_INVERT_IQ] & 0x40 == 0x40
      ensures forall k :: 0 <= k < REGISTER_COUNT && k != REG_OP_MODE as int && k != REG_INVERT_IQ as int ==>
        chip[k] == old(chip[k])
    {
      var _ := Sleep();
      if invertIqReg {
        var _ := InvertIq();
      }
    }

    /** ApplyRadioSetup writes none of the modem registers. */
    lemma RadioSetupKeeps(before: seq<bv8>, after: seq<bv8>)
      requires |before| == |after| == REGISTER_COUNT
      requires forall k :: 0 <= k < REGISTER_COUNT && !SetupRegister(k) ==> after[k] == before[k]
      ensures ModemConfigured(before) ==> ModemConfigured(after)
    {
    }

    /** The configuration part of open(): each stored parameter passed to its
        setter, stopping at the first encoder that rejects its value. */
    method ApplyModemConfig() returns (r: Result<()>)
      requires Valid() && spi
      modifies this`spreadingFactor, this`codingRate, this`frequency, this`signalBandwidth,
               this`preambleLength, this`syncWord, this`crc, this`bus, this`cursor, this`chip
      ensures Valid()
      ensures frequency == old(frequency) && signalBandwidth == old(signalBandwidth)
      ensures preambleLength == old(preambleLength) && syncWord == old(syncWord) && crc == old(crc)
      ensures r.Ok? <==> FitsInt32(FrfWord(frequency)) && 0 <= preambleLength < 0x1_0000
      ensures r.Err? ==> r.error == OutOfRange
      ensures r.Ok? ==>
        && spreadingFactor == Clamp(old(spreadingFactor), SF_MIN, SF_MAX)
        && codingRate == Ratio(Denominator(old(codingRate)))
        && ModemConfigured(chip)
      ensures forall k :: 0 <= k < REGISTER_COUNT && !CarrierRegister(k) && !FramingRegister(k) ==>
        chip[k] == old(chip[k])
    {
      r := ApplyCarrier();
      if r.Err? {
        return;
      }
      ghost var carrier := chip;
      r := ApplyFraming();
      if r.Err? {
        return;
      }
      CarrierKept(carrier, chip);
    }

    /** The framing setters keep the carrier registers CarrierConfigured speaks
        of (MODEM_CONFIG_2 only in its low bits, which it does not constrain). */
    lemma CarrierKept(before: seq<bv8>, after: seq<bv8>)
      requires |before| == |after| == REGISTER_COUNT
      requires forall k :: 0 <= k < REGISTER_COUNT && !FramingRegister(k) ==> after[k] == before[k]
      ensures CarrierConfigured(before) ==> CarrierConfigured(after)
    {
    }

    /** setFrequency, setSpreadingFactor, setSignalBandwidth and setCodingRate
        with the stored values. */
    method ApplyCarrier() returns (r: Result<()>)
      requires Valid() && spi
      modifies this`spreadingFactor, this`codingRate, this`frequency, this`signalBandwidth,
               this`bus, this`cursor, this`chip
      ensures Valid()
      ensures frequency == old(frequency) && signalBandwidth == old(signalBandwidth)
      ensures r.Ok? <==> FitsInt32(FrfWord(frequency))
      ensures r.Err? ==> r.error == OutOfRange && spreadingFactor == old(spreadingFactor)
      ensures r.Ok? ==>
        && spreadingFactor == Clamp(old(spreadingFactor), SF_MIN, SF_MAX)
        && codingRate == Ratio(Denominator(old(codingRate)))
        && CarrierConfigured(chip)
      ensures forall k :: 0 <= k < REGISTER_COUNT && !CarrierRegister(k) ==> chip[k] == old(chip[k])
    {
      r := SetFrequency(frequency);
      if r.Err? {
        return;
      }
      ghost var frf := (chip[REG_FRF], chip[REG_FRF + 1], chip[REG_FRF + 2]);
      ApplyModulation();
      assert (chip[REG_FRF], chip[REG_FRF + 1], chip[REG_FRF + 2]) == frf;
    }

    /** setSpreadingFactor, setSignalBandwidth and setCodingRate with the stored
        values. */
    method ApplyModulation()
      requires Valid() && spi
      modifies this`spreadingFactor, this`codingRate, this`signalBandwidth, this`bus, this`cursor, this`chip
      ensures Valid()
      ensures signalBandwidth == old(signalBandwidth)
      ensures spreadingFactor == Clamp(old(spreadingFactor), SF_MIN, SF_MAX)
      ensures codingRate == Ratio(Denominator(old(codingRate)))
      ensures chip[REG_DETECTION_OPTIMIZE] == DetectionOptimize(spreadingFactor)
      ensures chip[REG_DETECTION_THRESHOLD] == DetectionThreshold(spreadingFactor)
      ensures ((chip[REG_MODEM_CONFIG_1] >> 1) & 0x07) as int == Denominator(codingRate) - 4
      ensures forall k :: 0 <= k < REGISTER_COUNT && !ModulationRegister(k) ==> chip[k] == old(chip[k])
    {
      var _ := SetSpreadingFactor(spreadingFactor);
      ghost var detection := (chip[REG_DETECTION_OPTIMIZE], chip[REG_DETECTION_THRESHOLD]);
      var _ := SetSignalBandwidth(signalBandwidth);
      var _ := SetCodingRate(codingRate);
      assert Denominator(codingRate) == Denominator(old(codingRate)) by {
        DenominatorOfRatio(Denominator(old(codingRate)));
      }
      assert (chip[REG_DETECTION_OPTIMIZE], chip[REG_DETECTION_THRESHOLD]) == detection;
    }

    /** setPreambleLength, setSyncWord and setCrc with the stored values. */
    method ApplyFraming() returns (r: Result<()>)
      requires Valid() && spi
      modifies this`preambleLength, this`syncWord, this`crc, this`bus, this`cursor, this`chip
      ensures Valid()
      ensures preambleLength == old(preambleLength) && syncWord == old(syncWord) && crc == old(crc)
      ensures r.Ok? <==> 0 <= preambleLength < 0x1_0000
      ensures r.Err? ==> r.error == OutOfRange
      ensures r.Ok? ==> FramingConfigured(chip)
      ensures forall k :: 0 <= k < REGISTER_COUNT && !FramingRegister(k) ==> chip[k] == old(chip[k])
    {
      r := SetPreambleLength(preambleLength);
      if r.Err? {
        return;
      }
      ghost var preamble := (chip[REG_PREAMBLE], chip[REG_PREAMBLE + 1]);
      var _ := SetSyncWord(syncWord);
      var _ := SetCrc(crc);
      assert (chip[REG_PREAMBLE], chip[REG_PREAMBLE + 1]) == preamble;
    }

    /** The rest of open(): FIFO bases, LNA boost, automatic gain control, power,
        standby, IRQ flags cleared. */
    method ApplyRadioSetup() returns (r: Result<()>)
      requires Valid() && spi
      modifies this`txPower, this`bus, this`cursor, this`chip
      ensures Valid()
      ensures r == Ok(()) && cursor == old(cursor) + 1
      ensures txPower == Clamp(old(txPower), TX_POWER_MIN, TX_POWER_MAX)
      ensures RadioSetUp(chip)
      ensures chip[REG_LNA] == SetBits(replies(old(cursor)), 0x03, true)
      ensures forall k :: 0 <= k < REGISTER_COUNT && !SetupRegister(k) ==> chip[k] == old(chip[k])
    {
      var _ := WriteRegister(REG_FIFO_TX_BASE_ADDR, [0]);
      var _ := WriteRegister(REG_FIFO_RX_BASE_ADDR, [0]);
      var _ := SetLnaBoost(true);
      var _ := WriteRegister(REG_MODEM_CONFIG_3, [0x04]);
      var _ := SetTxPower(txPower);
      var _ := StandBy();
      r := WriteRegister(REG_IRQ_FLAGS, [0x00]);
    }

    /** close: releases the SPI handle. Without one, the driver dereferences
        the absent handle and fails. */
    method Close() returns (r: Result<()>)
      modifies this`spi
      ensures !spi
      ensures r == if old(spi) then Ok(()) else Err(NoTransport)
    {
      if !spi {
        return Err(NoTransport);
      }
      spi := false;
      r := Ok(());
    }
  }
}
