// Values the driver derives from raw status registers: the IRQ-flag tests, the
// packet RSSI and SNR, the on-die temperature, and where a run of flag reads
// first shows an event.

module Signal {
  import opened Wire

  /** A packet is ready when RX_DONE is set and PAYLOAD_CRC_ERROR is clear. */
  predicate PacketReady(flags: bv8) {
    flags & IRQ_RX_DONE_MASK != 0 && flags & IRQ_PAYLOAD_CRC_ERROR_MASK == 0
  }

  predicate TxDone(flags: bv8) {
    flags & IRQ_TX_DONE_MASK != 0
  }

  /** The index of the first flag byte with TX_DONE set, or |flags| if none has it. */
  function FirstTxDone(flags: seq<bv8>): (k: nat)
    ensures k <= |flags|
    ensures k < |flags| ==> TxDone(flags[k])
    ensures forall j :: 0 <= j < k ==> !TxDone(flags[j])
  {
    if flags == [] then 0
    else if TxDone(flags[0]) then 0
    else 1 + FirstTxDone(flags[1..])
  }

  /** A run of flags with no TX_DONE before index `i` and TX_DONE at `i` has its first one there. */
  lemma FirstTxDoneAt(flags: seq<bv8>, i: nat)
    requires i < |flags| && TxDone(flags[i])
    requires forall j :: 0 <= j < i ==> !TxDone(flags[j])
    ensures FirstTxDone(flags) == i
  {
  }

  /** The signed reading of a byte (Buffer.readInt8). */
  function Int8(b: bv8): (v: int)
    ensures -128 <= v < 128
    ensures Byte(v) == b
  {
    var v := if b < 128 then b as int else b as int - 256;
    ByteOfValue(b, v);
    v
  }

  /** Packet RSSI offset: 164 dB on the low-frequency port (below 868 MHz), 157 dB on the high one. */
  function RssiOffset(frequency: int): int {
    if frequency < 868000000 then 164 else 157
  }

  /** Packet RSSI in dBm from the raw PKT_RSSI_VALUE register. */
  function Rssi(raw: bv8, frequency: int): (rssi: int)
    ensures frequency < 868000000 ==> -164 <= rssi <= 91
    ensures frequency >= 868000000 ==> -157 <= rssi <= 98
    ensures Byte(rssi + RssiOffset(frequency)) == raw
  {
    var rssi := raw as int - RssiOffset(frequency);
    ByteOfValue(raw, rssi + RssiOffset(frequency));
    rssi
  }

  /** Packet SNR in dB: PKT_SNR_VALUE is a signed count of quarter dB. */
  function Snr(raw: bv8): (snr: real)
    ensures -32.0 <= snr <= 31.75
    ensures snr * 4.0 == Int8(raw) as real
    ensures Byte((snr * 4.0).Floor) == raw
  {
    Int8(raw) as real * 0.25
  }

  /** On-die temperature in degrees Celsius from the raw TEMPERATURE register,
      corrected by the calibration offset `compensation`. */
  function Temperature(raw: bv8, compensation: int): (t: int)
    ensures -128 <= t - compensation <= 126
    ensures raw > 128 ==> t - compensation == -1 - Int8(raw)
    ensures raw <= 128 ==> t - compensation == -(raw as int)
    ensures raw < 128 ==> t - compensation == -Int8(raw)
  {
    (if raw > 128 then 255 - raw as int else -(raw as int)) + compensation
  }

  /** One LSB of the temperature register is one degree, the reading falling as
      the raw value rises, except across 128 -> 129 where the two halves meet. */
  lemma TemperatureStep(raw: bv8, compensation: int)
    requires raw < 255 && raw != 128
    ensures Temperature(raw + 1, compensation) == Temperature(raw, compensation) - 1
  {
  }
}
