// The configuration translator: how each radio parameter, given in engineering
// units, is clamped or bucketed and encoded into the bit-field of its register.

module Config {
  import opened Wire

  function Dist(a: int, b: int): nat {
    if a < b then b - a else a - b
  }

  /** `x` clamped into [lo, hi]: the point of the range nearest to `x`. */
  function Clamp(x: int, lo: int, hi: int): (c: int)
    requires lo <= hi
    ensures lo <= c <= hi
    ensures lo <= x <= hi ==> c == x
    ensures forall y :: lo <= y <= hi ==> Dist(c, x) <= Dist(y, x)
  {
    if x < lo then lo else if x > hi then hi else x
  }

  /** `v` with the bits of `mask` all set (`on`) or all cleared; the other bits kept. */
  function SetBits(v: bv8, mask: bv8, on: bool): (r: bv8)
    ensures r & !mask == v & !mask
    ensures r & mask == if on then mask else 0
  {
    if on then v | mask else v & !mask
  }

  // ---- temperature monitor -------------------------------------------------

  const RF_IMAGECAL_TEMPMONITOR_MASK: bv8 := 0xfe

  /** IMAGE_CALIBRATION with bit 0 (TempMonitorOff) set to `off`, other bits kept. */
  function WithTempMonitorOff(cal: bv8, off: bool): (r: bv8)
    ensures r & 0xfe == cal & 0xfe
    ensures r & 0x01 == if off then 0x01 else 0x00
  {
    (cal & RF_IMAGECAL_TEMPMONITOR_MASK) | (if off then 0x01 else 0x00)
  }

  // ---- transmit power -------------------------------------------------------

  const TX_POWER_MIN: int := 2
  const TX_POWER_MAX: int := 17
  const PA_BOOST: bv8 := 0x80

  /** The PA_CONFIG byte for an (already clamped) power level: the PA_BOOST pin
      selected and the output power as `level - 2` in the low nibble. */
  function PaConfig(level: int): (v: bv8)
    requires TX_POWER_MIN <= level <= TX_POWER_MAX
    ensures 0x80 <= v <= 0x8f
    ensures v & PA_BOOST == PA_BOOST
    ensures (v & 0x0f) as int + TX_POWER_MIN == level
  {
    PA_BOOST | (level - 2) as bv8
  }

  // ---- spreading factor -----------------------------------------------------

  const SF_MIN: int := 6
  const SF_MAX: int := 12

  /** Detection-optimize and detection-threshold values: spreading factor 6 has
      its own pair, every other factor shares the second one. */
  function DetectionOptimize(sf: int): bv8 {
    if sf == 6 then 0xc5 else 0xc3
  }

  function DetectionThreshold(sf: int): bv8 {
    if sf == 6 then 0x0c else 0x0a
  }

  /** MODEM_CONFIG_2 with the spreading factor in the high nibble. */
  function WithSpreadingFactor(config2: bv8, sf: int): (r: bv8)
    requires SF_MIN <= sf <= SF_MAX
    ensures r & 0x0f == config2 & 0x0f
    ensures (r >> 4) as int == sf
  {
    (config2 & 0x0f) | ((sf as bv8) << 4)
  }

  // ---- signal bandwidth -----------------------------------------------------

  /** Upper edges (Hz) of bandwidth codes 0..8; anything wider is code 9. */
  const BANDWIDTH_EDGES: seq<real> :=
    [7800.0, 10400.0, 15600.0, 20800.0, 31250.0, 41700.0, 62500.0, 125000.0, 250000.0]

  /** The bandwidth code: the first code whose upper edge is at least `sbw`,
      or 9 above the last edge. */
  function BandwidthCode(sbw: real): (bw: nat)
    ensures bw <= 9
    ensures bw < 9 ==> sbw <= BANDWIDTH_EDGES[bw]
    ensures forall i :: 0 <= i < bw ==> BANDWIDTH_EDGES[i] < sbw
  {
    if sbw <= 7800.0 then 0
    else if sbw <= 10400.0 then 1
    else if sbw <= 15600.0 then 2
    else if sbw <= 20800.0 then 3
    else if sbw <= 31250.0 then 4
    else if sbw <= 41700.0 then 5
    else if sbw <= 62500.0 then 6
    else if sbw <= 125000.0 then 7
    else if sbw <= 250000.0 then 8
    else 9
  }

  /** A wider request never gets a narrower bandwidth code. */
  lemma BandwidthMonotone(a: real, b: real)
    requires a <= b
    ensures BandwidthCode(a) <= BandwidthCode(b)
  {
  }

  /** MODEM_CONFIG_1 with the bandwidth code in the high nibble. */
  function WithBandwidth(config1: bv8, bw: nat): (r: bv8)
    requires bw <= 9
    ensures r & 0x0f == config1 & 0x0f
    ensures (r >> 4) as int == bw
  {
    (config1 & 0x0f) | ((bw as bv8) << 4)
  }

  // ---- coding rate ----------------------------------------------------------

  /** The coding rate 4/d of denominator d. */
  function Ratio(d: int): real
    requires d > 0
  {
    4.0 / d as real
  }

  /** The denominator 5..8 the driver picks for a requested coding rate: the
      largest one whose rate 4/d still reaches `cr`, and 5 when none does. */
  function Denominator(cr: real): (d: int)
    ensures 5 <= d <= 8
    ensures cr <= Ratio(d) || d == 5
    ensures forall e :: d < e <= 8 ==> Ratio(e) < cr
  {
    if cr <= 4.0 / 8.0 then 8
    else if cr <= 4.0 / 7.0 then 7
    else if cr <= 4.0 / 6.0 then 6
    else 5
  }

  /** MODEM_CONFIG_1 with `d - 4` in bits 1..3. */
  function WithCodingRate(config1: bv8, d: int): (r: bv8)
    requires 5 <= d <= 8
    ensures r & 0xf1 == config1 & 0xf1
    ensures ((r >> 1) & 0x07) as int == d - 4
  {
    (config1 & 0xf1) | (((d - 4) as bv8) << 1)
  }

  /** The rate the driver stores for a denominator selects that denominator
      again: setting the stored coding rate is idempotent. */
  lemma DenominatorOfRatio(d: int)
    requires 5 <= d <= 8
    ensures Denominator(Ratio(d)) == d
  {
  }

  // ---- carrier frequency ----------------------------------------------------

  /** Crystal frequency and the 2^19 scale of the FRF register. */
  const FXOSC: int := 32000000
  const FRF_SCALE: int := 524288

  /** The FRF word, floor(f / FXOSC * 2^19), in exact arithmetic. */
  function FrfWord(f: int): (w: int)
    ensures w * FXOSC <= f * FRF_SCALE < (w + 1) * FXOSC
  {
    (f * FRF_SCALE) / FXOSC
  }

  predicate FitsInt32(w: int) {
    -0x8000_0000 <= w < 0x8000_0000
  }

  /** Buffer.writeInt32BE: the 32-bit two's-complement bytes, most significant first. */
  function Int32BE(w: int): (b: seq<bv8>)
    requires FitsInt32(w)
    ensures |b| == 4
  {
    [Byte(w / 0x100_0000), Byte(w / 0x1_0000), Byte(w / 0x100), Byte(w)]
  }

  /** The three bytes written to REG_FRF: the 32-bit buffer with its top byte sliced off. */
  function FrfBytes(w: int): (b: seq<bv8>)
    requires FitsInt32(w)
    ensures |b| == 3
  {
    Int32BE(w)[1..]
  }

  /** A three-byte big-endian value, as the chip reads its FRF registers. */
  function Uint24(b: seq<bv8>): nat
    requires |b| == 3
  {
    b[0] as nat * 0x1_0000 + b[1] as nat * 0x100 + b[2] as nat
  }

  lemma Div2p16(a: int, q: int, r: int)
    requires a == 0x1_0000 * q + r && 0 <= r < 0x1_0000
    ensures a / 0x1_0000 == q && a % 0x1_0000 == r
  {
  }

  lemma Div2p24(a: int, q: int, r: int)
    requires a == 0x100_0000 * q + r && 0 <= r < 0x100_0000
    ensures a / 0x100_0000 == q && a % 0x100_0000 == r
  {
  }

  lemma {:induction false} DivDiv(w: int)
    ensures (w / 0x100) / 0x100 == w / 0x1_0000
  {
    var q, r := w / 0x100, w % 0x100;
    var q2, r2 := q / 0x100, q % 0x100;
    assert w == 0x1_0000 * q2 + (0x100 * r2 + r);
    Div2p16(w, q2, 0x100 * r2 + r);
  }

  /** The FRF bytes are the low 24 bits of the word, big-endian. */
  lemma {:induction false} FrfBytesValue(w: int)
    requires FitsInt32(w)
    ensures Uint24(FrfBytes(w)) == w % 0x100_0000
  {
    var b := FrfBytes(w);
    var q1 := w / 0x100;
    var q2 := w / 0x1_0000;
    DivDiv(w);
    ByteValue(w);
    ByteValue(q1);
    ByteValue(q2);
    assert b[0] as int == q2 % 0x100 && b[1] as int == q1 % 0x100 && b[2] as int == w % 0x100;
    var q3 := q2 / 0x100;
    assert q2 == 0x100 * q3 + b[0] as int;
    assert q1 == 0x100 * q2 + b[1] as int;
    assert w == 0x100 * q1 + b[2] as int;
    assert w == 0x100_0000 * q3 + Uint24(b);
    Div2p24(w, q3, Uint24(b));
  }

  /** The carrier frequency (Hz) a 24-bit FRF value stands for. */
  function FrequencyOf(frf: int): real {
    frf as real * FXOSC as real / FRF_SCALE as real
  }

  /** Over the FRF register's range, the written bytes give back the requested
      frequency rounded down to the synthesizer's step of FXOSC / 2^19 Hz. */
  lemma {:induction false} FrequencyRoundTrip(f: int)
    requires 0 <= f < 0x100_0000 * FXOSC / FRF_SCALE
    ensures FitsInt32(FrfWord(f))
    ensures Uint24(FrfBytes(FrfWord(f))) == FrfWord(f)
    ensures FrequencyOf(FrfWord(f)) <= f as real < FrequencyOf(FrfWord(f)) + FXOSC as real / FRF_SCALE as real
  {
    var w := FrfWord(f);
    assert 0 <= w < 0x100_0000;
    FrfBytesValue(w);
    Div2p24(w, 0, w);
    assert w as real * FXOSC as real <= f as real * FRF_SCALE as real;
    assert f as real * FRF_SCALE as real < (w + 1) as real * FXOSC as real;
  }

  // ---- preamble -------------------------------------------------------------

  /** Buffer.writeUInt16BE: two bytes, most significant first. */
  function Uint16BE(n: int): (b: seq<bv8>)
    requires 0 <= n < 0x1_0000
    ensures |b| == 2 && b[0] as int * 0x100 + b[1] as int == n
  {
    var hi, lo := n / 0x100, n % 0x100;
    ByteOfHasValue(hi);
    ByteOfHasValue(lo);
    [ByteOf(hi), ByteOf(lo)]
  }
}
