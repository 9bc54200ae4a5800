// The register-access protocol of the SX127x: the register and mode constants
// the driver uses, the frames it puts on the SPI bus, and what the chip does
// with a write frame.

module Wire {

  /** The ways a driver operation can fail. */
  datatype Fault =
    | SpiNotDefined             // a register read while no SPI handle is attached
    | NoTransport               // a register write while no SPI handle is attached
    | OutOfRange                // a Buffer encoder rejected its argument (RangeError)
    | InvalidVersion(version: bv8)
    | WriteTimeout
    | ModeChangeFailed

  datatype Result<T> = Ok(value: T) | Err(error: Fault)

  // registers
  const REG_FIFO: bv8 := 0x00
  const REG_OP_MODE: bv8 := 0x01
  const REG_FRF: bv8 := 0x06
  const REG_PA_CONFIG: bv8 := 0x09
  const REG_LNA: bv8 := 0x0c
  const REG_FIFO_ADDR_PTR: bv8 := 0x0d
  const REG_FIFO_TX_BASE_ADDR: bv8 := 0x0e
  const REG_FIFO_RX_BASE_ADDR: bv8 := 0x0f
  const REG_FIFO_RX_CURRENT_ADDR: bv8 := 0x10
  const REG_IRQ_FLAGS: bv8 := 0x12
  const REG_RX_NB_BYTES: bv8 := 0x13
  const REG_PKT_RSSI_VALUE: bv8 := 0x1a
  const REG_PKT_SNR_VALUE: bv8 := 0x1b
  const REG_MODEM_CONFIG_1: bv8 := 0x1d
  const REG_MODEM_CONFIG_2: bv8 := 0x1e
  const REG_PREAMBLE: bv8 := 0x20
  const REG_PAYLOAD_LENGTH: bv8 := 0x22
  const REG_MODEM_CONFIG_3: bv8 := 0x26
  const REG_DETECTION_OPTIMIZE: bv8 := 0x31
  const REG_INVERT_IQ: bv8 := 0x33
  const REG_DETECTION_THRESHOLD: bv8 := 0x37
  const REG_SYNC_WORD: bv8 := 0x39
  const REG_IMAGE_CALIBRATION: bv8 := 0x3b
  const REG_TEMPERATURE: bv8 := 0x3c
  const REG_DIO_MAPPING_1: bv8 := 0x40
  const REG_VERSION: bv8 := 0x42

  // modes
  const MODE_LONG_RANGE_MODE: bv8 := 0x80
  const MODE_SLEEP: bv8 := 0x00
  const MODE_STDBY: bv8 := 0x01
  const MODE_TX: bv8 := 0x03
  const MODE_FSRX: bv8 := 0x04
  const MODE_RX_CONTINUOUS: bv8 := 0x05
  const MODE_RX_SINGLE: bv8 := 0x06

  // IRQ masks
  const IRQ_PAYLOAD_CRC_ERROR_MASK: bv8 := 0x20
  const IRQ_TX_DONE_MASK: bv8 := 0x08
  const IRQ_RX_DONE_MASK: bv8 := 0x40

  /** Number of registers the chip decodes from the 7 address bits. */
  const REGISTER_COUNT: nat := 128

  /** The byte whose value is `m`, counted up from zero. */
  function ByteOf(m: int): bv8
    requires 0 <= m < 256
    decreases m
  {
    if m == 0 then 0 else ByteOf(m - 1) + 1
  }

  /** Below 0xff, adding one to a byte adds one to its value. */
  lemma Increment(b: bv8)
    requires b != 0xff
    ensures (b + 1) as int == b as int + 1
  {
  }

  lemma {:induction false} ByteOfHasValue(m: int)
    requires 0 <= m < 256
    ensures ByteOf(m) as int == m
  {
    if m != 0 {
      ByteOfHasValue(m - 1);
      assert ByteOf(m - 1) != 0xff;
      Increment(ByteOf(m - 1));
    }
  }

  /** Two bytes with the same value are the same byte. */
  lemma SameValue(a: bv8, b: bv8)
    requires a as int == b as int
    ensures a == b
  {
  }

  /** The byte a JavaScript number becomes when stored into a Buffer. */
  function Byte(x: int): bv8 {
    ByteOf(x % 256)
  }

  /** A byte holds the JavaScript number modulo 256. */
  lemma ByteValue(x: int)
    ensures Byte(x) as int == x % 256
  {
    ByteOfHasValue(x % 256);
  }

  /** Storing a byte's value gives the byte back. */
  lemma ByteOfValue(b: bv8, x: int)
    requires x % 256 == b as int
    ensures Byte(x) == b
  {
    ByteValue(x);
    SameValue(Byte(x), b);
  }

  /** `n` zero bytes, as a fresh Buffer of length `n` holds. */
  function Zeros(n: nat): (z: seq<bv8>)
    ensures |z| == n && forall k :: 0 <= k < n ==> z[k] == 0
  {
    seq(n, _ => 0)
  }

  /** A bus transaction as the chip decodes it from a frame. */
  datatype Transaction = Read(addr: bv8, length: nat) | Write(addr: bv8, data: seq<bv8>)

  /** The chip's side of the protocol: bit 7 of the first byte says write (1) or
      read (0), the other seven bits are the register address, and the rest of
      the frame is the data (a write) or filler clocked out for the answer (a read). */
  function Decode(frame: seq<bv8>): Transaction
    requires |frame| >= 1
  {
    if frame[0] & 0x80 == 0 then Read(frame[0] & 0x7f, |frame| - 1)
    else Write(frame[0] & 0x7f, frame[1..])
  }

  /** The send buffer of a read of `n` bytes: the address with bit 7 cleared,
      then `n` zero bytes during which the chip clocks out its answer. */
  function ReadFrame(addr: bv8, n: nat): (f: seq<bv8>)
    ensures |f| == n + 1
  {
    [addr & 0x7f] + Zeros(n)
  }

  /** The send buffer of a write: the address with bit 7 set, then the data. */
  function WriteFrame(addr: bv8, data: seq<bv8>): (f: seq<bv8>)
    ensures |f| == |data| + 1
  {
    [addr | 0x80] + data
  }

  /** The chip reads a read frame as a read of `n` bytes at the address. */
  lemma ReadFrameDecodes(addr: bv8, n: nat)
    ensures ReadFrame(addr, n)[0] & 0x80 == 0
    ensures Decode(ReadFrame(addr, n)) == Read(addr & 0x7f, n)
  {
  }

  /** The chip reads a write frame as a write of the data at the address. */
  lemma WriteFrameDecodes(addr: bv8, data: seq<bv8>)
    ensures WriteFrame(addr, data)[0] & 0x80 == 0x80
    ensures Decode(WriteFrame(addr, data)) == Write(addr & 0x7f, data)
  {
    assert WriteFrame(addr, data)[1..] == data;
  }

  /** Single-byte read and write frames, the form most register accesses take. */
  function Rd(addr: bv8): seq<bv8> {
    ReadFrame(addr, 1)
  }

  function Wr(addr: bv8, v: bv8): seq<bv8> {
    WriteFrame(addr, [v])
  }

  /** `count` copies of one frame, as a polling loop puts them on the bus. */
  function Repeat(frame: seq<bv8>, count: nat): (r: seq<seq<bv8>>)
    ensures |r| == count && forall k :: 0 <= k < count ==> r[k] == frame
  {
    seq(count, _ => frame)
  }

  /** Whether register `k` is written by a burst of `n` bytes at `addr`: the chip
      auto-increments the address, except for the FIFO port at address 0 whose
      bytes go to the packet buffer instead of the register file. */
  predicate InBurst(addr: bv8, n: nat, k: int) {
    addr != REG_FIFO && addr as int <= k < addr as int + n
  }

  /** The register file after the chip executes a write of `data` at `addr`. */
  function Store(file: seq<bv8>, addr: bv8, data: seq<bv8>): (r: seq<bv8>)
    requires |file| == REGISTER_COUNT
    ensures |r| == REGISTER_COUNT
    ensures forall k :: 0 <= k < REGISTER_COUNT && !InBurst(addr, |data|, k) ==> r[k] == file[k]
    ensures |data| == 1 && addr != REG_FIFO && addr as int < REGISTER_COUNT ==> r == file[addr as int := data[0]]
  {
    seq(REGISTER_COUNT, k requires 0 <= k < REGISTER_COUNT =>
      if InBurst(addr, |data|, k) then data[k - addr as int] else file[k])
  }
}
