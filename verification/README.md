# MPU6050 raw-sample decoder

A Dafny model of the sampling core of a Raspberry Pi vibration logger. The
logger reads an MPU6050 accelerometer over I2C. Each axis is stored in two
consecutive 8-bit registers, high byte first. `read_raw_data` joins them
into a 16-bit word and corrects the sign. `print_data` reads the X, Y and Z
axes in that order from the register constants `ACCEL_X_OUT_H` (0x3B),
`ACCEL_Y_OUT_H` (0x3D) and `ACCEL_Z_OUT_H` (0x3F).

The I2C bus is modelled as a pure function `Bus` from (device address,
register address) to a byte. The function describes the register contents
at the moment of one sampling tick. Each read operation also returns the
register addresses it read, in order, so the read sequence can be stated.

Files and modules:

- `registers.dfy` (`Registers`): the `Byte` type and the three accelerometer
  register constants.
- `bits.dfy` (`Bits`): Python's `<<` and `|` on non-negative integers,
  written out arithmetically. Python integers do not wrap, so neither does
  the model. It includes the lemma that or-ing two values whose bits do not
  overlap is the same as adding them.
- `decoder.dfy` (`Decoder`): the byte join (`Concat`), the sign correction
  (`Decode`), a two's-complement int16 reference reading (`Int16`), the
  inverse encoder (`Encode`), and lemmas relating them.
- `sampler.dfy` (`Sampler`): `ReadRaw` (one axis) and `SampleRaw` (the
  three-axis read of one tick), with lemmas about the read sequence.

The sign threshold follows the code: a word is made negative only when it
is strictly greater than 32768. So the word 0x8000 decodes to +32768, not
-32768. The decoder's range is therefore [-32767, 32768], not the int16
range [-32768, 32767]. The comment at main.py:51 asks for a signed value.
The usual int16 reading makes a word negative when `value >= 32768`, but
the code uses `value > 32768`. This model keeps the threshold as written
and proves exactly where the two readings differ
(`Decoder.DecodeVersusInt16`).

## Model

| member | source | states |
|---|---|---|
| Bits.ShiftLeft | main.py:49 | `x << k` is `x * 2^k`: its low `k` bits are zero, and dropping them gives back `x` |
| Bits.BitOr | main.py:49 | Python's `a \| b` on naturals, bit by bit from the low end: the result is at least each operand and at most their sum, and its lowest bit is set exactly when either operand's is |
| Bits.BitOrBits | main.py:49 | each bit of `a \| b` is set exactly when that bit of `a` or of `b` is, which pins the or down completely |
| Bits.BitOrDisjoint | main.py:49 | `(a << k) \| b` equals `a * 2^k + b` whenever `b < 2^k`, so the or in the byte join never loses or merges bits |
| Decoder.Concat | main.py:49 | for bytes, `(high << 8) \| low` is `high * 256 + low`, lies in [0, 65535], and gives back `high` as its upper byte and `low` as its lower byte |
| Decoder.Decode | main.py:49-55 | the result lies in [-32767, 32768], is congruent to the 16-bit word modulo 65536, and is negative exactly when the word is above 32768; words up to 32768 come back unchanged, larger ones as `word - 65536` |
| Decoder.Int16 | main.py:51-53 | reference two's-complement reading that the sign correction intends: the unique value in [-32768, 32767] congruent to the word modulo 65536 |
| Decoder.Encode | main.py:49-53 | inverse of the decoder: a register pair whose word is congruent to the given value modulo 65536 |
| Decoder.DecodeEncode | main.py:49-55 | decoding the encoded pair of any value in [-32767, 32768] gives that value back |
| Decoder.EncodeDecode | main.py:49-55 | encoding a decoded value gives back the original register pair |
| Decoder.DecodeInjective | main.py:49-53 | distinct (high, low) pairs never decode to the same value |
| Decoder.DecodeRangeExact | main.py:49-53 | a value is produced by some register pair if and only if it lies in [-32767, 32768] |
| Decoder.DecodeVersusInt16 | main.py:49-53 | the decoder agrees with the int16 reading for every pair except (0x80, 0x00), where it is 65536 larger |
| Decoder.DecodeBoundaries | main.py:52-53 | 0x0000 gives 0, 0x7FFF gives 32767, 0x8000 gives +32768, 0x8001 gives -32767 and 0xFFFF gives -1 |
| Sampler.ReadRaw | main.py:41-55 | reads the high byte at `sensor` and then the low byte at `sensor + 1`; the value is the decoded word with the first read as the upper byte, within [-32767, 32768] |
| Sampler.SampleRaw | main.py:58-64 | using the register constants `ACCEL_X_OUT_H`, `ACCEL_Y_OUT_H`, `ACCEL_Z_OUT_H` (main.py:14-16), one tick reads each constant and the register after it, X then Y then Z, which are the six consecutive addresses 0x3B..0x40; x, y and z are each decoded from their own consecutive pair, earlier read as the high byte |
| Sampler.SampleAxesDisjoint | main.py:62-64 | no register is read for two different axes, and the reads are X's pair, then Y's, then Z's, each from its `ACCEL_*_OUT_H` constant |
| Sampler.SampleDependsOnlyOnReads | main.py:62-64 | two buses that agree on registers 0x3B..0x40 give the same raw triple |
| Sampler.SampleExample | main.py:62-64 | pairs (0x00,0x00), (0x40,0x00), (0xC0,0x00) on X, Y, Z give raw values 0, 16384, -16384 |

## Left out

- The `smbus` bus object, `SMBus(1)` and every real register read and
  write. These are hardware I/O. The bus is the parameter `Bus`. Bus faults
  are not modelled because main.py does not catch bus errors.
- Sampler.SampleRaw: treats one tick as a single snapshot of the registers.
  On the device, the data registers can update between the six separate
  `read_byte_data` calls, so `print_data` can pair a high byte with a low
  byte from different samples; the model cannot show that. Because the bus
  is pure, read order cannot be observed either. The `trace` field is
  bookkeeping filled in by `ReadRaw` and `SampleRaw` themselves. It is tied
  to the values only because the contracts read the bus at the trace
  positions.
- `mpu_init` (main.py:22-38): five register writes with no logic.
- The `while True` loop with `sleep(1)` in `main`. It never terminates and
  only sets the timing.
- Console printing in `print_data`, and the conversion of each raw value to
  g as `raw / 16384.0`. The conversion is floating-point division. Over the
  reals it is `raw / 16384` (±2 g full-scale range). This is stated only in
  the comment of `Sampler.SampleExample`.
- The gyroscope register constants (`GYRO_*_OUT_H`) and the
  initialization register constants. The sampling core never reads them.
- plot_graph.py: CSV reading and plotting through external libraries.
