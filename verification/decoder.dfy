/** The sample decoder of `read_raw_data`: two register bytes are joined into
    a 16-bit word, and words above the sign threshold are shifted down by
    2^16. The threshold is strict at 32768, so the word 0x8000 decodes to
    +32768 and the decoder's range is [-32767, 32768] rather than the int16
    range. The model keeps that behaviour as written. */
module Decoder {
  import opened Registers
  import opened Bits

  /** Number of distinct 16-bit words. */
  const WordModulus: int := 65536

  /** Words strictly above this value are taken to be negative. */
  const SignThreshold: int := 32768

  /** Smallest and largest value the decoder can return. */
  const MinDecoded: int := SignThreshold - WordModulus + 1
  const MaxDecoded: int := SignThreshold

  /** A high/low register pair as read from the device. */
  datatype RegisterPair = RegisterPair(high: Byte, low: Byte)

  /** `(high << 8) | low`: the unsigned 16-bit word the two registers hold,
      with `high` as its upper byte. */
  function Concat(high: Byte, low: Byte): (value: nat)
    ensures value == high * 256 + low
    ensures value < WordModulus
    ensures value / 256 == high && value % 256 == low
  {
    BitOrDisjoint(high, low, 8);
    BitOr(ShiftLeft(high, 8), low)
  }

  /** The value `read_raw_data` returns for the register pair: the unique
      number in [MinDecoded, MaxDecoded] that is congruent to the word
      modulo 2^16. It is negative exactly when the word exceeds the
      threshold. */
  function Decode(high: Byte, low: Byte): (v: int)
    ensures MinDecoded <= v <= MaxDecoded
    ensures v % WordModulus == Concat(high, low)
    ensures v < 0 <==> Concat(high, low) > SignThreshold
  {
    var value := Concat(high, low);
    if value > SignThreshold then value - WordModulus else value
  }

  /** Reference reading of a 16-bit word as a two's-complement int16: the
      unique number in [-32768, 32767] congruent to the word modulo 2^16. */
  function Int16(word: int): (r: int)
    requires 0 <= word < WordModulus
    ensures -32768 <= r <= 32767
    ensures r % WordModulus == word
  {
    if word < 0x8000 then word else word - WordModulus
  }

  /** The register pair that decodes to `v`: the inverse of `Decode`. */
  function Encode(v: int): (p: RegisterPair)
    requires MinDecoded <= v <= MaxDecoded
    ensures Concat(p.high, p.low) == v % WordModulus
  {
    var word := if v < 0 then v + WordModulus else v;
    RegisterPair(word / 256, word % 256)
  }

  /** Decoding undoes encoding. */
  lemma DecodeEncode(v: int)
    requires MinDecoded <= v <= MaxDecoded
    ensures Decode(Encode(v).high, Encode(v).low) == v
  {
  }

  /** Encoding undoes decoding. */
  lemma EncodeDecode(high: Byte, low: Byte)
    ensures Encode(Decode(high, low)) == RegisterPair(high, low)
  {
  }

  /** Distinct register pairs never decode to the same value. */
  lemma DecodeInjective(h1: Byte, l1: Byte, h2: Byte, l2: Byte)
    requires Decode(h1, l1) == Decode(h2, l2)
    ensures h1 == h2 && l1 == l2
  {
  }

  /** The decoder's output range is exactly [-32767, 32768]: every value in
      it is produced by some register pair and no value outside it is. */
  lemma DecodeRangeExact(v: int)
    ensures (exists high: Byte, low: Byte :: Decode(high, low) == v)
        <==> MinDecoded <= v <= MaxDecoded
  {
    if MinDecoded <= v <= MaxDecoded {
      var p := Encode(v);
      DecodeEncode(v);
      assert Decode(p.high, p.low) == v;
    }
  }

  /** Decoding agrees with the int16 reading of the word for every register
      pair except (0x80, 0x00), where it is 2^16 too large. */
  lemma DecodeVersusInt16(high: Byte, low: Byte)
    ensures Decode(high, low) == Int16(Concat(high, low))
        <==> !(high == 0x80 && low == 0x00)
    ensures high == 0x80 && low == 0x00 ==>
              Decode(high, low) == Int16(Concat(high, low)) + WordModulus
  {
  }

  /** Boundary words: 0x8000 is returned as +32768, not -32768. */
  lemma DecodeBoundaries()
    ensures Decode(0x00, 0x00) == 0
    ensures Decode(0x7F, 0xFF) == 32767
    ensures Decode(0x80, 0x00) == 32768
    ensures Decode(0x80, 0x01) == -32767
    ensures Decode(0xFF, 0xFF) == -1
  {
  }
}
