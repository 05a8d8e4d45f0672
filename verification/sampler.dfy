/** The raw accelerometer sampler: `read_raw_data` reads one axis as two
    register bytes, and `print_data` reads the X, Y and Z axes in that order.
    The I2C bus is an opaque pure function from (device address, register
    address) to the byte that register holds at the time of the tick; each
    operation also returns the register addresses it read, in order. */
module Sampler {
  import opened Registers
  import opened Decoder

  /** `bus.read_byte_data(device_address, register)` */
  type Bus = (int, int) -> Byte

  /** One decoded axis value and the registers read to obtain it. */
  datatype AxisRead = AxisRead(value: int, trace: seq<int>)

  /** The raw (x, y, z) triple of one tick and the registers read for it. */
  datatype RawSample = RawSample(x: int, y: int, z: int, trace: seq<int>)

  /** `read_raw_data`: the high byte comes from `sensor`, then the low byte
      from `sensor + 1`, and the value is the decoded 16-bit word they form. */
  function ReadRaw(bus: Bus, device: int, sensor: int): (r: AxisRead)
    ensures r.trace == [sensor, sensor + 1]
    ensures MinDecoded <= r.value <= MaxDecoded
    ensures r.value % WordModulus
              == bus(device, r.trace[0]) * 256 + bus(device, r.trace[1])
  {
    var high := bus(device, sensor);
    var low := bus(device, sensor + 1);
    AxisRead(Decode(high, low), [sensor, sensor + 1])
  }

  /** The raw reads of `print_data`: X, then Y, then Z, each axis reading
      its high-byte register and the next one, which together are the six
      consecutive addresses 0x3B..0x40 in increasing order; each axis decoded from its
      own two reads with the earlier one as the high byte. */
  function SampleRaw(bus: Bus, device: int): (s: RawSample)
    ensures s.trace == [ACCEL_X_OUT_H, ACCEL_X_OUT_H + 1, ACCEL_Y_OUT_H,
                        ACCEL_Y_OUT_H + 1, ACCEL_Z_OUT_H, ACCEL_Z_OUT_H + 1]
    ensures forall i :: 0 <= i < |s.trace| ==> s.trace[i] == 0x3B + i
    ensures s.x == Decode(bus(device, s.trace[0]), bus(device, s.trace[1]))
    ensures s.y == Decode(bus(device, s.trace[2]), bus(device, s.trace[3]))
    ensures s.z == Decode(bus(device, s.trace[4]), bus(device, s.trace[5]))
  {
    var x := ReadRaw(bus, device, ACCEL_X_OUT_H);
    var y := ReadRaw(bus, device, ACCEL_Y_OUT_H);
    var z := ReadRaw(bus, device, ACCEL_Z_OUT_H);
    RawSample(x.value, y.value, z.value, x.trace + y.trace + z.trace)
  }

  /** Which axis (0 = X, 1 = Y, 2 = Z) a read of one tick belongs to. */
  function AxisOfRead(i: nat): nat
  {
    i / 2
  }

  /** The two reads of an axis are its own: no register is read for two
      axes, and each axis's pair is its high-byte constant and the next
      register. */
  lemma SampleAxesDisjoint(bus: Bus, device: int)
    ensures var rs := SampleRaw(bus, device).trace;
      && (forall i, j :: 0 <= i < |rs| && 0 <= j < |rs| && AxisOfRead(i) != AxisOfRead(j)
            ==> rs[i] != rs[j])
      && rs[0..2] == ReadRaw(bus, device, ACCEL_X_OUT_H).trace
      && rs[2..4] == ReadRaw(bus, device, ACCEL_Y_OUT_H).trace
      && rs[4..6] == ReadRaw(bus, device, ACCEL_Z_OUT_H).trace
  {
  }

  /** A tick observes nothing but the six registers it reads: two buses that
      agree on them give the same raw triple. */
  lemma SampleDependsOnlyOnReads(bus1: Bus, bus2: Bus, device: int)
    requires forall a :: 0x3B <= a <= 0x40 ==> bus1(device, a) == bus2(device, a)
    ensures SampleRaw(bus1, device).x == SampleRaw(bus2, device).x
    ensures SampleRaw(bus1, device).y == SampleRaw(bus2, device).y
    ensures SampleRaw(bus1, device).z == SampleRaw(bus2, device).z
  {
  }

  /** Register pairs (0x00,0x00), (0x40,0x00) and (0xC0,0x00) on the X, Y
      and Z registers give raw values 0, 16384 and -16384; at the ±2 g
      scale of 16384 counts per g (`print_data` divides by 16384.0) that is
      0 g, +1 g and -1 g. */
  lemma SampleExample(bus: Bus, device: int)
    requires bus(device, 0x3B) == 0x00 && bus(device, 0x3C) == 0x00
    requires bus(device, 0x3D) == 0x40 && bus(device, 0x3E) == 0x00
    requires bus(device, 0x3F) == 0xC0 && bus(device, 0x40) == 0x00
    ensures SampleRaw(bus, device).x == 0
    ensures SampleRaw(bus, device).y == 16384
    ensures SampleRaw(bus, device).z == -16384
  {
  }
}
