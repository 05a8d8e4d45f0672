/** Register map of the MPU6050 as far as the sampler uses it, and the byte
    type of the values the I2C bus returns. */
module Registers {

  /** One 8-bit register value as `read_byte_data` returns it. */
  type Byte = b: int | 0 <= b < 256

  /** High-byte addresses of the three accelerometer output registers. Each
      axis occupies two consecutive registers: high byte, then low byte. */
  const ACCEL_X_OUT_H: int := 0x3B
  const ACCEL_Y_OUT_H: int := 0x3D
  const ACCEL_Z_OUT_H: int := 0x3F
}
