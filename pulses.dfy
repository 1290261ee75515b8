/** The pulse record the sampler hands to the decoder (src/morse.rs:1-8). */
module Pulses {

  /** Rust's `u8`: the pulse status is a byte, not an enumeration. */
  newtype uint8 = x: int | 0 <= x < 256

  /** Status of a press (button held). */
  const PULSE_HIGH: uint8 := 1

  /** Status of a release (button up). */
  const PULSE_LOW: uint8 := 0

  /**
   * One contiguous interval of the button held (`PULSE_HIGH`) or released
   * (`PULSE_LOW`), with its length in milliseconds. The source stores the
   * length as a `u128`; it is unbounded here.
   */
  datatype PulseInfo = PulseInfo(status: uint8, millis: nat)
}
