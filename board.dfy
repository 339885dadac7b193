/** Pin assignments, timing constants and the C integer widths used by the EcoRepel controller. */
module Board {

  /** `uint16_t`: ADC samples, PWM wrap values. */
  type u16 = x: int | 0 <= x < 0x1_0000

  /** `uint32_t` / `uint`: GPIO numbers, frequencies, milliseconds since boot. */
  type u32 = x: int | 0 <= x < 0x1_0000_0000

  const LedRedPin: u32 := 13
  const LedGreenPin: u32 := 11
  const BuzzerPinA: u32 := 10
  const BuzzerPinB: u32 := 21
  /** The PIR motion sensor; edges on any other line are ignored. */
  const PirSensorPin: u32 := 5

  /** A sound sample triggers only when strictly above this level. */
  const SoundThreshold: nat := 2500
  const AlertBlinkTimeMs: nat := 150
  const IdleBlinkTimeMs: nat := 300
  /** Delay of the one-shot alarm timeout scheduled by each accepted detection. */
  const AlarmDurationMs: nat := 10000

  /** The PWM counter runs at the system clock with divider 1.0. */
  const SystemClockHz: nat := 125000000
}
