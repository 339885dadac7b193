/** The integer arithmetic of `blink_leds_on`: PWM wrap value, duty level and on-time. */
module Pwm {
  import opened Board

  /** `(uint16_t)(125000000 / frequency) - 1`, stored back into a `uint16_t`: the quotient is
      truncated to 16 bits, the subtraction happens in `int`, and the result is reduced modulo
      2^16 again (so a truncated quotient of 0 gives 65535). Division by 0 is undefined in C. */
  function Wrap(frequency: u32): (wrap: u16)
    requires frequency > 0
    ensures (wrap + 1) % 0x1_0000 == (SystemClockHz / frequency) % 0x1_0000
  {
    var q := SystemClockHz / frequency;
    ((q % 0x1_0000) - 1) % 0x1_0000
  }

  /** Where the quotient fits 16 bits and is positive (1908 Hz up to the clock rate), the counter
      period `wrap + 1` is the clock rate divided by the frequency, rounded down. */
  lemma WrapExact(frequency: u32)
    requires 1908 <= frequency <= SystemClockHz
    ensures Wrap(frequency) == SystemClockHz / frequency - 1
    ensures (Wrap(frequency) + 1) * frequency <= SystemClockHz < (Wrap(frequency) + 2) * frequency
  {
    var q := SystemClockHz / frequency;
    DivFloor(SystemClockHz, frequency);
    MulLe(1908, frequency, q);
    assert q <= 65513;
    assert q >= 1;
  }

  lemma DivFloor(n: nat, d: nat)
    requires d > 0
    ensures (n / d) * d <= n < (n / d) * d + d
  {
  }

  lemma MulLe(a: nat, b: nat, c: nat)
    requires a <= b
    ensures a * c <= b * c
  {
    var k := b - a;
    assert b * c == a * c + k * c;
  }

  /** Below 1908 Hz the quotient no longer fits `uint16_t`, so the cast truncates it and the
      wrap is never the clock rate divided by the frequency, minus one. */
  lemma WrapTruncates(frequency: u32)
    requires 1 <= frequency < 1908
    ensures Wrap(frequency) != SystemClockHz / frequency - 1
  {
    var q := SystemClockHz / frequency;
    DivFloor(SystemClockHz, frequency);
    MulLe(frequency, 1907, q);
    assert SystemClockHz < q * 1907 + 1907;
    assert q - 1 > 0xFFFF;
  }

  /** An instance of the truncation: at 1000 Hz the intended wrap 124999 comes out as 59463. */
  lemma WrapTruncates1000Hz()
    ensures SystemClockHz / 1000 - 1 == 124999
    ensures Wrap(1000) == 59463
  {
  }

  /** The LED frequency used by every caller of `blink_leds_on`. */
  lemma LedWrap()
    ensures Wrap(10000) == 12499
  {
    WrapExact(10000);
  }

  /** `(wrap * brightnessInPercentage) / 100` in 32-bit unsigned arithmetic. */
  function Duty(wrap: u16, pct: u32): (level: u32)
    ensures pct <= 100 ==> level * 100 <= wrap * pct < level * 100 + 100
    ensures pct <= 100 ==> level <= wrap
    ensures pct == 100 ==> level == wrap
  {
    var product := wrap * pct;
    assert pct <= 100 ==> product <= wrap * 100 by {
      if pct <= 100 {
        MulLe(pct, 100, wrap);
      }
    }
    (product % 0x1_0000_0000) / 100
  }

  /** The duty level never decreases as the percentage grows, within 0..100. */
  lemma DutyMonotone(wrap: u16, p: u32, q: u32)
    requires p <= q <= 100
    ensures Duty(wrap, p) <= Duty(wrap, q)
  {
    MulLe(p, q, wrap);
  }

  /** How long the LED stays lit: shorter while the alarm is active. */
  function OnTimeMs(alarmActive: bool): (ms: nat)
    ensures ms == AlertBlinkTimeMs <==> alarmActive
    ensures ms == IdleBlinkTimeMs <==> !alarmActive
  {
    if alarmActive then AlertBlinkTimeMs else IdleBlinkTimeMs
  }

  /** The two LED settings the program uses: full red duty and half green duty (rounded down). */
  lemma LedLevels()
    ensures Duty(Wrap(10000), 100) == 12499
    ensures Duty(Wrap(10000), 50) == 6249
  {
    LedWrap();
  }
}
