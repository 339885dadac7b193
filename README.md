# EcoRepel alert controller, modelled in Dafny

EcoRepel is a Raspberry Pi Pico intrusion deterrent. A PIR motion sensor raises a GPIO interrupt.
A microphone is sampled by the ADC every 200 ms. An accepted detection raises the alarm,
schedules a 10-second one-shot timeout that lowers it again, and sends a timestamped alert
message to a base station. The foreground loop plays a red-LED and two-buzzer alert sequence
while either guard flag is up, and shows a slow green "nominal" blink otherwise.

The model has five modules:

- `Board` (board.dfy): pin numbers, thresholds, durations, and the `uint16_t`/`uint32_t` ranges.
- `Uptime` (uptime.dfy): splitting the millisecond-since-boot clock into days, hours, minutes
  and seconds, and the `sprintf` payload with its 70-byte buffer bound.
- `Pwm` (pwm.dfy): the wrap and duty arithmetic of `blink_leds_on`, with its 16-bit truncation
  and 32-bit unsigned product written out, and the flag-dependent on-time.
- `Sequencer` (sequencer.dfy): the blocking output as a trace of actions (blink, tone, sleep,
  LED off, display text, display clear). `PlayAlarm` builds the `play_alarm` trace in a loop.
  `ForegroundStep` is one pass of the `main` loop body.
- `Alert` (alert.dfy): the guard flags and pending timeouts as a value `State`, the handlers
  as functions on it, `Run` over any event sequence, and the invariant lemmas. There is also a
  class `Controller` whose fields are the two globals, and whose methods are the C handlers,
  each proved equal to its function.

Each interrupt or timer handler is one indivisible step. The ADC sample and the clock reading
are inputs of the events. The timer service shows up as the list of pending timeout delays.
The transport shows up as the list of payloads sent.

Three behaviours of the code shape the model:

- `send_message_to_base` raises the message flag and lowers it again before it returns. There
  is no delayed completion. So the message flag is never up between handlers (`Alert.Inv`),
  and a detection leaves the alarm on and the message flag off.
- The alert sequence blocks the foreground for 4.3 s with the alarm active and 5.2 s without
  (`Sequencer.AlarmTraceDuration`).
- The code never cancels a pending timeout before arming a new one. The model proves this is
  never needed: from power-on, at most one timeout is ever pending (`Alert.ReachableStates`).

## Model

| member | source | states |
|---|---|---|
| `Uptime.Decompose` | EcoRepel.c:133-140 | hour < 24, minute < 60, second < 60; days·86400 + hour·3600 + minute·60 + second = ms / 1000; days ≤ 49 for every 32-bit ms |
| `Uptime.DecomposeUnique` | EcoRepel.c:133-140 | a clock in range is the decomposition of ms exactly when it stands for ms / 1000 seconds (both directions) |
| `Uptime.Decimal` | EcoRepel.c:147-148 | `%d` gives at least one digit, all decimal, a single digit exactly for values below 10, and no leading zero |
| `Uptime.ZeroPad2` | EcoRepel.c:147-148 | `%02d` gives at least two decimal digits |
| `Uptime.DecimalRoundTrip` | EcoRepel.c:147-148 | reading back the printed digits gives the printed number |
| `Uptime.ZeroPad2RoundTrip` | EcoRepel.c:147-148 | a field below 100 prints as exactly two digits that read back as the field |
| `Uptime.Payload` | EcoRepel.c:147-148 | the `sprintf` text: it starts with the fixed prefix, the `%d` day count follows it directly, and it ends with a newline |
| `Uptime.PayloadLength` | EcoRepel.c:146-148 | the payload is 62 characters plus the digits of the day count |
| `Uptime.PayloadFits` | EcoRepel.c:133-148 | for every 32-bit ms, the payload plus its NUL fits the 70-byte buffer |
| `Pwm.WrapExact` | EcoRepel.c:87 | for 1908 Hz up to 125 MHz the wrap is 125000000 / f − 1, and the period wrap + 1 is the floor of clock / f |
| `Pwm.Wrap` | EcoRepel.c:87 | the 16-bit truncation of the quotient, then the subtraction reduced modulo 2^16: wrap + 1 equals the quotient modulo 2^16 |
| `Pwm.WrapTruncates` | EcoRepel.c:87 | for every frequency from 1 to 1907 Hz the uint16_t cast truncates, so the wrap is never the quotient minus one |
| `Pwm.WrapTruncates1000Hz` | EcoRepel.c:87 | an instance: 1000 Hz gives 59463 instead of 124999 |
| `Pwm.LedWrap` | EcoRepel.c:87 | the LED frequency 10000 Hz gives wrap 12499 |
| `Pwm.Duty` | EcoRepel.c:89 | for pct ≤ 100 the level is the floor of wrap·pct/100, at most wrap, and equal to wrap at 100 % |
| `Pwm.DutyMonotone` | EcoRepel.c:89 | within 0..100 a larger percentage never gives a smaller level |
| `Pwm.LedLevels` | EcoRepel.c:87-89 | full red duty is 12499 and half green duty rounds down to 6249 |
| `Pwm.OnTimeMs` | EcoRepel.c:94 | the on-time is 150 ms exactly when the alarm is active and 300 ms exactly when it is not |
| `Sequencer.BlinkLedsOn` | EcoRepel.c:84-96 | one blink on the given pin with the computed wrap and the level `Duty(wrap, pct)` (so at most the wrap for pct ≤ 100), held 150 or 300 ms by the alarm flag |
| `Sequencer.PlayAlarm` | EcoRepel.c:111-128 | the loop builds exactly the alert trace: green off, three rounds, 250 ms pause, display clear |
| `Sequencer.HalfRoundViews` | EcoRepel.c:116-124 | half a round holds one red blink, the tone on buzzer A then buzzer B, and blocks on-time + 400 ms + pause |
| `Sequencer.AlarmRoundViews` | EcoRepel.c:116-124 | one round sounds A800, B800, A1600, B1600, blinks red twice, and blocks 2·on-time + 1050 ms |
| `Sequencer.AlarmTraceShape` | EcoRepel.c:111-128 | 27 actions; the first turns the green LED off; the last two are a 250 ms pause and a display clear; the tones are A800, B800, A1600, B1600 three times, 12 in all |
| `Sequencer.AlarmTraceBlinks` | EcoRepel.c:111-128 | exactly six blinks, all red, at wrap 12499 and full duty, each with the flag's on-time |
| `Sequencer.AlarmTraceDuration` | EcoRepel.c:111-128 | the sequence blocks 4300 ms with the alarm active, 5200 ms without |
| `Sequencer.ForegroundChoosesBranch` | EcoRepel.c:253-264 | the loop shows the alert banner and sounds 12 tones exactly when either flag is set, and sounds none otherwise |
| `Sequencer.IdleBlink` | EcoRepel.c:259-264 | the idle branch drives the green LED at 6249 of 12499 for 300 ms |
| `Alert.MotionEdgeEffect` | EcoRepel.c:171-183 | an edge changes the state exactly when both flags are down and it is on pin 5; then the alarm is on, the message flag off, one 10 s timeout is added and one payload of the current uptime is sent |
| `Alert.SoundTickEffect` | EcoRepel.c:185-200 | a sample changes the state exactly when both flags are down and it is strictly above 2500, with the same effect |
| `Alert.SoundThresholdStrict` | EcoRepel.c:191 | from idle, 2500 and 2400 leave the state unchanged, 2501 raises the alarm, 2600 makes a full detection |
| `Alert.AlarmTimeoutEffect` | EcoRepel.c:159-163 | the timeout lowers the alarm flag, leaves the message flag and the sent payloads alone, and removes only the timeout that fired |
| `Alert.OnlyTimeoutClearsAlarm` | EcoRepel.c:159-200 | no motion edge or sound tick ever lowers an active alarm |
| `Alert.StepKeepsInv` | EcoRepel.c:159-200 | every handler keeps the invariant: message flag down, and one 10 s timeout pending exactly while the alarm is on |
| `Alert.RunKeepsInv` | EcoRepel.c:159-200 | the invariant holds after any sequence of events |
| `Alert.ReachableStates` | EcoRepel.c:165-187 | from power-on, at most one timeout is ever pending, it is pending exactly while the alarm is on, it lasts 10 s, and the message flag is down |
| `Alert.BusyDropsDetections` | EcoRepel.c:171-200 | while either flag is up, any sequence of motion edges and sound ticks leaves the whole state unchanged |
| `Alert.DoubleMotionScenario` | EcoRepel.c:159-183 | two PIR edges in a row make one detection and one message; the timeout then restores the power-on flags |
| `Alert.Controller.constructor` | EcoRepel.c:31-32 | both flags start false, nothing pending, nothing sent; the invariant holds |
| `Alert.Controller.TriggerAlarm` | EcoRepel.c:165-169 | the alarm flag goes up and one 10000 ms timeout is appended; nothing else changes |
| `Alert.Controller.SendMessageToBase` | EcoRepel.c:130-157 | the payload of the current uptime, shorter than the 70-byte buffer, is sent; the message flag ends down; the alarm and the timeouts are untouched |
| `Alert.Controller.MotionEdge` | EcoRepel.c:171-183 | the new state is `AfterMotionEdge` of the old one, and the invariant is kept |
| `Alert.Controller.SoundTick` | EcoRepel.c:185-200 | the new state is `AfterSoundTick` of the old one; it returns "keep repeating" exactly when the guard let it sample, and otherwise an explicit undefined value |
| `Alert.Controller.AlarmTimeout` | EcoRepel.c:159-163 | the new state is `AfterAlarmTimeout` of the old one, it returns 0 (no reschedule), and the invariant is kept |
| `Alert.Controller.ForegroundIteration` | EcoRepel.c:250-266 | one pass of the loop body drives exactly `ForegroundStep` of the current flags |

## Left out

- Pico SDK hardware calls are not modelled: GPIO setup, PWM slice and channel registers, `pwm_set_clkdiv`, ADC setup, I2C and the SSD1306 driver (EcoRepel.c:34-82, 90-93, 100-109). The ADC sample is an input of `SoundTick`.
- `play_tone` computes its wrap from a `float` frequency. For 800 and 1600 Hz the quotient overflows `uint16_t`, which is undefined behaviour in C. A `Tone` action keeps only the pin, the integer frequency and the duration.
- `wifi_init` and `start_mqtt_client` only print and sleep, so they are left out.
- `printf` output. The `is_connected` test is always true, so the payload is always recorded as sent.
- `display_clear` inside the two detection handlers drives the display driver and is left out. The clear at the end of `play_alarm` is in the trace.
- Real preemption and `volatile` semantics. Every handler and every foreground pass is one atomic step. So a timeout that fires in the middle of `play_alarm` (changing later on-times from 150 to 300 ms) is not modelled.
- `Alert.Controller.SoundTick`: its busy path falls off the end of a `bool` function (EcoRepel.c:199-200). The model returns an explicit `Undefined`. It does not model what the repeating timer does with that value.
- The `events` argument of `gpio_irq_handler` is never read, so it is not a parameter.
- `main`'s `while (true)` runs forever and cannot be written without `decreases *`. `Alert.Controller.ForegroundIteration` models one pass. The setup calls before the loop are left out. So is the 200 ms period of the ADC timer (its comment says 100 ms).
- `sleep_ms` timing is not modelled. Durations appear only as numbers in the action trace.
- `pwm_set_gpio_level` takes a 16-bit level, so a level would be truncated. `Pwm.Duty` does not model this, because every call uses pct ≤ 100 and then the level is at most the wrap.
