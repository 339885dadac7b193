/** The blocking light and tone output of the foreground loop, modelled as a trace of actions. */
module Sequencer {
  import opened Board
  import Pwm

  datatype Action =
    | LedOff(pin: u32)                                         // blink_leds_off
    | Blink(pin: u32, wrap: u16, level: u32, durationMs: nat)  // blink_leds_on, ending dark
    | Tone(pin: u32, frequency: nat, durationMs: nat)          // play_tone, ending silent
    | Sleep(durationMs: nat)                                   // sleep_ms
    | DisplayText(x: nat, y: nat, text: string)                // display_text
    | DisplayClear                                             // display_clear

  const LedFrequency: u32 := 10000
  const AlertBanner: string := "Sistema em Alerta!"
  const IdleBanner: string := "Sistema Funcionando!"

  /** One call of `blink_leds_on`: the PWM setting it programs and how long it holds it, which
      depends on the alarm flag as read during the call. */
  function BlinkLedsOn(pin: u32, frequency: u32, pct: u32, alarmActive: bool): (a: Action)
    requires frequency > 0
    ensures a.Blink? && a.pin == pin && a.wrap == Pwm.Wrap(frequency)
    ensures a.level == Pwm.Duty(a.wrap, pct)
    ensures pct <= 100 ==> a.level <= a.wrap
    ensures a.durationMs == if alarmActive then AlertBlinkTimeMs else IdleBlinkTimeMs
  {
    var wrap := Pwm.Wrap(frequency);
    Blink(pin, wrap, Pwm.Duty(wrap, pct), Pwm.OnTimeMs(alarmActive))
  }

  /** `n` copies of `r`, one after another. */
  function Repeat(r: seq<Action>, n: nat): (t: seq<Action>)
    ensures |t| == n * |r|
  {
    if n == 0 then [] else Repeat(r, n - 1) + r
  }

  /** Half a pass of the loop body of `play_alarm`: a red blink at full duty, the tone on both
      buzzers in turn, then a pause. */
  function HalfRound(alarmActive: bool, frequency: nat, pauseMs: nat): seq<Action> {
    [ BlinkLedsOn(LedRedPin, LedFrequency, 100, alarmActive),
      Tone(BuzzerPinA, frequency, 200), Tone(BuzzerPinB, frequency, 200), Sleep(pauseMs) ]
  }

  /** One pass of the loop body of `play_alarm`: 800 Hz then 1600 Hz. */
  function AlarmRound(alarmActive: bool): seq<Action> {
    HalfRound(alarmActive, 800, 100) + HalfRound(alarmActive, 1600, 150)
  }

  /** Everything `play_alarm` does, in order. */
  function AlarmTrace(alarmActive: bool): seq<Action> {
    [LedOff(LedGreenPin)] + Repeat(AlarmRound(alarmActive), 3) + [Sleep(250), DisplayClear]
  }

  /** `play_alarm`: the green LED off, three rounds, a pause and a display clear. */
  method PlayAlarm(alarmActive: bool) returns (trace: seq<Action>)
    ensures trace == AlarmTrace(alarmActive)
  {
    var round := AlarmRound(alarmActive);
    trace := [LedOff(LedGreenPin)];
    for i := 0 to 3
      invariant trace == [LedOff(LedGreenPin)] + Repeat(round, i)
    {
      trace := trace + [BlinkLedsOn(LedRedPin, LedFrequency, 100, alarmActive)];
      trace := trace + [Tone(BuzzerPinA, 800, 200), Tone(BuzzerPinB, 800, 200), Sleep(100)];
      trace := trace + [BlinkLedsOn(LedRedPin, LedFrequency, 100, alarmActive)];
      trace := trace + [Tone(BuzzerPinA, 1600, 200), Tone(BuzzerPinB, 1600, 200), Sleep(150)];
    }
    trace := trace + [Sleep(250), DisplayClear];
  }

  /** One iteration of the `main` loop body: the alert branch when either flag is set, otherwise
      the idle branch (red off, a half-duty green blink), then the common 200 ms pause. */
  function ForegroundStep(alarmActive: bool, messageBeingSent: bool): seq<Action> {
    if alarmActive || messageBeingSent then
      [DisplayText(8, 16, AlertBanner)] + AlarmTrace(alarmActive) + [Sleep(500), Sleep(200)]
    else
      [ DisplayText(8, 0, IdleBanner), LedOff(LedRedPin),
        BlinkLedsOn(LedGreenPin, LedFrequency, 50, alarmActive), Sleep(200) ]
  }

  // ---- Views of a trace ----

  predicate IsTone(a: Action) { a.Tone? }
  predicate IsBlink(a: Action) { a.Blink? }

  /** The actions of `t` that satisfy `p`, in their order. */
  function Select(t: seq<Action>, p: Action -> bool): (u: seq<Action>)
    ensures |u| <= |t|
    ensures forall i :: 0 <= i < |u| ==> p(u[i])
  {
    if t == [] then [] else (if p(t[0]) then [t[0]] else []) + Select(t[1..], p)
  }

  /** How long the foreground is blocked by `t`. */
  function DurationMs(t: seq<Action>): nat {
    if t == [] then 0
    else
      (match t[0]
       case Blink(_, _, _, d) => d
       case Tone(_, _, d) => d
       case Sleep(d) => d
       case _ => 0) + DurationMs(t[1..])
  }

  lemma {:induction false} SelectAppend(a: seq<Action>, b: seq<Action>, p: Action -> bool)
    ensures Select(a + b, p) == Select(a, p) + Select(b, p)
    decreases |a|
  {
    if a == [] {
      assert a + b == b;
    } else {
      assert (a + b)[0] == a[0];
      assert (a + b)[1..] == a[1..] + b;
      SelectAppend(a[1..], b, p);
    }
  }

  lemma {:induction false} SelectRepeat(r: seq<Action>, n: nat, p: Action -> bool)
    ensures Select(Repeat(r, n), p) == Repeat(Select(r, p), n)
  {
    if n > 0 {
      SelectAppend(Repeat(r, n - 1), r, p);
      SelectRepeat(r, n - 1, p);
    }
  }

  lemma {:induction false} DurationAppend(a: seq<Action>, b: seq<Action>)
    ensures DurationMs(a + b) == DurationMs(a) + DurationMs(b)
    decreases |a|
  {
    if a == [] {
      assert a + b == b;
    } else {
      assert (a + b)[0] == a[0];
      assert (a + b)[1..] == a[1..] + b;
      DurationAppend(a[1..], b);
    }
  }

  lemma {:induction false} DurationRepeat(r: seq<Action>, n: nat)
    ensures DurationMs(Repeat(r, n)) == n * DurationMs(r)
  {
    if n > 0 {
      DurationAppend(Repeat(r, n - 1), r);
      DurationRepeat(r, n - 1);
      assert n * DurationMs(r) == (n - 1) * DurationMs(r) + DurationMs(r);
    }
  }

  /** What one half round contributes: its two tones, its one blink, and its blocking time. */
  lemma HalfRoundViews(alarmActive: bool, frequency: nat, pauseMs: nat)
    ensures var h := HalfRound(alarmActive, frequency, pauseMs);
      Select(h, IsTone) == [Tone(BuzzerPinA, frequency, 200), Tone(BuzzerPinB, frequency, 200)]
      && Select(h, IsBlink) == [BlinkLedsOn(LedRedPin, LedFrequency, 100, alarmActive)]
      && DurationMs(h) == Pwm.OnTimeMs(alarmActive) + 400 + pauseMs
  {
    var h := HalfRound(alarmActive, frequency, pauseMs);
    assert h[1..] == h[1..4] && h[1..][1..] == h[2..4] && h[2..4][1..] == h[3..4] && h[3..4][1..] == [];
    assert Select(h[3..4], IsTone) == [] && Select(h[3..4], IsBlink) == [];
    assert Select(h[2..4], IsTone) == [h[2]] && Select(h[2..4], IsBlink) == [];
    assert DurationMs(h[3..4]) == pauseMs;
    assert DurationMs(h[2..4]) == 200 + pauseMs;
  }

  /** What one round contributes. */
  lemma AlarmRoundViews(alarmActive: bool)
    ensures var round, blink := AlarmRound(alarmActive), BlinkLedsOn(LedRedPin, LedFrequency, 100, alarmActive);
      Select(round, IsTone) == ToneRound
      && Select(round, IsBlink) == [blink, blink]
      && DurationMs(round) == 2 * Pwm.OnTimeMs(alarmActive) + 1050
  {
    var low, high := HalfRound(alarmActive, 800, 100), HalfRound(alarmActive, 1600, 150);
    HalfRoundViews(alarmActive, 800, 100);
    HalfRoundViews(alarmActive, 1600, 150);
    SelectAppend(low, high, IsTone);
    SelectAppend(low, high, IsBlink);
    DurationAppend(low, high);
  }

  /** The four tones of one round, in the order they sound. */
  const ToneRound: seq<Action> :=
    [Tone(BuzzerPinA, 800, 200), Tone(BuzzerPinB, 800, 200),
     Tone(BuzzerPinA, 1600, 200), Tone(BuzzerPinB, 1600, 200)]

  /** The alert sequence starts with the green LED off, ends with a 250 ms pause and a display
      clear, and sounds twelve 200 ms tones: A800, B800, A1600, B1600, three times over. */
  lemma AlarmTraceShape(alarmActive: bool)
    ensures var t := AlarmTrace(alarmActive);
      |t| == 27 && t[0] == LedOff(LedGreenPin) && t[25] == Sleep(250) && t[26] == DisplayClear
    ensures Select(AlarmTrace(alarmActive), IsTone) == Repeat(ToneRound, 3)
    ensures |Select(AlarmTrace(alarmActive), IsTone)| == 12
  {
    var round := AlarmRound(alarmActive);
    var head: seq<Action> := [LedOff(LedGreenPin)];
    var tail: seq<Action> := [Sleep(250), DisplayClear];
    SelectAppend(head + Repeat(round, 3), tail, IsTone);
    SelectAppend(head, Repeat(round, 3), IsTone);
    SelectRepeat(round, 3, IsTone);
    AlarmRoundViews(alarmActive);
    assert Select(tail, IsTone) == [];
  }

  /** The red LED blinks six times, at full duty, each for the on-time the alarm flag selects. */
  lemma AlarmTraceBlinks(alarmActive: bool)
    ensures var redBlink := Blink(LedRedPin, 12499, 12499, Pwm.OnTimeMs(alarmActive));
      Select(AlarmTrace(alarmActive), IsBlink) == Repeat([redBlink, redBlink], 3)
  {
    var round := AlarmRound(alarmActive);
    var head: seq<Action> := [LedOff(LedGreenPin)];
    var tail: seq<Action> := [Sleep(250), DisplayClear];
    SelectAppend(head + Repeat(round, 3), tail, IsBlink);
    SelectAppend(head, Repeat(round, 3), IsBlink);
    SelectRepeat(round, 3, IsBlink);
    Pwm.LedLevels();
    var redBlink := Blink(LedRedPin, 12499, 12499, Pwm.OnTimeMs(alarmActive));
    AlarmRoundViews(alarmActive);
    assert Select(tail, IsBlink) == [];
  }

  /** The sequence blocks the foreground for 4300 ms with the alarm active, 5200 ms without. */
  lemma AlarmTraceDuration(alarmActive: bool)
    ensures DurationMs(AlarmTrace(alarmActive)) == if alarmActive then 4300 else 5200
  {
    var round := AlarmRound(alarmActive);
    var head: seq<Action> := [LedOff(LedGreenPin)];
    var tail: seq<Action> := [Sleep(250), DisplayClear];
    DurationAppend(head + Repeat(round, 3), tail);
    DurationAppend(head, Repeat(round, 3));
    DurationRepeat(round, 3);
    AlarmRoundViews(alarmActive);
    assert DurationMs(tail) == 250;
  }

  /** The main loop plays the alert sequence exactly when either flag is set: it shows the alert
      banner first and sounds 12 tones, and otherwise shows the idle banner and sounds none. */
  lemma ForegroundChoosesBranch(alarmActive: bool, messageBeingSent: bool)
    ensures var t := ForegroundStep(alarmActive, messageBeingSent);
      (t[0] == DisplayText(8, 16, AlertBanner) <==> alarmActive || messageBeingSent)
      && |Select(t, IsTone)| == (if alarmActive || messageBeingSent then 12 else 0)
  {
    var t := ForegroundStep(alarmActive, messageBeingSent);
    if alarmActive || messageBeingSent {
      var head: seq<Action> := [DisplayText(8, 16, AlertBanner)];
      var tail: seq<Action> := [Sleep(500), Sleep(200)];
      AlarmTraceShape(alarmActive);
      SelectAppend(head + AlarmTrace(alarmActive), tail, IsTone);
      SelectAppend(head, AlarmTrace(alarmActive), IsTone);
      assert Select(tail, IsTone) == [];
    } else {
      assert AlertBanner != IdleBanner;
      assert t[1..][1..][1..][1..] == [];
      assert Select(t[1..][1..], IsTone) == [];
    }
  }

  /** In the idle branch the green LED is driven at half duty (6249 of 12499) for 300 ms. */
  lemma IdleBlink()
    ensures ForegroundStep(false, false)[2] == Blink(LedGreenPin, 12499, 6249, IdleBlinkTimeMs)
  {
    Pwm.LedLevels();
  }
}
