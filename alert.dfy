/** The alert state machine: the two guard flags, the one-shot alarm timeouts, and the three event
    handlers that change them. Each handler runs as one indivisible step. */
module Alert {
  import opened Board
  import Uptime
  import Sequencer

  /** The shared state: both flags, the delays of the alarm timeouts scheduled and not yet fired
      (in scheduling order), and every payload handed to the transport. */
  datatype State = State(
    alarmActive: bool,
    messageBeingSent: bool,
    pendingTimeouts: seq<nat>,
    sent: seq<string>)

  /** The inputs the platform delivers: a GPIO edge with its line number, a periodic ADC tick with
      the sample the ADC would return, and the expiry of the earliest pending alarm timeout.
      `nowMs` is the millisecond-since-boot clock read by the send routine. */
  datatype Event =
    | MotionEdge(gpio: u32, nowMs: u32)
    | SoundTick(sample: u16, nowMs: u32)
    | AlarmExpiry

  /** What the periodic ADC callback returns: `true` (keep repeating) on its guarded path; on the
      other path it falls off the end of a `bool` function, and the value is undefined. */
  datatype TimerReturn = KeepRepeating | Undefined

  /** Power-on: both flags false, no timeout scheduled, nothing sent. */
  const Initial: State := State(false, false, [], [])

  /** The guard of both detection handlers. */
  predicate Ready(s: State) {
    !s.alarmActive && !s.messageBeingSent
  }

  /** The threshold test of the ADC callback. */
  predicate SoundExceeds(sample: u16) {
    sample > SoundThreshold
  }

  /** The payload the send routine builds from the clock. */
  function PayloadAt(nowMs: u32): string {
    Uptime.Payload(Uptime.Decompose(nowMs))
  }

  /** An accepted detection: `trigger_alarm` (flag on, one timeout scheduled), then
      `send_message_to_base` (message flag set, payload sent, message flag cleared). */
  function Detected(s: State, nowMs: u32): State {
    s.(alarmActive := true,
       pendingTimeouts := s.pendingTimeouts + [AlarmDurationMs],
       messageBeingSent := false,
       sent := s.sent + [PayloadAt(nowMs)])
  }

  /** `gpio_irq_handler`. */
  function AfterMotionEdge(s: State, gpio: u32, nowMs: u32): State {
    if Ready(s) && gpio == PirSensorPin then Detected(s, nowMs) else s
  }

  /** `adc_check_callback`. */
  function AfterSoundTick(s: State, sample: u16, nowMs: u32): State {
    if Ready(s) && SoundExceeds(sample) then Detected(s, nowMs) else s
  }

  /** `on_alarm_timeout_callback` when the earliest pending timeout fires: the alarm flag is
      cleared; returning 0 means the timeout is not rescheduled, so it is no longer pending. */
  function AfterAlarmTimeout(s: State): State
    requires s.pendingTimeouts != []
  {
    s.(alarmActive := false, pendingTimeouts := s.pendingTimeouts[1..])
  }

  /** One event. The timer service fires only scheduled timeouts, so an expiry with nothing
      pending is no step at all. */
  function Step(s: State, e: Event): State {
    match e
    case MotionEdge(gpio, nowMs) => AfterMotionEdge(s, gpio, nowMs)
    case SoundTick(sample, nowMs) => AfterSoundTick(s, sample, nowMs)
    case AlarmExpiry => if s.pendingTimeouts != [] then AfterAlarmTimeout(s) else s
  }

  /** The state after a sequence of events, in order. */
  function Run(s: State, events: seq<Event>): State
    decreases |events|
  {
    if events == [] then s else Run(Step(s, events[0]), events[1..])
  }

  /** What holds in every reachable state: the message flag is down (it is raised and lowered
      within one handler), and exactly one timeout is pending while the alarm is active and
      none otherwise. */
  predicate Inv(s: State) {
    !s.messageBeingSent
    && s.pendingTimeouts == (if s.alarmActive then [AlarmDurationMs] else [])
  }

  // ---- Properties of single handlers ----

  /** A motion edge is acted on exactly when both flags are down and it is on the PIR line; an
      accepted one raises the alarm, leaves the message flag down, schedules exactly one 10 s
      timeout and sends exactly one payload, built from the clock; any other edge changes
      nothing. */
  lemma MotionEdgeEffect(s: State, gpio: u32, nowMs: u32)
    ensures var t := AfterMotionEdge(s, gpio, nowMs);
      (t != s <==> Ready(s) && gpio == PirSensorPin)
      && (t != s ==>
            t.alarmActive && !t.messageBeingSent
            && t.pendingTimeouts == s.pendingTimeouts + [AlarmDurationMs]
            && t.sent == s.sent + [PayloadAt(nowMs)])
  {
  }

  /** A sound tick is acted on exactly when both flags are down and the sample is strictly above
      the threshold, with the same effect as an accepted motion edge. */
  lemma SoundTickEffect(s: State, sample: u16, nowMs: u32)
    ensures var t := AfterSoundTick(s, sample, nowMs);
      (t != s <==> Ready(s) && sample > SoundThreshold)
      && (t != s ==>
            t.alarmActive && !t.messageBeingSent
            && t.pendingTimeouts == s.pendingTimeouts + [AlarmDurationMs]
            && t.sent == s.sent + [PayloadAt(nowMs)])
  {
  }

  /** The threshold is strict: 2500 does not trigger, 2501 and 2600 do, 2400 does not. */
  lemma SoundThresholdStrict(nowMs: u32)
    ensures AfterSoundTick(Initial, 2500, nowMs) == Initial
    ensures AfterSoundTick(Initial, 2400, nowMs) == Initial
    ensures AfterSoundTick(Initial, 2501, nowMs).alarmActive
    ensures AfterSoundTick(Initial, 2600, nowMs) == Detected(Initial, nowMs)
  {
  }

  /** The timeout clears only the alarm flag and removes only the timeout that fired: the
      message flag and the sent payloads are untouched, and nothing is rescheduled. */
  lemma AlarmTimeoutEffect(s: State)
    requires s.pendingTimeouts != []
    ensures var t := AfterAlarmTimeout(s);
      !t.alarmActive && t.messageBeingSent == s.messageBeingSent && t.sent == s.sent
      && |t.pendingTimeouts| + 1 == |s.pendingTimeouts|
  {
  }

  /** Only a timeout lowers the alarm flag: no detection event ever clears it. */
  lemma OnlyTimeoutClearsAlarm(s: State, e: Event)
    requires s.alarmActive && !e.AlarmExpiry?
    ensures Step(s, e).alarmActive
  {
  }

  /** Every event keeps the invariant. */
  lemma StepKeepsInv(s: State, e: Event)
    requires Inv(s)
    ensures Inv(Step(s, e))
  {
  }

  // ---- Properties of event sequences ----

  /** The invariant holds after any sequence of events. */
  lemma {:induction false} RunKeepsInv(s: State, events: seq<Event>)
    requires Inv(s)
    ensures Inv(Run(s, events))
    decreases |events|
  {
    if events != [] {
      StepKeepsInv(s, events[0]);
      RunKeepsInv(Step(s, events[0]), events[1..]);
    }
  }

  /** From power-on, whatever happens: at most one alarm timeout is ever pending, it is pending
      exactly while the alarm is active, it is a 10 s timeout, and the message flag is down
      between handlers. So `trigger_alarm` never stacks a second timeout. */
  lemma ReachableStates(events: seq<Event>)
    ensures var s := Run(Initial, events);
      |s.pendingTimeouts| <= 1
      && (|s.pendingTimeouts| == 1 <==> s.alarmActive)
      && (forall i :: 0 <= i < |s.pendingTimeouts| ==> s.pendingTimeouts[i] == AlarmDurationMs)
      && !s.messageBeingSent
  {
    RunKeepsInv(Initial, events);
  }

  predicate IsDetection(e: Event) {
    !e.AlarmExpiry?
  }

  /** While either flag is up, any sequence of detection events is dropped: the state, sent
      payloads included, is exactly what it was. */
  lemma {:induction false} BusyDropsDetections(s: State, events: seq<Event>)
    requires !Ready(s)
    requires forall i :: 0 <= i < |events| ==> IsDetection(events[i])
    ensures Run(s, events) == s
    decreases |events|
  {
    if events != [] {
      assert Step(s, events[0]) == s;
      BusyDropsDetections(s, events[1..]);
    }
  }

  /** Two motion edges in a row from idle make one transition and one message; after the
      timeout the flags are as at power-on and only that one message remains. */
  lemma DoubleMotionScenario(t1: u32, t2: u32)
    ensures Run(Initial, [MotionEdge(PirSensorPin, t1), MotionEdge(PirSensorPin, t2)])
            == Detected(Initial, t1)
    ensures Run(Initial, [MotionEdge(PirSensorPin, t1), MotionEdge(PirSensorPin, t2), AlarmExpiry])
            == Initial.(sent := [PayloadAt(t1)])
  {
    var a := Detected(Initial, t1);
    assert Step(Initial, MotionEdge(PirSensorPin, t1)) == a;
    assert Step(a, MotionEdge(PirSensorPin, t2)) == a;
    assert Step(a, AlarmExpiry) == Initial.(sent := [PayloadAt(t1)]);
    var init := Initial.(sent := [PayloadAt(t1)]);
    assert Run(a, [MotionEdge(PirSensorPin, t2)]) == a by {
      assert Run(a, []) == a;
    }
    assert Run(a, [AlarmExpiry]) == init by {
      assert Run(init, []) == init;
    }
    var pair := [MotionEdge(PirSensorPin, t1), MotionEdge(PirSensorPin, t2)];
    assert pair[1..] == [MotionEdge(PirSensorPin, t2)];
    var es := [MotionEdge(PirSensorPin, t1), MotionEdge(PirSensorPin, t2), AlarmExpiry];
    assert es[1..] == [MotionEdge(PirSensorPin, t2), AlarmExpiry];
    assert es[1..][1..] == [AlarmExpiry];
    assert Run(a, es[1..]) == Run(a, [AlarmExpiry]);
  }

  /** The controller: the two `volatile bool` globals, the timer service's pending one-shot
      alarms, and the transport's record of sent payloads. */
  class Controller {
    var isAlarmActive: bool
    var isMessageBeingSent: bool
    var pendingTimeouts: seq<nat>
    var sent: seq<string>

    function Snapshot(): State
      reads this
    {
      State(isAlarmActive, isMessageBeingSent, pendingTimeouts, sent)
    }

    predicate Valid()
      reads this
    {
      Inv(Snapshot())
    }

    constructor ()
      ensures Snapshot() == Initial && Valid()
    {
      isAlarmActive, isMessageBeingSent := false, false;
      pendingTimeouts, sent := [], [];
    }

    /** `trigger_alarm`: raise the alarm flag and schedule one timeout of `AlarmDurationMs`. */
    method TriggerAlarm()
      modifies this
      ensures isAlarmActive
      ensures pendingTimeouts == old(pendingTimeouts) + [AlarmDurationMs]
      ensures isMessageBeingSent == old(isMessageBeingSent) && sent == old(sent)
    {
      isAlarmActive := true;
      pendingTimeouts := pendingTimeouts + [AlarmDurationMs];
    }

    /** `send_message_to_base`: decompose the uptime, raise the message flag, format the payload
        into the 70-byte buffer, hand it to the transport, and lower the flag again. */
    method SendMessageToBase(nowMs: u32) returns (payload: string)
      modifies this
      ensures payload == PayloadAt(nowMs) && |payload| < Uptime.PayloadBufferSize
      ensures !isMessageBeingSent && sent == old(sent) + [payload]
      ensures isAlarmActive == old(isAlarmActive) && pendingTimeouts == old(pendingTimeouts)
    {
      var clock := Uptime.Decompose(nowMs);
      isMessageBeingSent := true;
      payload := Uptime.Payload(clock);
      Uptime.PayloadFits(nowMs);
      sent := sent + [payload];
      isMessageBeingSent := false;
    }

    /** `gpio_irq_handler`. */
    method MotionEdge(gpio: u32, nowMs: u32)
      modifies this
      ensures Snapshot() == AfterMotionEdge(old(Snapshot()), gpio, nowMs)
      ensures old(Valid()) ==> Valid()
    {
      ghost var before := Snapshot();
      if !isMessageBeingSent && !isAlarmActive {
        if gpio == PirSensorPin {
          TriggerAlarm();
          var _ := SendMessageToBase(nowMs);
        }
      }
      if Inv(before) {
        StepKeepsInv(before, Event.MotionEdge(gpio, nowMs));
      }
    }

    /** `adc_check_callback`; `sample` is what `adc_read` returns when the guard lets it read. */
    method SoundTick(sample: u16, nowMs: u32) returns (r: TimerReturn)
      modifies this
      ensures Snapshot() == AfterSoundTick(old(Snapshot()), sample, nowMs)
      ensures r == KeepRepeating <==> Ready(old(Snapshot()))
      ensures old(Valid()) ==> Valid()
    {
      ghost var before := Snapshot();
      if !isMessageBeingSent && !isAlarmActive {
        if sample > SoundThreshold {
          TriggerAlarm();
          var _ := SendMessageToBase(nowMs);
        }
        r := KeepRepeating;
      } else {
        r := Undefined;
      }
      if Inv(before) {
        StepKeepsInv(before, Event.SoundTick(sample, nowMs));
      }
    }

    /** `on_alarm_timeout_callback`, run by the timer service when the earliest pending timeout
        expires. It returns 0: do not reschedule. */
    method AlarmTimeout() returns (rescheduleUs: int)
      requires pendingTimeouts != []
      modifies this
      ensures Snapshot() == AfterAlarmTimeout(old(Snapshot()))
      ensures rescheduleUs == 0
      ensures old(Valid()) ==> Valid()
    {
      ghost var before := Snapshot();
      isAlarmActive := false;
      pendingTimeouts := pendingTimeouts[1..];
      rescheduleUs := 0;
      if Inv(before) {
        StepKeepsInv(before, AlarmExpiry);
      }
    }

    /** One pass of the body of `main`'s loop: reads the flags and returns the output it drives. */
    method ForegroundIteration() returns (trace: seq<Sequencer.Action>)
      ensures trace == Sequencer.ForegroundStep(isAlarmActive, isMessageBeingSent)
    {
      if isAlarmActive || isMessageBeingSent {
        var alarm := Sequencer.PlayAlarm(isAlarmActive);
        trace := [Sequencer.DisplayText(8, 16, Sequencer.AlertBanner)] + alarm + [Sequencer.Sleep(500)];
      } else {
        trace := [Sequencer.DisplayText(8, 0, Sequencer.IdleBanner), Sequencer.LedOff(LedRedPin)];
        trace := trace + [Sequencer.BlinkLedsOn(LedGreenPin, Sequencer.LedFrequency, 50, isAlarmActive)];
      }
      trace := trace + [Sequencer.Sleep(200)];
    }
  }
}
