/** Uptime decomposition and the alert payload handed to the transport. */
module Uptime {
  import opened Board

  datatype Clock = Clock(days: nat, hourOfDay: nat, minuteOfHour: nat, secondOfMinute: nat)

  /** The fields are in range, as a wall clock shows them. */
  predicate InRange(c: Clock) {
    c.hourOfDay < 24 && c.minuteOfHour < 60 && c.secondOfMinute < 60
  }

  /** The number of whole seconds a clock reading stands for. */
  function TotalSeconds(c: Clock): nat {
    c.days * 86400 + c.hourOfDay * 3600 + c.minuteOfHour * 60 + c.secondOfMinute
  }

  /** The chain of 32-bit divisions and remainders of the send routine; no step can wrap around,
      since every intermediate value is at most the millisecond count. */
  function Decompose(ms: u32): (c: Clock)
    ensures InRange(c)
    ensures TotalSeconds(c) == ms / 1000
    ensures c.days <= 49
  {
    var seconds := ms / 1000;
    var minutes := seconds / 60;
    var hours := minutes / 60;
    var days := hours / 24;
    assert seconds == minutes * 60 + seconds % 60;
    assert minutes == hours * 60 + minutes % 60;
    assert hours == days * 24 + hours % 24;
    assert seconds <= 4294967;
    assert days * 86400 <= seconds by {
      assert minutes * 60 <= seconds;
      assert hours * 60 <= minutes;
      assert days * 24 <= hours;
    }
    Clock(days, hours % 24, minutes % 60, seconds % 60)
  }

  /** Mixed-radix representations are unique: a clock in range is the decomposition of `ms`
      exactly when it stands for `ms / 1000` seconds. */
  lemma DecomposeUnique(ms: u32, c: Clock)
    requires InRange(c)
    ensures Decompose(ms) == c <==> TotalSeconds(c) == ms / 1000
  {
    var d := Decompose(ms);
    if TotalSeconds(c) == ms / 1000 {
      SameSecondsSameClock(c, d);
    }
  }

  lemma SameSecondsSameClock(c: Clock, d: Clock)
    requires InRange(c) && InRange(d) && TotalSeconds(c) == TotalSeconds(d)
    ensures c == d
  {
    var mc := c.days * 1440 + c.hourOfDay * 60 + c.minuteOfHour;
    var md := d.days * 1440 + d.hourOfDay * 60 + d.minuteOfHour;
    assert TotalSeconds(c) == mc * 60 + c.secondOfMinute;
    assert TotalSeconds(d) == md * 60 + d.secondOfMinute;
    assert mc == md;
    var hc := c.days * 24 + c.hourOfDay;
    var hd := d.days * 24 + d.hourOfDay;
    assert mc == hc * 60 + c.minuteOfHour && md == hd * 60 + d.minuteOfHour;
    assert hc == hd;
  }

  // ---- Formatting (the `sprintf` of the payload) ----

  function DigitChar(d: nat): char
    requires d < 10
  {
    ('0' as int + d) as char
  }

  predicate IsDigits(s: string) {
    forall i :: 0 <= i < |s| ==> '0' <= s[i] <= '9'
  }

  /** `%d` of a non-negative value: decimal digits, most significant first, no leading zeros. */
  function Decimal(n: nat): (s: string)
    ensures 1 <= |s| && IsDigits(s)
    ensures n < 10 <==> |s| == 1
    ensures n >= 10 ==> s[0] != '0'
    decreases n
  {
    if n < 10 then [DigitChar(n)] else Decimal(n / 10) + [DigitChar(n % 10)]
  }

  /** `%02d`: at least two digits, padded with a leading zero. */
  function ZeroPad2(n: nat): (s: string)
    ensures IsDigits(s) && 2 <= |s|
  {
    if n < 10 then ['0'] + Decimal(n) else Decimal(n)
  }

  /** The value a string of decimal digits denotes. */
  function DigitsValue(s: string): nat
    requires IsDigits(s)
  {
    if s == [] then 0 else DigitsValue(s[..|s| - 1]) * 10 + (s[|s| - 1] as int - '0' as int)
  }

  /** Reading the digits back gives the number printed. */
  lemma {:induction false} DecimalRoundTrip(n: nat)
    ensures DigitsValue(Decimal(n)) == n
    decreases n
  {
    if n >= 10 {
      var s := Decimal(n);
      assert s[..|s| - 1] == Decimal(n / 10);
      DecimalRoundTrip(n / 10);
    }
  }

  /** A value below 100 prints as exactly two digits that read back as the value. */
  lemma ZeroPad2RoundTrip(n: nat)
    requires n < 100
    ensures |ZeroPad2(n)| == 2
    ensures DigitsValue(ZeroPad2(n)) == n
  {
    DecimalRoundTrip(n);
    if n < 10 {
      var s := ZeroPad2(n);
      assert s[..1] == ['0'];
    }
  }

  const PayloadPrefix: string := "Um Alerta foi detectado no dispositivo x na data "

  /** Size of the `char payload[70]` buffer; the text and its terminating NUL must fit. */
  const PayloadBufferSize: nat := 70

  /** The payload text written by the send routine: the fixed prefix, the day count right after
      it, and a closing newline. */
  function Payload(c: Clock): (s: string)
    ensures |s| > |PayloadPrefix| + |Decimal(c.days)|
    ensures s[..|PayloadPrefix|] == PayloadPrefix
    ensures s[|PayloadPrefix|..|PayloadPrefix| + |Decimal(c.days)|] == Decimal(c.days)
    ensures s[|s| - 1] == '\n'
  {
    PayloadPrefix + Decimal(c.days) + " as "
      + ZeroPad2(c.hourOfDay) + ":" + ZeroPad2(c.minuteOfHour) + ":" + ZeroPad2(c.secondOfMinute) + "\n"
  }

  /** For every 32-bit millisecond count the formatted payload, with its NUL, fits the buffer. */
  lemma PayloadFits(ms: u32)
    ensures |Payload(Decompose(ms))| + 1 <= PayloadBufferSize
  {
    var c := Decompose(ms);
    ZeroPad2RoundTrip(c.hourOfDay);
    ZeroPad2RoundTrip(c.minuteOfHour);
    ZeroPad2RoundTrip(c.secondOfMinute);
    assert |Decimal(c.days)| <= 2 by {
      if c.days >= 10 {
        assert c.days / 10 < 10;
      }
    }
    assert |PayloadPrefix| == 49;
  }

  /** The payload is exactly 62 characters plus the digits of the day count. */
  lemma PayloadLength(c: Clock)
    requires InRange(c)
    ensures |Payload(c)| == 62 + |Decimal(c.days)|
  {
    ZeroPad2RoundTrip(c.hourOfDay);
    ZeroPad2RoundTrip(c.minuteOfHour);
    ZeroPad2RoundTrip(c.secondOfMinute);
  }
}
