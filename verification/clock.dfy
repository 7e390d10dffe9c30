/**
 * Times of day as the rail feed writes them ("HH:MM"), and the delay in
 * minutes between a scheduled and an estimated time of day, with the
 * midnight correction of `get_live_arrivals`.
 */
module Clock {
  import opened Wrappers

  const MinutesPerDay: nat := 1440
  const HalfDay: nat := 720

  /** Minutes since midnight. */
  type Minute = m: nat | m < 1440

  predicate IsDigit(c: char) {
    '0' <= c <= '9'
  }

  function DigitValue(c: char): (v: nat)
    requires IsDigit(c)
    ensures v < 10
  {
    c as int - '0' as int
  }

  function DigitChar(v: nat): (c: char)
    requires v < 10
    ensures IsDigit(c) && DigitValue(c) == v
  {
    ('0' as int + v) as char
  }

  /**
   * One field of a time of day: one or two ASCII digits whose value is at
   * most `max` (the `%H` / `%M` directives accept a single digit too).
   */
  function ParseField(s: string, max: nat): (r: Option<nat>)
    ensures r.Some? ==> r.value <= max
    ensures r.Some? ==> 1 <= |s| <= 2 && forall k :: 0 <= k < |s| ==> IsDigit(s[k])
  {
    if |s| == 1 && IsDigit(s[0]) then
      var v := DigitValue(s[0]);
      if v <= max then Some(v) else None
    else if |s| == 2 && IsDigit(s[0]) && IsDigit(s[1]) then
      var v := 10 * DigitValue(s[0]) + DigitValue(s[1]);
      if v <= max then Some(v) else None
    else
      None
  }

  /** Position of the first ':' in `t`, or `|t|` when there is none. */
  function ColonIndex(t: string): (i: nat)
    ensures i <= |t|
    ensures i < |t| ==> t[i] == ':'
    ensures forall j :: 0 <= j < i ==> t[j] != ':'
  {
    if |t| == 0 then 0
    else if t[0] == ':' then 0
    else 1 + ColonIndex(t[1..])
  }

  /**
   * `strptime(t, "%H:%M")` as minutes since midnight: an hour of 0..23 and
   * a minute of 0..59, each one or two digits, separated by one ':' and
   * with nothing else in the string. `None` stands for the `ValueError`.
   */
  function ParseClock(t: string): (r: Option<Minute>)
    ensures r.Some? ==> ':' in t
    ensures r.Some? ==> 3 <= |t| <= 5
    ensures r.Some? ==> forall k :: 0 <= k < |t| && t[k] != ':' ==> IsDigit(t[k])
  {
    var i := ColonIndex(t);
    if i == |t| then None
    else
      match (ParseField(t[..i], 23), ParseField(t[i + 1..], 59))
      case (Some(h), Some(m)) => Some(60 * h + m)
      case _ => None
  }

  /** Two-digit zero-padded decimal. */
  function Pad2(n: nat): (s: string)
    requires n < 100
    ensures |s| == 2 && IsDigit(s[0]) && IsDigit(s[1])
    ensures 10 * DigitValue(s[0]) + DigitValue(s[1]) == n
  {
    [DigitChar(n / 10), DigitChar(n % 10)]
  }

  /** The canonical "HH:MM" spelling of a time of day, as the feed writes it. */
  function FormatClock(m: Minute): (t: string)
    ensures |t| == 5 && t[2] == ':'
  {
    Pad2(m / 60) + ":" + Pad2(m % 60)
  }

  /** Every time of day survives formatting and parsing. */
  lemma ParseFormatClock(m: Minute)
    ensures ParseClock(FormatClock(m)) == Some(m)
  {
  }

  /** A five-character time that parses is already in canonical form. */
  lemma FormatParseClock(t: string)
    requires |t| == 5 && ParseClock(t).Some?
    ensures FormatClock(ParseClock(t).value) == t
  {
    var i := ColonIndex(t);
    var h := ParseField(t[..i], 23).value;
    var m := ParseField(t[i + 1..], 59).value;
    assert i == 2;
    assert ParseClock(t).value == 60 * h + m;
    assert (60 * h + m) / 60 == h && (60 * h + m) % 60 == m;
    assert Pad2(h) == t[..2];
    assert Pad2(m) == t[3..];
    assert t == t[..2] + ":" + t[3..];
  }

  /** The ':' of "H:M", "H:MM" or "HH:M" spellings sits right after the hour field. */
  lemma ColonAfter(hour: string, minute: string)
    requires 1 <= |hour| <= 2 && forall k :: 0 <= k < |hour| ==> IsDigit(hour[k])
    ensures ColonIndex(hour + [':'] + minute) == |hour|
  {
    var t := hour + [':'] + minute;
    if |hour| == 1 {
      assert t[1..] == [':'] + minute;
    } else {
      assert t[1..] == hour[1..] + [':'] + minute;
      assert t[1..][1..] == [':'] + minute;
    }
  }

  /**
   * `%H` and `%M` accept one digit as well as two: a time of day parses in
   * each of its four spellings, unpadded or zero-padded hour and minute.
   */
  lemma ParseShortClock(h: nat, m: nat)
    requires h < 24 && m < 60
    ensures h < 10 && m < 10 ==> ParseClock([DigitChar(h), ':', DigitChar(m)]) == Some(60 * h + m)
    ensures h < 10 ==> ParseClock([DigitChar(h), ':'] + Pad2(m)) == Some(60 * h + m)
    ensures m < 10 ==> ParseClock(Pad2(h) + [':', DigitChar(m)]) == Some(60 * h + m)
  {
    if h < 10 && m < 10 {
      var t := [DigitChar(h), ':', DigitChar(m)];
      ColonAfter([DigitChar(h)], [DigitChar(m)]);
      assert t == [DigitChar(h)] + [':'] + [DigitChar(m)];
      assert t[..1] == [DigitChar(h)] && t[2..] == [DigitChar(m)];
    }
    if h < 10 {
      var t := [DigitChar(h), ':'] + Pad2(m);
      ColonAfter([DigitChar(h)], Pad2(m));
      assert t == [DigitChar(h)] + [':'] + Pad2(m);
      assert t[..1] == [DigitChar(h)] && t[2..] == Pad2(m);
    }
    if m < 10 {
      var t := Pad2(h) + [':', DigitChar(m)];
      ColonAfter(Pad2(h), [DigitChar(m)]);
      assert t == Pad2(h) + [':'] + [DigitChar(m)];
      assert t[..2] == Pad2(h) && t[3..] == [DigitChar(m)];
    }
  }

  /**
   * What `strptime` refuses: an hour past 23, a minute past 59, a seconds
   * field, surrounding space, empty fields and a three-digit hour.
   */
  lemma ParseClockRejects()
    ensures ParseClock("24:00") == None
    ensures ParseClock("09:60") == None
    ensures ParseClock("12:30:00") == None
    ensures ParseClock(" 9:05") == None
    ensures ParseClock(":") == None
    ensures ParseClock("123:4") == None
    ensures ParseClock("0930") == None
  {
    ColonAfter("24", "00");
    ColonAfter("09", "60");
    ColonAfter("12", "30:00");
    assert "24:00" == "24" + [':'] + "00";
    assert "09:60" == "09" + [':'] + "60";
    assert "12:30:00" == "12" + [':'] + "30:00";
    assert "24:00"[..2] == "24";
    assert "09:60"[3..] == "60";
    assert "12:30:00"[3..] == "30:00";
  }

  /**
   * Delay of a service whose scheduled and estimated times of day are
   * known: the estimated minus the scheduled time, plus a day when the
   * difference is below minus twelve hours (the estimate has rolled past
   * midnight), and never negative.
   *
   * The contract pins the value down independently: zero exactly when the
   * estimate is at most twelve hours EARLY on the same day, and otherwise
   * the unique positive number of minutes that, added to the scheduled
   * time, lands on the estimated time of day.
   */
  function ClockDelay(scheduled: Minute, estimated: Minute): (d: nat)
    ensures d < MinutesPerDay
    ensures d > 0 ==> (scheduled + d) % MinutesPerDay == estimated
    ensures d == 0 <==> estimated <= scheduled <= estimated + HalfDay
  {
    var diff := estimated - scheduled;
    var corrected := if diff < -(HalfDay as int) then diff + MinutesPerDay else diff;
    if corrected > 0 then corrected else 0
  }

  /** The positive delay is unique: no other forward gap reaches the estimate. */
  lemma ClockDelayUnique(scheduled: Minute, estimated: Minute, d: nat)
    requires 0 < d < MinutesPerDay && (scheduled + d) % MinutesPerDay == estimated
    requires ClockDelay(scheduled, estimated) > 0
    ensures ClockDelay(scheduled, estimated) == d
  {
  }
}
