/** Calendar days, times of day and instants, without JavaScript's `Date`.
    A calendar date is a day number (0 is 1970-01-01, a Thursday); an instant is a number of
    milliseconds since midnight of day 0, in the server's wall-clock time. */
module Clock {
  import opened Wrappers
  import opened Text
  import Seqs

  const MinuteMs: int := 60 * 1000
  const HourMs: int := 60 * MinuteMs
  const DayMs: int := 24 * HourMs

  /** `Date.prototype.getDay()`: 0 = Sunday .. 6 = Saturday. */
  function WeekdayIndex(day: int): (r: nat)
    ensures r < 7
  {
    ((day + 4) % 7) as nat
  }

  /** Day 0 (1970-01-01) is a Thursday, each next day is the next weekday, and the week
      repeats every seven days. */
  lemma WeekdayCycle(day: int)
    ensures WeekdayIndex(0) == 4
    ensures WeekdayIndex(day + 1) == (WeekdayIndex(day) + 1) % 7
    ensures WeekdayIndex(day + 7) == WeekdayIndex(day)
  {
  }

  /** A zero-padded 24-hour time "HH:MM", as the booking form and the availability template
      write it. */
  predicate IsClock(t: string) {
    && |t| == 5
    && IsDigit(t[0]) && IsDigit(t[1]) && t[2] == ':' && IsDigit(t[3]) && IsDigit(t[4])
    && DigitValue(t[0]) * 10 + DigitValue(t[1]) < 24
    && DigitValue(t[3]) * 10 + DigitValue(t[4]) < 60
  }

  function ClockHour(t: string): nat
    requires IsClock(t)
  {
    DigitValue(t[0]) * 10 + DigitValue(t[1])
  }

  function ClockMinute(t: string): nat
    requires IsClock(t)
  {
    DigitValue(t[3]) * 10 + DigitValue(t[4])
  }

  /** Minutes since midnight. */
  function ClockMinutes(t: string): (m: nat)
    requires IsClock(t)
    ensures m < 24 * 60
  {
    ClockHour(t) * 60 + ClockMinute(t)
  }

  /** The "HH:MM" text of a minute of the day. */
  function Render(m: nat): (t: string)
    requires m < 24 * 60
    ensures IsClock(t) && ClockMinutes(t) == m
  {
    var h, mm := m / 60, m % 60;
    [DigitChar(h / 10), DigitChar(h % 10), ':', DigitChar(mm / 10), DigitChar(mm % 10)]
  }

  /** Every well-formed time is the rendering of its minute count, so `Render` and
      `ClockMinutes` are inverse bijections. */
  lemma RenderClockMinutes(t: string)
    requires IsClock(t)
    ensures Render(ClockMinutes(t)) == t
  {
    var m := ClockMinutes(t);
    assert m / 60 == ClockHour(t) && m % 60 == ClockMinute(t);
    var r := Render(m);
    assert r[0] == t[0] && r[1] == t[1] && r[3] == t[3] && r[4] == t[4];
  }

  lemma DigitOrder(c: char, d: char)
    requires IsDigit(c) && IsDigit(d)
    ensures c < d <==> DigitValue(c) < DigitValue(d)
    ensures c == d <==> DigitValue(c) == DigitValue(d)
  {
  }

  /** `StrLess` on two "HH:MM" strings is the lexicographic order of their four digits. */
  lemma {:induction false} StrLessOnClocks(a: string, b: string)
    requires IsClock(a) && IsClock(b)
    ensures StrLess(a, b) <==>
      (a[0] < b[0] || (a[0] == b[0] && (a[1] < b[1] || (a[1] == b[1] &&
        (a[3] < b[3] || (a[3] == b[3] && a[4] < b[4]))))))
  {
    var a1, b1 := a[1..], b[1..];
    var a2, b2 := a1[1..], b1[1..];
    var a3, b3 := a2[1..], b2[1..];
    var a4, b4 := a3[1..], b3[1..];
    var a5, b5 := a4[1..], b4[1..];
    assert |a5| == 0 && |b5| == 0;
    assert StrLess(a4, b4) == (a4[0] < b4[0]);
    assert StrLess(a3, b3) == (a3[0] < b3[0] || (a3[0] == b3[0] && StrLess(a4, b4)));
    assert StrLess(a2, b2) == StrLess(a3, b3);
  }

  /** For zero-padded times, string order is chronological order: this is what makes the
      source's `appointmentTime < avail.startTime` a comparison of times. */
  lemma ClockOrder(a: string, b: string)
    requires IsClock(a) && IsClock(b)
    ensures StrLess(a, b) <==> ClockMinutes(a) < ClockMinutes(b)
  {
    StrLessOnClocks(a, b);
    DigitOrder(a[0], b[0]);
    DigitOrder(a[1], b[1]);
    DigitOrder(a[3], b[3]);
    DigitOrder(a[4], b[4]);
  }

  /** The first two pieces of `t.split(":")`; the second is absent when `t` has no colon. */
  function TimeParts(t: string): (r: (string, Option<string>))
    ensures r.1.None? <==> ':' !in t
    ensures ':' !in r.0
    ensures r.1.Some? ==> ':' !in r.1.value
    ensures r.1.None? ==> r.0 == t
    ensures r.1.Some? ==>
      && |r.0| < |t| && r.0 == t[..|r.0|] && t[|r.0|] == ':'
      && var rest := t[|r.0| + 1..];
         r.1.value <= rest && (|r.1.value| == |rest| || rest[|r.1.value|] == ':')
  {
    match Seqs.FirstIndex(t, c => c == ':')
    case None => (t, None)
    case Some(i) =>
      var rest := t[i + 1..];
      match Seqs.FirstIndex(rest, c => c == ':')
      case None => (t[..i], Some(rest))
      case Some(j) => (t[..i], Some(rest[..j]))
  }

  /** `Number(s)` on one piece of the time: a digit string reads as its value, the empty
      one as 0; anything else reads as NaN, written None. */
  function NumberOf(s: string): (r: Option<nat>)
    ensures r.Some? <==> AllDigits(s)
    ensures s == "" ==> r == Some(0)
    ensures r.Some? && |s| > 0 ==> r.value % 10 == DigitValue(s[|s| - 1])
  {
    if AllDigits(s) then Some(ParseDigits(s)) else None
  }

  /** The milliseconds `setHours(hours, minutes, 0, 0)` adds to midnight, or None when
      either field is NaN and the resulting `Date` is invalid. */
  function TimeOfDayMs(t: string): (r: Option<int>)
    ensures r.Some? ==> ':' in t && r.value >= 0 && r.value % MinuteMs == 0
    ensures r.Some? <==>
      TimeParts(t).1.Some? && AllDigits(TimeParts(t).0) && AllDigits(TimeParts(t).1.value)
  {
    var parts := TimeParts(t);
    if parts.1.None? then None
    else
      assert ':' in t;
      match (NumberOf(parts.0), NumberOf(parts.1.value))
      case (Some(h), Some(m)) =>
        assert h * HourMs + m * MinuteMs == (h * 60 + m) * MinuteMs;
        Some(h * HourMs + m * MinuteMs)
      case _ => None
  }

  /** On a well-formed time, `TimeOfDayMs` is the minute count in milliseconds. */
  lemma TimeOfDayMsOfClock(t: string)
    requires IsClock(t)
    ensures TimeOfDayMs(t) == Some(ClockMinutes(t) * MinuteMs)
  {
    TimePartsOfClock(t);
    ParseTwoDigits(t[..2]);
    ParseTwoDigits(t[3..]);
  }

  /** A well-formed time splits into its two-digit hour and minute. */
  lemma TimePartsOfClock(t: string)
    requires IsClock(t)
    ensures TimeParts(t) == (t[..2], Some(t[3..]))
    ensures ParseDigits(t[..2]) == ClockHour(t) && ParseDigits(t[3..]) == ClockMinute(t)
  {
    assert Seqs.FirstIndex(t, c => c == ':') == Some(2);
    var rest := t[3..];
    assert ':' !in rest;
    assert Seqs.FirstIndex(rest, c => c == ':') == None;
    ParseTwoDigits(t[..2]);
    ParseTwoDigits(rest);
  }

  lemma ParseTwoDigits(s: string)
    requires |s| == 2 && AllDigits(s)
    ensures ParseDigits(s) == DigitValue(s[0]) * 10 + DigitValue(s[1])
  {
    assert s[..1][..0] == [];
    assert ParseDigits(s[..1]) == DigitValue(s[0]);
  }

  /** The instant of a date at a time of day, or None for an invalid `Date`. */
  function InstantMs(day: int, t: string): (r: Option<int>)
    ensures r.Some? <==> TimeOfDayMs(t).Some?
    ensures r.Some? ==> day * DayMs <= r.value
  {
    match TimeOfDayMs(t)
    case None => None
    case Some(ms) => Some(day * DayMs + ms)
  }

  lemma InstantMsOfClock(day: int, t: string)
    requires IsClock(t)
    ensures InstantMs(day, t) == Some(day * DayMs + ClockMinutes(t) * MinuteMs)
  {
    TimeOfDayMsOfClock(t);
  }
}
