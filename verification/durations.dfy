/**
 The duration report (`trip_duration_stats`): the total trip time in
 seconds, rendered the way Python renders `datetime.timedelta(seconds=n)`:
 "H:MM:SS", preceded by "D day, " or "D days, " once the total reaches a day.
 */
module Durations {
  import opened Sequences
  import opened Text
  import opened Trips

  const SecondsPerDay: nat := 86400
  const SecondsPerHour: nat := 3600
  const SecondsPerMinute: nat := 60

  /** Sum of the trip-duration column: it counts every trip, and is 0 only when all durations are 0. */
  function TotalDuration(trips: seq<Trip>): (r: nat)
    ensures forall t :: t in trips ==> t.duration <= r
    ensures r == 0 <==> forall t :: t in trips ==> t.duration == 0
  {
    if |trips| == 0 then 0
    else
      assert forall t :: t in trips ==> t == trips[0] || t in trips[1..];
      trips[0].duration + TotalDuration(trips[1..])
  }

  /** The total over a table split in two is the sum of the two totals. */
  lemma {:induction false} TotalDurationAppend(a: seq<Trip>, b: seq<Trip>)
    ensures TotalDuration(a + b) == TotalDuration(a) + TotalDuration(b)
  {
    if |a| == 0 {
      assert a + b == b;
    } else {
      assert (a + b)[0] == a[0];
      assert (a + b)[1..] == a[1..] + b;
      TotalDurationAppend(a[1..], b);
    }
  }

  datatype Clock = Clock(days: nat, hours: nat, minutes: nat, seconds: nat)

  /** The fields a `timedelta` normalises a number of seconds into. */
  function Decompose(n: nat): (c: Clock)
    ensures c.hours < 24 && c.minutes < 60 && c.seconds < 60
    ensures c.days * SecondsPerDay + c.hours * SecondsPerHour + c.minutes * SecondsPerMinute + c.seconds == n
  {
    var rest := n % SecondsPerDay;
    Clock(n / SecondsPerDay, rest / SecondsPerHour, rest % SecondsPerHour / SecondsPerMinute, rest % SecondsPerMinute)
  }

  /**
   `str(datetime.timedelta(seconds=n))` for a non-negative `n`. Python
   refuses totals of 10^9 days or more (`OverflowError`); no bound is
   placed on `n` here.
   */
  function FormatDuration(n: nat): (r: string)
    ensures (',' in r) <==> n >= SecondsPerDay
  {
    var c := Decompose(n);
    var clock := ClockText(c.hours, c.minutes, c.seconds);
    if c.days == 0 then clock
    else
      var prefix := Decimal(c.days) + DayUnit(c.days);
      assert prefix[|Decimal(c.days)| + |DayUnit(c.days)| - 2] == ',';
      prefix + clock
  }

  /** "H:MM:SS": hours unpadded, minutes and seconds on two digits. */
  function ClockText(h: nat, m: nat, sec: nat): (r: string)
    requires m < 60 && sec < 60
    ensures ',' !in r
  {
    var r := Decimal(h) + ":" + Pad2(m) + ":" + Pad2(sec);
    assert forall i :: 0 <= i < |r| ==> IsDigit(r[i]) || r[i] == ':';
    r
  }

  /** The word after the day count, singular for exactly one day. */
  function DayUnit(d: nat): string
  {
    if d == 1 then " day, " else " days, "
  }

  /** Length of the longest run of digits at the start of `s`. */
  function LeadingDigits(s: string): (k: nat)
    ensures k <= |s|
    ensures AllDigits(s[..k])
    ensures k < |s| ==> !IsDigit(s[k])
  {
    if |s| == 0 || !IsDigit(s[0]) then 0
    else
      var k := 1 + LeadingDigits(s[1..]);
      assert s[..k] == [s[0]] + s[1..][..k - 1];
      k
  }

  /*
   The readers below accept exactly the texts `str(timedelta)` produces:
   minutes and seconds on two digits below 60, hours below 24 without a
   leading zero, a day count without a leading zero, "day" only for one day.
   */

  /** Reads ":MM:SS" as a number of seconds. */
  function ParseMinutesSeconds(t: string): Option<nat>
  {
    if |t| == 6 && t[0] == ':' && t[3] == ':' && AllDigits(t[1..3]) && AllDigits(t[4..6])
       && DigitsValue(t[1..3]) < 60 && DigitsValue(t[4..6]) < 60
    then
      Some(DigitsValue(t[1..3]) * SecondsPerMinute + DigitsValue(t[4..6]))
    else None
  }

  /** Reads "H:MM:SS" as a number of seconds. */
  function ParseClock(t: string): Option<nat>
  {
    var k := LeadingDigits(t);
    if !IsDecimal(t[..k]) || DigitsValue(t[..k]) >= 24 then None
    else
      match ParseMinutesSeconds(t[k..])
      case None => None
      case Some(ms) => Some(DigitsValue(t[..k]) * SecondsPerHour + ms)
  }

  /** A leading "1 day, " or "D days, " (D > 1): the day count and what follows it. */
  function ParseDays(s: string): Option<(nat, string)>
  {
    var k := LeadingDigits(s);
    if k == 0 || s[0] == '0' then None
    else
      var d := DigitsValue(s[..k]);
      var rest := s[k..];
      if d == 1 && " day, " <= rest then Some((d, rest[6..]))
      else if d != 1 && " days, " <= rest then Some((d, rest[7..]))
      else None
  }

  /**
   Reads a rendered duration back into seconds: an optional
   "D day, " / "D days, " prefix followed by "H:MM:SS".
   */
  function ParseDuration(s: string): Option<nat>
  {
    match ParseDays(s)
    case None => ParseClock(s)
    case Some((d, clock)) =>
      match ParseClock(clock)
      case None => None
      case Some(secs) => Some(d * SecondsPerDay + secs)
  }

  /** The digits at the front of `digits + rest` are exactly `digits` when `rest` does not start with one. */
  lemma {:induction false} LeadingDigitsOfConcat(digits: string, rest: string)
    requires AllDigits(digits)
    requires |rest| > 0 && !IsDigit(rest[0])
    ensures LeadingDigits(digits + rest) == |digits|
    ensures (digits + rest)[..|digits|] == digits
    ensures (digits + rest)[|digits|..] == rest
  {
    var s := digits + rest;
    if |digits| == 0 {
      assert s == rest;
    } else {
      assert s[0] == digits[0];
      assert s[1..] == digits[1..] + rest;
      LeadingDigitsOfConcat(digits[1..], rest);
    }
  }

  lemma ParseClockRoundTrip(h: nat, m: nat, sec: nat)
    requires h < 24 && m < 60 && sec < 60
    ensures ParseClock(ClockText(h, m, sec)) == Some(h * SecondsPerHour + m * SecondsPerMinute + sec)
  {
    var tail := ":" + Pad2(m) + ":" + Pad2(sec);
    assert ClockText(h, m, sec) == Decimal(h) + tail;
    LeadingDigitsOfConcat(Decimal(h), tail);
    assert tail[1..3] == Pad2(m) && tail[4..6] == Pad2(sec);
  }

  lemma ClockHasNoDays(h: nat, m: nat, sec: nat)
    requires m < 60 && sec < 60
    ensures ParseDays(ClockText(h, m, sec)) == None
  {
    var tail := ":" + Pad2(m) + ":" + Pad2(sec);
    var s := ClockText(h, m, sec);
    assert s == Decimal(h) + tail;
    LeadingDigitsOfConcat(Decimal(h), tail);
    assert s[|Decimal(h)|..][0] == ':';
  }

  lemma ParseDaysOfPrefix(d: nat, clock: string)
    requires d > 0
    ensures ParseDays(Decimal(d) + DayUnit(d) + clock) == Some((d, clock))
  {
    var digits := Decimal(d);
    var rest := DayUnit(d) + clock;
    var s := digits + DayUnit(d) + clock;
    assert s == digits + rest;
    LeadingDigitsOfConcat(digits, rest);
    assert s[0] == digits[0];
    if d == 1 {
      DayPrefix(clock);
    } else {
      DaysPrefix(clock);
    }
  }

  lemma DayPrefix(clock: string)
    ensures " day, " <= " day, " + clock
    ensures (" day, " + clock)[6..] == clock
  {
  }

  lemma DaysPrefix(clock: string)
    ensures !(" day, " <= " days, " + clock)
    ensures " days, " <= " days, " + clock
    ensures (" days, " + clock)[7..] == clock
  {
    assert (" days, " + clock)[4] == 's';
  }

  /** Rendering a total and reading it back gives the total: the rendering loses nothing. */
  lemma FormatParseRoundTrip(n: nat)
    ensures ParseDuration(FormatDuration(n)) == Some(n)
  {
    var c := Decompose(n);
    var clock := ClockText(c.hours, c.minutes, c.seconds);
    ParseClockRoundTrip(c.hours, c.minutes, c.seconds);
    if c.days == 0 {
      assert FormatDuration(n) == clock;
      ClockHasNoDays(c.hours, c.minutes, c.seconds);
    } else {
      assert FormatDuration(n) == Decimal(c.days) + DayUnit(c.days) + clock;
      ParseDaysOfPrefix(c.days, clock);
    }
  }

  /** Fields within their ranges are the only decomposition of the seconds they make up. */
  lemma DecomposeUnique(h: nat, m: nat, sec: nat)
    requires h < 24 && m < 60 && sec < 60
    ensures h * SecondsPerHour + m * SecondsPerMinute + sec < SecondsPerDay
    ensures Decompose(h * SecondsPerHour + m * SecondsPerMinute + sec) == Clock(0, h, m, sec)
  {
    var ms := m * 60 + sec;
    var n := h * 3600 + ms;
    assert ms < 3600;
    assert n < 86400;
    assert n / 86400 == 0 && n % 86400 == n;
    assert n / 3600 == h && n % 3600 == ms;
    assert ms / 60 == m && ms % 60 == sec;
  }

  /** Whole days added to less than a day of seconds land in the day field only. */
  lemma DecomposeShift(d: nat, x: nat)
    requires x < SecondsPerDay
    ensures Decompose(d * SecondsPerDay + x) == Decompose(x).(days := d)
  {
    var n := d * 86400 + x;
    assert n / 86400 == d && n % 86400 == x;
    assert x / 86400 == 0 && x % 86400 == x;
  }

  /** The rendering of `d` days and `x` more seconds is the day prefix before the rendering of `x`. */
  lemma FormatWithDays(d: nat, x: nat)
    requires d > 0 && x < SecondsPerDay
    ensures FormatDuration(d * SecondsPerDay + x) == Decimal(d) + DayUnit(d) + FormatDuration(x)
  {
    DecomposeShift(0, x);
    DecomposeShift(d, x);
  }

  /** A clock text the reader accepts is the rendering of the seconds it reads, which are less than a day. */
  lemma ParseClockCanonical(t: string)
    requires ParseClock(t).Some?
    ensures ParseClock(t).value < SecondsPerDay
    ensures FormatDuration(ParseClock(t).value) == t
  {
    var k := LeadingDigits(t);
    assert t == t[..k] + t[k..];
    var h := DigitsValue(t[..k]);
    var u := t[k..];
    DecimalOfDigits(t[..k]);
    ParseMinutesSecondsCanonical(u);
    var m := DigitsValue(u[1..3]);
    var sec := DigitsValue(u[4..6]);
    assert t == ClockText(h, m, sec);
    DecomposeUnique(h, m, sec);
  }

  /** A ":MM:SS" text the reader accepts is the two padded fields it reads. */
  lemma ParseMinutesSecondsCanonical(u: string)
    requires ParseMinutesSeconds(u).Some?
    ensures DigitsValue(u[1..3]) < 60 && DigitsValue(u[4..6]) < 60
    ensures ParseMinutesSeconds(u).value == DigitsValue(u[1..3]) * SecondsPerMinute + DigitsValue(u[4..6])
    ensures u == ":" + Pad2(DigitsValue(u[1..3])) + ":" + Pad2(DigitsValue(u[4..6]))
  {
    Pad2OfDigits(u[1..3]);
    Pad2OfDigits(u[4..6]);
    assert u == ":" + u[1..3] + ":" + u[4..6];
  }

  /** A day prefix the reader accepts is the rendering of the (positive) day count it reads. */
  lemma ParseDaysCanonical(s: string)
    requires ParseDays(s).Some?
    ensures ParseDays(s).value.0 > 0
    ensures s == Decimal(ParseDays(s).value.0) + DayUnit(ParseDays(s).value.0) + ParseDays(s).value.1
  {
    var k := LeadingDigits(s);
    DigitsValuePositive(s[..k]);
    DecimalOfDigits(s[..k]);
    assert s == s[..k] + s[k..];
  }

  /** Every text the reader accepts is the rendering of the total it reads: nothing else reads back. */
  lemma ParseFormatRoundTrip(s: string, n: nat)
    ensures ParseDuration(s) == Some(n) ==> s == FormatDuration(n)
  {
    if ParseDuration(s) == Some(n) {
      match ParseDays(s)
      case None =>
        ParseClockCanonical(s);
      case Some((d, clock)) =>
        ParseDaysCanonical(s);
        ParseClockCanonical(clock);
        FormatWithDays(d, ParseClock(clock).value);
    }
  }

  /** The rendering of `n` is the one and only text that reads back as `n`. */
  lemma RenderingIsTheOnlyReading(s: string, n: nat)
    ensures ParseDuration(s) == Some(n) <==> s == FormatDuration(n)
  {
    ParseFormatRoundTrip(s, n);
    FormatParseRoundTrip(n);
  }

  /** `trip_duration_stats`' total travel time line. */
  function TotalTravelTime(trips: seq<Trip>): (r: string)
    ensures ParseDuration(r) == Some(TotalDuration(trips))
    ensures forall s :: ParseDuration(s) == Some(TotalDuration(trips)) ==> s == r
  {
    FormatParseRoundTrip(TotalDuration(trips));
    forall s | ParseDuration(s) == Some(TotalDuration(trips))
      ensures s == FormatDuration(TotalDuration(trips))
    {
      ParseFormatRoundTrip(s, TotalDuration(trips));
    }
    FormatDuration(TotalDuration(trips))
  }

  /** Durations of 60, 120 and 180 seconds total six minutes, printed "0:06:00". */
  lemma SixMinuteTotal()
    ensures FormatDuration(60 + 120 + 180) == "0:06:00"
  {
    assert Decompose(360) == Clock(0, 0, 6, 0);
    assert Pad2(6) == "06" && Pad2(0) == "00" && Decimal(0) == "0";
  }

  /** Sixty minutes is not a minutes field: 3600 seconds print as "1:00:00". */
  lemma SixtyMinutesRejected()
    ensures ParseDuration("0:60:00") == None
  {
    var s := "0:60:00";
    LeadingDigitsOfConcat("0", s[1..]);
    assert s == "0" + s[1..];
    assert s[1..][1..3] == "60";
    assert DigitsValue("60") == 60 by {
      assert "60"[..1] == "6";
    }
  }

  /** The hours are never zero-padded: "00:06:00" does not read back. */
  lemma PaddedHourRejected()
    ensures ParseDuration("00:06:00") == None
  {
    var s := "00:06:00";
    LeadingDigitsOfConcat("00", s[2..]);
    assert s == "00" + s[2..];
  }

  /** One day is written "1 day, ", never "1 days, ". */
  lemma OneDaysRejected()
    ensures ParseDuration("1 days, 0:00:00") == None
  {
    var s := "1 days, 0:00:00";
    LeadingDigitsOfConcat("1", s[1..]);
    assert s == "1" + s[1..];
    assert !(" days, " <= "1 days, 0:00:00");
  }

  /** One day, one hour, one minute and one second. */
  lemma OneDayTotal()
    ensures FormatDuration(90061) == "1 day, 1:01:01"
  {
    assert Decompose(90061) == Clock(1, 1, 1, 1);
    assert Pad2(1) == "01" && Decimal(1) == "1";
  }
}
