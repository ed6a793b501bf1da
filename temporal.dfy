/**
 * The textual forms in which the temporal values reach the term query:
 * a date as `YYYY-MM-DD`, a time of day as `HH:MM:SS[.fff]Z` and a timestamp as
 * `YYYY-MM-DDTHH:MM:SS[.fff]Z`, the fraction appearing only when the value has
 * a non-zero sub-second part. Each formatter has a parser as its partner, and
 * the lemmas show that each formatter is a bijection onto what its parser accepts.
 */
module Temporal {
  import opened Wrappers

  type Year = y: int | 1 <= y <= 9999 witness 1
  type Month = m: int | 1 <= m <= 12 witness 1
  type DayOfMonth = d: int | 1 <= d <= 31 witness 1
  type Hour = h: int | 0 <= h < 24
  type Minute = m: int | 0 <= m < 60
  type Second = s: int | 0 <= s < 60
  type Millis = ms: int | 0 <= ms < 1000

  /** A calendar date (Postgres `date`). */
  datatype Date = Date(year: Year, month: Month, day: DayOfMonth)

  /** A clock reading (Postgres `time`), to the millisecond. */
  datatype Time = Time(hour: Hour, minute: Minute, second: Second, millis: Millis)

  /** A date and a clock reading (Postgres `timestamp`). */
  datatype Timestamp = Timestamp(date: Date, time: Time)

  function Pow10(n: nat): (p: nat)
    ensures p >= 1
  {
    if n == 0 then 1 else 10 * Pow10(n - 1)
  }

  predicate IsDigit(c: char) {
    '0' <= c <= '9'
  }

  predicate AllDigits(s: string) {
    forall k :: 0 <= k < |s| ==> IsDigit(s[k])
  }

  function DigitChar(d: int): (c: char)
    requires 0 <= d < 10
    ensures IsDigit(c) && c as int - '0' as int == d
  {
    ('0' as int + d) as char
  }

  /** `n` in base ten with exactly `width` digits, zero-padded on the left. */
  function Digits(n: nat, width: nat): (s: string)
    requires n < Pow10(width)
    ensures |s| == width && AllDigits(s)
  {
    if width == 0 then []
    else
      assert n / 10 < Pow10(width - 1);
      Digits(n / 10, width - 1) + [DigitChar(n % 10)]
  }

  /** The number a string of decimal digits denotes. */
  function DigitsValue(s: string): nat
    requires AllDigits(s)
  {
    if s == [] then 0
    else 10 * DigitsValue(s[..|s| - 1]) + (s[|s| - 1] as int - '0' as int)
  }

  lemma {:induction false} DigitsRoundTrip(n: nat, width: nat)
    requires n < Pow10(width)
    ensures DigitsValue(Digits(n, width)) == n
  {
    if width > 0 {
      var s := Digits(n, width);
      assert s[..|s| - 1] == Digits(n / 10, width - 1);
      DigitsRoundTrip(n / 10, width - 1);
    }
  }

  lemma {:induction false} DigitsCanonical(s: string)
    requires AllDigits(s)
    ensures DigitsValue(s) < Pow10(|s|)
    ensures Digits(DigitsValue(s), |s|) == s
  {
    if s != [] {
      var init := s[..|s| - 1];
      assert AllDigits(init);
      DigitsCanonical(init);
      var n := DigitsValue(s);
      var d := s[|s| - 1] as int - '0' as int;
      assert n == 10 * DigitsValue(init) + d;
      assert n / 10 == DigitsValue(init) && n % 10 == d;
      assert s == init + [s[|s| - 1]];
    }
  }

  /** `YYYY-MM-DD`. */
  function FormatDate(d: Date): (s: string)
    ensures |s| == 10 && s[4] == '-' && s[7] == '-'
    ensures AllDigits(s[..4]) && AllDigits(s[5..7]) && AllDigits(s[8..])
  {
    Digits(d.year, 4) + "-" + Digits(d.month, 2) + "-" + Digits(d.day, 2)
  }

  /** `HH:MM:SS` followed by `.fff` only when there are milliseconds, then `Z`. */
  function FormatTime(t: Time): (s: string)
    ensures |s| == (if t.millis > 0 then 13 else 9)
    ensures s[2] == ':' && s[5] == ':' && s[|s| - 1] == 'Z'
    ensures t.millis > 0 ==> s[8] == '.'
  {
    Digits(t.hour, 2) + ":" + Digits(t.minute, 2) + ":" + Digits(t.second, 2)
    + (if t.millis > 0 then "." + Digits(t.millis, 3) else "")
    + "Z"
  }

  /** The date and the time of day joined by `T`. */
  function FormatTimestamp(ts: Timestamp): (s: string)
    ensures |s| == 11 + |FormatTime(ts.time)| && s[10] == 'T'
    ensures s[..10] == FormatDate(ts.date) && s[11..] == FormatTime(ts.time)
  {
    FormatDate(ts.date) + "T" + FormatTime(ts.time)
  }

  /** Reads back a `YYYY-MM-DD` string. */
  function ParseDate(s: string): Option<Date> {
    if |s| == 10 && s[4] == '-' && s[7] == '-'
       && AllDigits(s[..4]) && AllDigits(s[5..7]) && AllDigits(s[8..])
    then
      var y, m, d := DigitsValue(s[..4]), DigitsValue(s[5..7]), DigitsValue(s[8..]);
      if 1 <= y <= 9999 && 1 <= m <= 12 && 1 <= d <= 31 then Some(Date(y, m, d)) else None
    else None
  }

  /** Reads back the fraction part of a time: none, or `.fff` with a non-zero `fff`. */
  function ParseMillis(s: string): Option<Millis> {
    if s == "" then Some(0)
    else if |s| == 4 && s[0] == '.' && AllDigits(s[1..]) && 0 < DigitsValue(s[1..]) < 1000
    then Some(DigitsValue(s[1..]))
    else None
  }

  /** Reads back an `HH:MM:SS[.fff]Z` string. */
  function ParseTime(s: string): Option<Time> {
    if 9 <= |s| && s[2] == ':' && s[5] == ':' && s[|s| - 1] == 'Z'
       && AllDigits(s[..2]) && AllDigits(s[3..5]) && AllDigits(s[6..8])
    then
      var h, m, sec := DigitsValue(s[..2]), DigitsValue(s[3..5]), DigitsValue(s[6..8]);
      match ParseMillis(s[8..|s| - 1])
      case Some(ms) =>
        if h < 24 && m < 60 && sec < 60 then Some(Time(h, m, sec, ms)) else None
      case None => None
    else None
  }

  /** Reads back a `YYYY-MM-DDTHH:MM:SS[.fff]Z` string. */
  function ParseTimestamp(s: string): Option<Timestamp> {
    if 11 <= |s| && s[10] == 'T' then
      match (ParseDate(s[..10]), ParseTime(s[11..]))
      case (Some(d), Some(t)) => Some(Timestamp(d, t))
      case _ => None
    else None
  }

  lemma DateRoundTrip(d: Date)
    ensures ParseDate(FormatDate(d)) == Some(d)
  {
    var s := FormatDate(d);
    assert s[..4] == Digits(d.year, 4);
    assert s[5..7] == Digits(d.month, 2);
    assert s[8..] == Digits(d.day, 2);
    DigitsRoundTrip(d.year, 4);
    DigitsRoundTrip(d.month, 2);
    DigitsRoundTrip(d.day, 2);
  }

  lemma DateCanonical(s: string, d: Date)
    requires ParseDate(s) == Some(d)
    ensures FormatDate(d) == s
  {
    DigitsCanonical(s[..4]);
    DigitsCanonical(s[5..7]);
    DigitsCanonical(s[8..]);
    assert s == s[..4] + "-" + s[5..7] + "-" + s[8..];
  }

  lemma TimeRoundTrip(t: Time)
    ensures ParseTime(FormatTime(t)) == Some(t)
  {
    var s := FormatTime(t);
    assert s[..2] == Digits(t.hour, 2);
    assert s[3..5] == Digits(t.minute, 2);
    assert s[6..8] == Digits(t.second, 2);
    DigitsRoundTrip(t.hour, 2);
    DigitsRoundTrip(t.minute, 2);
    DigitsRoundTrip(t.second, 2);
    var frac := s[8..|s| - 1];
    if t.millis > 0 {
      assert frac == "." + Digits(t.millis, 3);
      assert frac[1..] == Digits(t.millis, 3);
      DigitsRoundTrip(t.millis, 3);
    } else {
      assert frac == "";
    }
  }

  lemma TimeCanonical(s: string, t: Time)
    requires ParseTime(s) == Some(t)
    ensures FormatTime(t) == s
  {
    DigitsCanonical(s[..2]);
    DigitsCanonical(s[3..5]);
    DigitsCanonical(s[6..8]);
    var frac := s[8..|s| - 1];
    var tail: string;
    if frac == "" {
      tail := "";
    } else {
      DigitsCanonical(frac[1..]);
      assert frac == "." + frac[1..];
      tail := "." + Digits(t.millis, 3);
    }
    assert frac == tail;
    assert s == s[..2] + ":" + s[3..5] + ":" + s[6..8] + frac + "Z";
  }

  lemma TimestampRoundTrip(ts: Timestamp)
    ensures ParseTimestamp(FormatTimestamp(ts)) == Some(ts)
  {
    DateRoundTrip(ts.date);
    TimeRoundTrip(ts.time);
  }

  lemma TimestampCanonical(s: string, ts: Timestamp)
    requires ParseTimestamp(s) == Some(ts)
    ensures FormatTimestamp(ts) == s
  {
    DateCanonical(s[..10], ts.date);
    TimeCanonical(s[11..], ts.time);
    assert s == s[..10] + "T" + s[11..];
  }

  // The strings that term.rs's tests expect, one lemma per string.

  lemma FormatDate20200101()
    ensures FormatDate(Date(2020, 1, 1)) == "2020-01-01"
  {
  }

  lemma FormatDate20121212()
    ensures FormatDate(Date(2012, 12, 12)) == "2012-12-12"
  {
  }

  lemma FormatDate20130410()
    ensures FormatDate(Date(2013, 4, 10)) == "2013-04-10"
  {
  }

  lemma FormatDate20190915()
    ensures FormatDate(Date(2019, 9, 15)) == "2019-09-15"
  {
  }

  lemma FormatTime131535()
    ensures FormatTime(Time(13, 15, 35, 0)) == "13:15:35Z"
  {
  }

  lemma FormatTime125935()
    ensures FormatTime(Time(12, 59, 35, 0)) == "12:59:35Z"
  {
  }

  lemma FormatTime125935567()
    ensures FormatTime(Time(12, 59, 35, 567)) == "12:59:35.567Z"
  {
  }

  lemma FormatTimestamp20121212131535()
    ensures FormatTimestamp(Timestamp(Date(2012, 12, 12), Time(13, 15, 35, 0))) == "2012-12-12T13:15:35Z"
  {
    assert "2012-12-12" + "T" + "13:15:35Z" == "2012-12-12T13:15:35Z";
    FormatDate20121212();
    FormatTime131535();
  }

  lemma FormatTimestamp20130410125935()
    ensures FormatTimestamp(Timestamp(Date(2013, 4, 10), Time(12, 59, 35, 0))) == "2013-04-10T12:59:35Z"
  {
    assert "2013-04-10" + "T" + "12:59:35Z" == "2013-04-10T12:59:35Z";
    FormatDate20130410();
    FormatTime125935();
  }

  lemma FormatTimestamp20190915125935567()
    ensures FormatTimestamp(Timestamp(Date(2019, 9, 15), Time(12, 59, 35, 567))) == "2019-09-15T12:59:35.567Z"
  {
    assert "2019-09-15" + "T" + "12:59:35.567Z" == "2019-09-15T12:59:35.567Z";
    FormatDate20190915();
    FormatTime125935567();
  }
}
