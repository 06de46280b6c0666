/**
 * Times of day and calendar dates as the booking pages see them: a time of
 * day is an `HH:MM` string (minutes since midnight underneath) and a date is
 * the `YYYY-MM-DD` string of a date input field. The wall clock itself is
 * not modelled; "today" and "now" are values handed in by the caller.
 */
module Clock {
  import opened Wrappers
  import opened Text

  const MINUTES_PER_DAY := 1440

  /** A time of day, in whole minutes since midnight. */
  type Minute = m: nat | m < MINUTES_PER_DAY

  /** `HH:MM` with two-digit, zero-padded fields. */
  function FormatHHMM(m: Minute): (s: string)
    ensures |s| == 5 && s[2] == ':'
    ensures IsDigit(s[0]) && IsDigit(s[1]) && IsDigit(s[3]) && IsDigit(s[4])
    ensures TwoDigitValue(s[0], s[1]) == m / 60 && TwoDigitValue(s[3], s[4]) == m % 60
  {
    TwoDigits(m / 60) + ":" + TwoDigits(m % 60)
  }

  /**
   * The minutes of day an `HH:MM` string stands for, read the way the
   * availability filter does (`s.split(':').map(Number)` then
   * `setHours(hh, mm)`): hours times sixty plus minutes. Anything that is
   * not two digits, a colon and two digits has no value.
   */
  function ParseHHMM(s: string): (r: Option<nat>)
    ensures r.Some? <==> |s| == 5 && s[2] == ':' && IsDigit(s[0]) && IsDigit(s[1]) && IsDigit(s[3]) && IsDigit(s[4])
  {
    if |s| == 5 && IsDigit(s[0]) && IsDigit(s[1]) && s[2] == ':' && IsDigit(s[3]) && IsDigit(s[4])
    then Some(TwoDigitValue(s[0], s[1]) * 60 + TwoDigitValue(s[3], s[4]))
    else None
  }

  /** Reading back a formatted time of day gives the same minute. */
  lemma ParseFormatHHMM(m: Minute)
    ensures ParseHHMM(FormatHHMM(m)) == Some(m)
  {
  }

  /** Every formatted time of day reads back as its own minute. */
  lemma ParseFormatHHMMAll()
    ensures forall m: Minute :: ParseHHMM(FormatHHMM(m)) == Some(m)
  {
    forall m: Minute ensures ParseHHMM(FormatHHMM(m)) == Some(m) {
      ParseFormatHHMM(m);
    }
  }

  /** Different minutes print differently. */
  lemma FormatHHMMInjective(a: Minute, b: Minute)
    ensures FormatHHMM(a) == FormatHHMM(b) ==> a == b
  {
  }

  /** A calendar date as year, month and day of month. */
  datatype Day = Day(year: nat, month: nat, day: nat)

  /** A date a date input field can carry: four-digit year, month 1-12, day 1-31. */
  predicate ValidDay(d: Day)
  {
    d.year < 10000 && 1 <= d.month <= 12 && 1 <= d.day <= 31
  }

  type CalendarDay = d: Day | ValidDay(d) witness Day(1970, 1, 1)

  /** Chronological order of dates: by year, then month, then day. */
  predicate Before(a: Day, b: Day)
  {
    a.year < b.year
    || (a.year == b.year && a.month < b.month)
    || (a.year == b.year && a.month == b.month && a.day < b.day)
  }

  /**
   * The `YYYY-MM-DD` form of a date, as `toISOString().slice(0, 10)` prints it:
   * the four year digits, the two month digits and the two day digits.
   */
  function FormatIsoDate(d: CalendarDay): (s: string)
    ensures |s| == 10 && s[4] == '-' && s[7] == '-'
    ensures IsDigit(s[0]) && IsDigit(s[1]) && IsDigit(s[2]) && IsDigit(s[3])
    ensures IsDigit(s[5]) && IsDigit(s[6]) && IsDigit(s[8]) && IsDigit(s[9])
    ensures TwoDigitValue(s[0], s[1]) * 100 + TwoDigitValue(s[2], s[3]) == d.year
    ensures TwoDigitValue(s[5], s[6]) == d.month && TwoDigitValue(s[8], s[9]) == d.day
  {
    FourDigits(d.year) + "-" + TwoDigits(d.month) + "-" + TwoDigits(d.day)
  }

  predicate IsoDateShape(s: string)
  {
    |s| == 10 && s[4] == '-' && s[7] == '-'
    && IsDigit(s[0]) && IsDigit(s[1]) && IsDigit(s[2]) && IsDigit(s[3])
    && IsDigit(s[5]) && IsDigit(s[6]) && IsDigit(s[8]) && IsDigit(s[9])
  }

  /**
   * The date a `YYYY-MM-DD` string names, as `new Date(s + 'T00:00')` reads
   * it. Only that shape, with the month and day in range, is read here; any
   * other string counts as an invalid date.
   */
  function ParseIsoDate(s: string): (r: Option<CalendarDay>)
    ensures r.Some? ==> IsoDateShape(s) && s == FormatIsoDate(r.value)
  {
    if IsoDateShape(s) then
      var d := Day(TwoDigitValue(s[0], s[1]) * 100 + TwoDigitValue(s[2], s[3]),
                   TwoDigitValue(s[5], s[6]), TwoDigitValue(s[8], s[9]));
      if ValidDay(d) then IsoDateOfFields(s, d); Some(d) else None
    else None
  }

  /** A `YYYY-MM-DD` string is the printed form of the date its fields spell. */
  lemma IsoDateOfFields(s: string, d: CalendarDay)
    requires IsoDateShape(s)
    requires d == Day(TwoDigitValue(s[0], s[1]) * 100 + TwoDigitValue(s[2], s[3]),
                      TwoDigitValue(s[5], s[6]), TwoDigitValue(s[8], s[9]))
    ensures s == FormatIsoDate(d)
  {
    var hi, lo := TwoDigitValue(s[0], s[1]), TwoDigitValue(s[2], s[3]);
    assert d.year / 100 == hi && d.year % 100 == lo;
    TwoDigitsOfValue(s[0], s[1]);
    TwoDigitsOfValue(s[2], s[3]);
    TwoDigitsOfValue(s[5], s[6]);
    TwoDigitsOfValue(s[8], s[9]);
    assert FourDigits(d.year) == [s[0], s[1], s[2], s[3]];
    assert s == [s[0], s[1], s[2], s[3]] + "-" + [s[5], s[6]] + "-" + [s[8], s[9]];
  }

  /** Reading back a formatted date gives the same date. */
  lemma ParseFormatIsoDate(d: CalendarDay)
    ensures ParseIsoDate(FormatIsoDate(d)) == Some(d)
  {
  }

  /**
   * `isPastDate`: the selected date lies strictly before today, comparing
   * dates only. An invalid date compares false, so it is never "past".
   */
  predicate IsPastDate(date: string, today: CalendarDay): (past: bool)
    ensures past <==> exists d: CalendarDay {:trigger FormatIsoDate(d)} :: date == FormatIsoDate(d) && Before(d, today)
  {
    match ParseIsoDate(date)
    case None => false
    case Some(d) => Before(d, today)
  }

  /**
   * For a date written by the date field, "past" means exactly "strictly
   * before today"; in particular today itself is never past, whatever the
   * time of day.
   */
  lemma IsPastDateIffBefore(d: CalendarDay, today: CalendarDay)
    ensures IsPastDate(FormatIsoDate(d), today) <==> Before(d, today)
    ensures !IsPastDate(FormatIsoDate(today), today)
  {
  }
}
