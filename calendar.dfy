/**
 * Dates, times and datetimes: range validation with the Gregorian leap-year
 * rule, the tuple constructors with their truncating casts, and the text
 * format `Y-MM-DD.HH:MM` (year unpadded) with its parsers. The parsers also
 * accept unpadded month, day, hour and minute, and ignore extra fields.
 */
module Calendar {

  import opened Results
  import opened Numeric
  import opened Strings
  import opened DatetimeErrors

  datatype Date = Date(year: u16, month: u8, day: u8)

  datatype Time = Time(hour: u8, minute: u8)

  datatype Datetime = Datetime(date: Date, time: Time)

  // ---------------------------------------------------------------- ranges

  predicate IsLeapYear(year: u16) {
    year % 4 == 0 && (year % 100 != 0 || year % 400 == 0)
  }

  /** The largest valid day of `month` in `year`; 0 for a month outside 1..12. */
  function DaysInMonth(year: u16, month: u8): (n: u8)
    ensures n <= 31
    ensures n == 0 <==> !(1 <= month <= 12)
    ensures n == 31 <==> month in {1, 3, 5, 7, 8, 10, 12}
    ensures n == 30 <==> month in {4, 6, 9, 11}
    ensures month == 2 ==> (n == 29 <==> IsLeapYear(year)) && (n == 28 <==> !IsLeapYear(year))
  {
    match month
    case 1 | 3 | 5 | 7 | 8 | 10 | 12 => 31
    case 4 | 6 | 9 | 11 => 30
    case 2 => if IsLeapYear(year) then 29 else 28
    case _ => 0
  }

  predicate IsValidDate(d: Date) {
    1 <= d.month <= 12 && 1 <= d.day <= DaysInMonth(d.year, d.month)
  }

  predicate IsValidTime(t: Time) {
    t.hour < 24 && t.minute < 60
  }

  predicate IsValidDatetime(dt: Datetime) {
    IsValidDate(dt.date) && IsValidTime(dt.time)
  }

  /** `Date::new`: the date if it is in range, else `RangeError`. */
  function DateNew(year: u16, month: u8, day: u8): (r: Result<Date, DatetimeError>)
    ensures r.Ok? <==> 1 <= month <= 12 && 1 <= day <= DaysInMonth(year, month)
    ensures r.Ok? ==> r.value == Date(year, month, day) && r.value.day <= 31
    ensures r.Err? ==> r.error == RangeError
  {
    var created := Date(year, month, day);
    if !IsValidDate(created) then Err(RangeError) else Ok(created)
  }

  /** `Time::new`: the time if it is in range, else `RangeError`. */
  function TimeNew(hour: u8, minute: u8): (r: Result<Time, DatetimeError>)
    ensures r.Ok? <==> hour < 24 && minute < 60
    ensures r.Ok? ==> r.value == Time(hour, minute)
    ensures r.Err? ==> r.error == RangeError
  {
    var created := Time(hour, minute);
    if !IsValidTime(created) then Err(RangeError) else Ok(created)
  }

  /** The days of the months 1..m of `year`. */
  function DaysBeforeEndOf(year: u16, m: nat): nat
    requires m <= 12
  {
    if m == 0 then 0 else DaysBeforeEndOf(year, m - 1) + DaysInMonth(year, m as u8)
  }

  /** The month table adds up to a year of 366 days in a leap year and 365 otherwise. */
  lemma YearLength(year: u16)
    ensures DaysBeforeEndOf(year, 12) == if IsLeapYear(year) then 366 else 365
  {
    var feb: nat := DaysInMonth(year, 2);
    assert DaysBeforeEndOf(year, 1) == 31;
    assert DaysBeforeEndOf(year, 2) == 31 + feb;
    assert DaysBeforeEndOf(year, 3) == 62 + feb;
    assert DaysBeforeEndOf(year, 4) == 92 + feb;
    assert DaysBeforeEndOf(year, 5) == 123 + feb;
    assert DaysBeforeEndOf(year, 6) == 153 + feb;
    assert DaysBeforeEndOf(year, 7) == 184 + feb;
    assert DaysBeforeEndOf(year, 8) == 215 + feb;
    assert DaysBeforeEndOf(year, 9) == 245 + feb;
    assert DaysBeforeEndOf(year, 10) == 276 + feb;
    assert DaysBeforeEndOf(year, 11) == 306 + feb;
  }

  /** The leap-year rule repeats every 400 years. */
  lemma LeapYearCycle(year: u16)
    requires year + 400 < 0x1_0000
    ensures IsLeapYear(year) <==> IsLeapYear(year + 400)
  {
  }

  /** The boundary cases of the leap-year rule and of the month table. */
  lemma DateBoundaries()
    ensures DateNew(2000, 2, 29).Ok? && DateNew(2024, 2, 29).Ok?
    ensures DateNew(1900, 2, 29) == Err(RangeError) && DateNew(2023, 2, 29) == Err(RangeError)
    ensures DateNew(2023, 4, 31) == Err(RangeError) && DateNew(2023, 4, 30).Ok?
    ensures DateNew(2023, 13, 1) == Err(RangeError) && DateNew(2023, 1, 0) == Err(RangeError)
  {
  }

  lemma TimeBoundaries()
    ensures TimeNew(23, 59).Ok? && TimeNew(0, 0).Ok?
    ensures TimeNew(24, 0) == Err(RangeError) && TimeNew(10, 60) == Err(RangeError)
  {
  }

  // ------------------------------------------------------ tuple constructors

  /** `Date::try_from((i32, i32, i32))`: the fields are cast with `as` (year to u16, month and day to u8) and then validated. */
  function DateFromTuple(value: (i32, i32, i32)): (r: Result<Date, DatetimeError>)
    ensures r.Ok? ==> IsValidDate(r.value)
    ensures r.Ok? ==>
      (value.0 - r.value.year) % 0x1_0000 == 0 &&
      (value.1 - r.value.month) % 0x100 == 0 &&
      (value.2 - r.value.day) % 0x100 == 0
    ensures r.Ok? <==> IsValidDate(Date(AsU16(value.0), AsU8(value.1), AsU8(value.2)))
    ensures r.Err? ==> r.error == RangeError
  {
    DateNew(AsU16(value.0), AsU8(value.1), AsU8(value.2))
  }

  /** `Time::try_from((i32, i32))`: both fields are cast to u8 and then validated. */
  function TimeFromTuple(value: (i32, i32)): (r: Result<Time, DatetimeError>)
    ensures r.Ok? ==> IsValidTime(r.value)
    ensures r.Ok? ==> (value.0 - r.value.hour) % 0x100 == 0 && (value.1 - r.value.minute) % 0x100 == 0
    ensures r.Ok? <==> IsValidTime(Time(AsU8(value.0), AsU8(value.1)))
    ensures r.Err? ==> r.error == RangeError
  {
    TimeNew(AsU8(value.0), AsU8(value.1))
  }

  /** `Datetime::try_from` on a pair of tuples: the date's error, if any, comes first. */
  function DatetimeFromTuple(value: ((i32, i32, i32), (i32, i32))): (r: Result<Datetime, DatetimeError>)
    ensures DateFromTuple(value.0).Err? ==> r == Err(DateFromTuple(value.0).error)
    ensures DateFromTuple(value.0).Ok? && TimeFromTuple(value.1).Err? ==> r == Err(TimeFromTuple(value.1).error)
    ensures r.Ok? <==> DateFromTuple(value.0).Ok? && TimeFromTuple(value.1).Ok?
    ensures r.Ok? ==> r.value == Datetime(DateFromTuple(value.0).value, TimeFromTuple(value.1).value)
    ensures r.Ok? ==> IsValidDatetime(r.value)
  {
    match DateFromTuple(value.0)
    case Err(e) => Err(e)
    case Ok(date) =>
      match TimeFromTuple(value.1)
      case Err(e) => Err(e)
      case Ok(time) => Ok(Datetime(date, time))
  }

  /** Inputs within the field widths are validated unchanged. */
  lemma TupleInRange(y: i32, m: i32, d: i32, h: i32, mi: i32)
    requires 0 <= y < 0x1_0000 && 0 <= m < 0x100 && 0 <= d < 0x100
    requires 0 <= h < 0x100 && 0 <= mi < 0x100
    ensures DateFromTuple((y, m, d)) == DateNew(y, m, d)
    ensures TimeFromTuple((h, mi)) == TimeNew(h, mi)
  {
  }

  /** The casts wrap instead of failing: shifting a field by its width accepts the same date or time, so out-of-range input such as month 257 or year 67560 is taken silently. */
  lemma TupleWrapsAround(y: i32, m: i32, d: i32, h: i32, mi: i32)
    requires y + 0x1_0000 < 0x8000_0000 && m + 0x100 < 0x8000_0000 && d + 0x100 < 0x8000_0000
    requires h + 0x100 < 0x8000_0000 && mi + 0x100 < 0x8000_0000
    ensures DateFromTuple((y + 0x1_0000, m, d)) == DateFromTuple((y, m, d))
    ensures DateFromTuple((y, m + 0x100, d)) == DateFromTuple((y, m, d))
    ensures DateFromTuple((y, m, d + 0x100)) == DateFromTuple((y, m, d))
    ensures TimeFromTuple((h + 0x100, mi)) == TimeFromTuple((h, mi))
    ensures TimeFromTuple((h, mi + 0x100)) == TimeFromTuple((h, mi))
    ensures DateFromTuple((2023, 257, 1)) == Ok(Date(2023, 1, 1))
    ensures DateFromTuple((2023, -255, 1)) == Ok(Date(2023, 1, 1))
    ensures DateFromTuple((2023, 1, 257)) == Ok(Date(2023, 1, 1))
    ensures TimeFromTuple((10, 306)) == Ok(Time(10, 50))
  {
    assert AsU16(y + 0x1_0000) == AsU16(y);
    assert AsU8(m + 0x100) == AsU8(m);
    assert AsU8(d + 0x100) == AsU8(d);
    assert AsU8(h + 0x100) == AsU8(h);
    assert AsU8(mi + 0x100) == AsU8(mi);
  }

  // -------------------------------------------------------------- formatting

  /** `Display for Date`: the year unpadded, month and day padded to two digits. */
  function DateToString(d: Date): (s: string)
    ensures forall c :: c in s ==> IsDigit(c) || c == '-'
    ensures IsValidDate(d) ==> |s| == |Decimal(d.year)| + 6
  {
    Decimal(d.year) + "-" + ZeroPad2(d.month) + "-" + ZeroPad2(d.day)
  }

  /** `Display for Time`: hour and minute padded to two digits. */
  function TimeToString(t: Time): (s: string)
    ensures forall c :: c in s ==> IsDigit(c) || c == ':'
    ensures IsValidTime(t) ==> |s| == 5
  {
    ZeroPad2(t.hour) + ":" + ZeroPad2(t.minute)
  }

  /** `Display for Datetime`: `<date>.<time>`. */
  function DatetimeToString(dt: Datetime): (s: string)
    ensures forall c :: c in s ==> IsDigit(c) || c == '-' || c == ':' || c == '.'
  {
    DateToString(dt.date) + "." + TimeToString(dt.time)
  }

  // ----------------------------------------------------------------- parsing

  /**
   * `Date::try_from(&str)`: at least three '-'-separated fields (later ones
   * are ignored); year, month and day parsed in that order as u16, u8, u8,
   * the first failure reported as `ParseError`; then `Date::new`.
   */
  function ParseDate(text: string): (r: Result<Date, DatetimeError>)
    ensures var f := Split(text, '-');
      |f| < 3 <==> r == Err(TooFewArgumentsError)
    ensures var f := Split(text, '-');
      |f| >= 3 && ParseUnsigned(f[0], MaxU16).Err? ==>
        r == Err(ParseError(ParseUnsigned(f[0], MaxU16).error))
    ensures var f := Split(text, '-');
      |f| >= 3 && ParseUnsigned(f[0], MaxU16).Ok? && ParseUnsigned(f[1], MaxU8).Err? ==>
        r == Err(ParseError(ParseUnsigned(f[1], MaxU8).error))
    ensures var f := Split(text, '-');
      |f| >= 3 && ParseUnsigned(f[0], MaxU16).Ok? && ParseUnsigned(f[1], MaxU8).Ok? && ParseUnsigned(f[2], MaxU8).Err? ==>
        r == Err(ParseError(ParseUnsigned(f[2], MaxU8).error))
    ensures var f := Split(text, '-');
      r.Ok? ==>
        |f| >= 3 && IsValidDate(r.value) &&
        ParseUnsigned(f[0], MaxU16) == Ok(r.value.year as nat) &&
        ParseUnsigned(f[1], MaxU8) == Ok(r.value.month as nat) &&
        ParseUnsigned(f[2], MaxU8) == Ok(r.value.day as nat)
    ensures var f := Split(text, '-');
      |f| >= 3 && ParseUnsigned(f[0], MaxU16).Ok? && ParseUnsigned(f[1], MaxU8).Ok? && ParseUnsigned(f[2], MaxU8).Ok? ==>
        r == DateNew(ParseUnsigned(f[0], MaxU16).value, ParseUnsigned(f[1], MaxU8).value, ParseUnsigned(f[2], MaxU8).value)
    ensures r == Err(RangeError) ==>
      var f := Split(text, '-');
      |f| >= 3 && ParseUnsigned(f[0], MaxU16).Ok? && ParseUnsigned(f[1], MaxU8).Ok? && ParseUnsigned(f[2], MaxU8).Ok? &&
      !IsValidDate(Date(ParseUnsigned(f[0], MaxU16).value, ParseUnsigned(f[1], MaxU8).value, ParseUnsigned(f[2], MaxU8).value))
  {
    var fields := Split(text, '-');
    if |fields| < 3 then Err(TooFewArgumentsError)
    else
      var year := ParseUnsigned(fields[0], MaxU16);
      if year.Err? then Err(ParseError(year.error))
      else
        var month := ParseUnsigned(fields[1], MaxU8);
        if month.Err? then Err(ParseError(month.error))
        else
          var day := ParseUnsigned(fields[2], MaxU8);
          if day.Err? then Err(ParseError(day.error))
          else DateNew(year.value, month.value, day.value)
  }

  /**
   * `Time::try_from(&str)`: at least two ':'-separated fields (later ones
   * are ignored); hour before minute, both as u8; then `Time::new`.
   */
  function ParseTime(text: string): (r: Result<Time, DatetimeError>)
    ensures var f := Split(text, ':');
      |f| < 2 <==> r == Err(TooFewArgumentsError)
    ensures var f := Split(text, ':');
      |f| >= 2 && ParseUnsigned(f[0], MaxU8).Err? ==>
        r == Err(ParseError(ParseUnsigned(f[0], MaxU8).error))
    ensures var f := Split(text, ':');
      |f| >= 2 && ParseUnsigned(f[0], MaxU8).Ok? && ParseUnsigned(f[1], MaxU8).Err? ==>
        r == Err(ParseError(ParseUnsigned(f[1], MaxU8).error))
    ensures var f := Split(text, ':');
      r.Ok? ==>
        |f| >= 2 && IsValidTime(r.value) &&
        ParseUnsigned(f[0], MaxU8) == Ok(r.value.hour as nat) &&
        ParseUnsigned(f[1], MaxU8) == Ok(r.value.minute as nat)
    ensures var f := Split(text, ':');
      |f| >= 2 && ParseUnsigned(f[0], MaxU8).Ok? && ParseUnsigned(f[1], MaxU8).Ok? ==>
        r == TimeNew(ParseUnsigned(f[0], MaxU8).value, ParseUnsigned(f[1], MaxU8).value)
    ensures r == Err(RangeError) ==>
      var f := Split(text, ':');
      |f| >= 2 && ParseUnsigned(f[0], MaxU8).Ok? && ParseUnsigned(f[1], MaxU8).Ok? &&
      !IsValidTime(Time(ParseUnsigned(f[0], MaxU8).value, ParseUnsigned(f[1], MaxU8).value))
  {
    var fields := Split(text, ':');
    if |fields| < 2 then Err(TooFewArgumentsError)
    else
      var hour := ParseUnsigned(fields[0], MaxU8);
      if hour.Err? then Err(ParseError(hour.error))
      else
        var minute := ParseUnsigned(fields[1], MaxU8);
        if minute.Err? then Err(ParseError(minute.error))
        else TimeNew(hour.value, minute.value)
  }

  /**
   * `Datetime::try_from(&str)`: at least two '.'-separated parts (later
   * ones are ignored); the date part's error, if any, before the time's.
   */
  function ParseDatetime(text: string): (r: Result<Datetime, DatetimeError>)
    ensures var p := Split(text, '.');
      |p| < 2 ==> r == Err(TooFewArgumentsError)
    ensures var p := Split(text, '.');
      |p| >= 2 && ParseDate(p[0]).Err? ==> r == Err(ParseDate(p[0]).error)
    ensures var p := Split(text, '.');
      |p| >= 2 && ParseDate(p[0]).Ok? && ParseTime(p[1]).Err? ==> r == Err(ParseTime(p[1]).error)
    ensures var p := Split(text, '.');
      |p| >= 2 && ParseDate(p[0]).Ok? && ParseTime(p[1]).Ok? ==>
        r == Ok(Datetime(ParseDate(p[0]).value, ParseTime(p[1]).value))
    ensures var p := Split(text, '.');
      r.Ok? ==>
        |p| >= 2 && IsValidDatetime(r.value) &&
        ParseDate(p[0]) == Ok(r.value.date) && ParseTime(p[1]) == Ok(r.value.time)
  {
    var parts := Split(text, '.');
    if |parts| < 2 then Err(TooFewArgumentsError)
    else
      match ParseDate(parts[0])
      case Err(e) => Err(e)
      case Ok(date) =>
        match ParseTime(parts[1])
        case Err(e) => Err(e)
        case Ok(time) => Ok(Datetime(date, time))
  }

  // ------------------------------------------------------------- round trips

  lemma DateRoundTrip(d: Date)
    requires IsValidDate(d)
    ensures ParseDate(DateToString(d)) == Ok(d)
  {
    var y, m, dd := Decimal(d.year), ZeroPad2(d.month), ZeroPad2(d.day);
    assert DateToString(d) == y + ['-'] + (m + ['-'] + dd);
    SplitWithoutSeparator(y, '-');
    SplitWithoutSeparator(m, '-');
    SplitWithoutSeparator(dd, '-');
    SplitAround(m, dd, '-');
    SplitAround(y, m + ['-'] + dd, '-');
    ParseDecimal(d.year, MaxU16);
    ParseZeroPad2(d.month, MaxU8);
    ParseZeroPad2(d.day, MaxU8);
  }

  lemma TimeRoundTrip(t: Time)
    requires IsValidTime(t)
    ensures ParseTime(TimeToString(t)) == Ok(t)
  {
    var h, m := ZeroPad2(t.hour), ZeroPad2(t.minute);
    assert TimeToString(t) == h + [':'] + m;
    SplitWithoutSeparator(h, ':');
    SplitWithoutSeparator(m, ':');
    SplitAround(h, m, ':');
    ParseZeroPad2(t.hour, MaxU8);
    ParseZeroPad2(t.minute, MaxU8);
  }

  /** Parsing the text of any valid datetime gives the same datetime back. */
  lemma DatetimeRoundTrip(dt: Datetime)
    requires IsValidDatetime(dt)
    ensures ParseDatetime(DatetimeToString(dt)) == Ok(dt)
  {
    var d, t := DateToString(dt.date), TimeToString(dt.time);
    assert DatetimeToString(dt) == d + ['.'] + t;
    SplitWithoutSeparator(d, '.');
    SplitWithoutSeparator(t, '.');
    SplitAround(d, t, '.');
    DateRoundTrip(dt.date);
    TimeRoundTrip(dt.time);
  }

  /** Only the first three fields of a date, the first two of a time and the first two parts of a datetime are read. */
  lemma ExtraFieldsIgnored(text: string, extra: string)
    ensures |Split(text, '-')| >= 3 ==> ParseDate(text + "-" + extra) == ParseDate(text)
    ensures |Split(text, ':')| >= 2 ==> ParseTime(text + ":" + extra) == ParseTime(text)
    ensures |Split(text, '.')| >= 2 ==> ParseDatetime(text + "." + extra) == ParseDatetime(text)
  {
    SplitAround(text, extra, '-');
    SplitAround(text, extra, ':');
    SplitAround(text, extra, '.');
  }

  /** The unpadded date of the program's demonstration, `2023-1-1`, is accepted. */
  lemma UnpaddedDateAccepted(text: string)
    requires text == "2023-1-1"
    ensures ParseDate(text) == Ok(Date(2023, 1, 1))
  {
    var y, m := "2023", "1";
    assert text == y + ['-'] + (m + ['-'] + m);
    assert Split(text, '-') == [y, m, m] by {
      SplitWithoutSeparator(y, '-');
      SplitWithoutSeparator(m, '-');
      SplitAround(m, m, '-');
      SplitAround(y, m + ['-'] + m, '-');
    }
    assert ParseUnsigned(y, MaxU16) == Ok(2023) by {
      assert Decimal(2) == "2";
      assert Decimal(20) == "20";
      assert Decimal(202) == "202";
      assert Decimal(2023) == y;
      ParseDecimal(2023, MaxU16);
    }
    assert ParseUnsigned(m, MaxU8) == Ok(1) by {
      assert Decimal(1) == m;
      ParseDecimal(1, MaxU8);
    }
  }

  /** The unpadded time of the program's demonstration, `10:50`, is accepted. */
  lemma UnpaddedTimeAccepted(text: string)
    requires text == "10:50"
    ensures ParseTime(text) == Ok(Time(10, 50))
  {
    var h, m := "10", "50";
    assert text == h + [':'] + m;
    assert Split(text, ':') == [h, m] by {
      SplitWithoutSeparator(h, ':');
      SplitWithoutSeparator(m, ':');
      SplitAround(h, m, ':');
    }
    assert ParseUnsigned(h, MaxU8) == Ok(10) by {
      assert Decimal(1) == "1";
      assert Decimal(10) == h;
      ParseDecimal(10, MaxU8);
    }
    assert ParseUnsigned(m, MaxU8) == Ok(50) by {
      assert Decimal(5) == "5";
      assert Decimal(50) == m;
      ParseDecimal(50, MaxU8);
    }
  }

  /** The program's demonstration datetime, `2023-1-1.10:50`, is accepted. */
  lemma UnpaddedDatetimeAccepted(text: string)
    requires text == "2023-1-1.10:50"
    ensures ParseDatetime(text) == Ok(Datetime(Date(2023, 1, 1), Time(10, 50)))
  {
    var d, t := "2023-1-1", "10:50";
    assert text == d + ['.'] + t;
    assert Split(text, '.') == [d, t] by {
      SplitWithoutSeparator(d, '.');
      SplitWithoutSeparator(t, '.');
      SplitAround(d, t, '.');
    }
    UnpaddedDateAccepted(d);
    UnpaddedTimeAccepted(t);
  }

}
