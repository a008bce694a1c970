/**
 * Date-times as Carbon holds them (`now()`, `searched_at`, `computed_at`):
 * calendar fields to the second, their chronological order, and the
 * 'Y-m-d H:i:s' rendering.
 */
module Clock {
  import opened Wrappers
  import opened Text

  type Month = m: int | 1 <= m <= 12 witness 1
  type Day = d: int | 1 <= d <= 31 witness 1
  type Hour = h: int | 0 <= h < 24
  type Minute = m: int | 0 <= m < 60
  type Second = s: int | 0 <= s < 60

  datatype DateTime = DateTime(year: int, month: Month, day: Day, hour: Hour, minute: Minute, second: Second)

  /** Chronological order: compare year, month, day, hour, minute, second in turn. */
  predicate Earlier(a: DateTime, b: DateTime)
  {
    if a.year != b.year then a.year < b.year
    else if a.month != b.month then a.month < b.month
    else if a.day != b.day then a.day < b.day
    else if a.hour != b.hour then a.hour < b.hour
    else if a.minute != b.minute then a.minute < b.minute
    else a.second < b.second
  }

  /** An integer key for a date-time (seconds in a calendar of 31-day months). */
  function Rank(t: DateTime): int
  {
    ((((t.year * 12 + (t.month - 1)) * 31 + (t.day - 1)) * 24 + t.hour) * 60 + t.minute) * 60 + t.second
  }

  /** Rank orders date-times chronologically, and distinct date-times get distinct ranks. */
  lemma RankIsChronological(a: DateTime, b: DateTime)
    ensures Rank(a) < Rank(b) <==> Earlier(a, b)
    ensures Rank(a) == Rank(b) <==> a == b
  {
    var da := ((a.month - 1) * 31 + (a.day - 1)) * 86400 + a.hour * 3600 + a.minute * 60 + a.second;
    var db := ((b.month - 1) * 31 + (b.day - 1)) * 86400 + b.hour * 3600 + b.minute * 60 + b.second;
    assert Rank(a) == a.year * 32140800 + da;
    assert Rank(b) == b.year * 32140800 + db;
    assert 0 <= da < 32140800 && 0 <= db < 32140800;
    if a.year < b.year {
      assert a.year * 32140800 + 32140800 <= b.year * 32140800;
    } else if a.year > b.year {
      assert b.year * 32140800 + 32140800 <= a.year * 32140800;
    }
  }

  /** Two decimal digits, zero-padded ('m', 'd', 'H', 'i', 's'). */
  function Two(n: nat): string
    requires n < 100
  {
    PadLeft(NatToDecimal(n), 2)
  }

  /** The year as 'Y' renders it: at least four digits, with '-' before the years BCE. */
  function Year(y: int): string
  {
    if y < 0 then "-" + PadLeft(NatToDecimal(-y), 4) else PadLeft(NatToDecimal(y), 4)
  }

  /** Carbon's `format('Y-m-d H:i:s')`. */
  function Format(t: DateTime): string
  {
    Year(t.year) + "-" + Two(t.month) + "-" + Two(t.day) + " "
      + Two(t.hour) + ":" + Two(t.minute) + ":" + Two(t.second)
  }

  /** Reads a 'Y-m-d H:i:s' string with a four-digit year back into a date-time. */
  function Parse(s: string): Option<DateTime>
  {
    if |s| == 19 && s[4] == '-' && s[7] == '-' && s[10] == ' ' && s[13] == ':' && s[16] == ':'
       && AllDigits(s[0..4]) && AllDigits(s[5..7]) && AllDigits(s[8..10])
       && AllDigits(s[11..13]) && AllDigits(s[14..16]) && AllDigits(s[17..19])
    then
      var mo, d, h, mi, se :=
        DigitsValue(s[5..7]), DigitsValue(s[8..10]), DigitsValue(s[11..13]),
        DigitsValue(s[14..16]), DigitsValue(s[17..19]);
      if 1 <= mo <= 12 && 1 <= d <= 31 && h < 24 && mi < 60 && se < 60
      then Some(DateTime(DigitsValue(s[0..4]), mo, d, h, mi, se))
      else None
    else None
  }

  lemma Layout(y: string, mo: string, d: string, h: string, mi: string, se: string)
    requires |y| == 4 && |mo| == 2 && |d| == 2 && |h| == 2 && |mi| == 2 && |se| == 2
    ensures var s := y + "-" + mo + "-" + d + " " + h + ":" + mi + ":" + se;
      && |s| == 19 && s[4] == '-' && s[7] == '-' && s[10] == ' ' && s[13] == ':' && s[16] == ':'
      && s[0..4] == y && s[5..7] == mo && s[8..10] == d
      && s[11..13] == h && s[14..16] == mi && s[17..19] == se
  {
    var s := y + "-" + mo + "-" + d + " " + h + ":" + mi + ":" + se;
    assert s[0..4] == y by { assert forall i :: 0 <= i < 4 ==> s[i] == y[i]; }
    assert s[5..7] == mo by { assert s[5] == mo[0] && s[6] == mo[1]; }
    assert s[8..10] == d by { assert s[8] == d[0] && s[9] == d[1]; }
    assert s[11..13] == h by { assert s[11] == h[0] && s[12] == h[1]; }
    assert s[14..16] == mi by { assert s[14] == mi[0] && s[15] == mi[1]; }
    assert s[17..19] == se by { assert s[17] == se[0] && s[18] == se[1]; }
  }

  /** For years 0..9999 the rendering has 19 characters and reads back as the same date-time. */
  lemma FormatRoundTrip(t: DateTime)
    requires 0 <= t.year <= 9999
    ensures |Format(t)| == 19
    ensures Parse(Format(t)) == Some(t)
  {
    assert Pow10(4) == 10000 && Pow10(2) == 100;
    PaddedRoundTrip(t.year, 4);
    PaddedRoundTrip(t.month, 2);
    PaddedRoundTrip(t.day, 2);
    PaddedRoundTrip(t.hour, 2);
    PaddedRoundTrip(t.minute, 2);
    PaddedRoundTrip(t.second, 2);
    Layout(Year(t.year), Two(t.month), Two(t.day), Two(t.hour), Two(t.minute), Two(t.second));
  }
}
