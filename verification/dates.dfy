/** Calendar dates and Python's `datetime.strptime(text, '%Y-%m-%d')`.
    `strptime` matches the text against the regular expression
    `(\d\d\d\d)-(1[0-2]|0[1-9]|[1-9])-(3[01]|[12]\d|0[1-9]|[1-9]| [1-9])`,
    requires the match to consume the whole text, and then builds a
    `datetime`, which refuses year 0 and days past the end of the month.
    `ParseDate` computes that; `Spells` describes the texts it accepts
    declaratively, and `ParseDateSpells` proves the two agree. */
module Dates {
  import opened Common

  /** A calendar day (the crawler's datetimes are all at midnight). */
  datatype Date = Date(year: int, month: int, day: int)

  /** Gregorian leap years. */
  predicate IsLeapYear(y: int)
  {
    y % 4 == 0 && (y % 100 != 0 || y % 400 == 0)
  }

  function DaysInMonth(y: int, m: int): int
    requires 1 <= m <= 12
  {
    if m == 2 then (if IsLeapYear(y) then 29 else 28)
    else if m == 4 || m == 6 || m == 9 || m == 11 then 30
    else 31
  }

  /** The dates `datetime` can represent: years 1 to 9999 and a real day of the month. */
  predicate Valid(d: Date)
  {
    1 <= d.year <= 9999 && 1 <= d.month <= 12 && 1 <= d.day <= DaysInMonth(d.year, d.month)
  }

  /** `a >= b` on two datetimes at midnight: lexicographic on (year, month, day). */
  predicate AtOrAfter(a: Date, b: Date)
  {
    a.year > b.year || (a.year == b.year && (a.month > b.month || (a.month == b.month && a.day >= b.day)))
  }

  // ---- Decimal digits (ASCII only) ----

  predicate IsDigit(c: char)
  {
    '0' <= c <= '9'
  }

  function Digit(c: char): int
    requires IsDigit(c)
  {
    c as int - '0' as int
  }

  function DigitChar(n: int): (c: char)
    requires 0 <= n <= 9
    ensures IsDigit(c) && Digit(c) == n
  {
    ('0' as int + n) as char
  }

  /** Zero-padded four-digit text of `n`, as `%Y` prints it. */
  function Pad4(n: int): string
    requires 0 <= n <= 9999
  {
    Pad2(n / 100) + Pad2(n % 100)
  }

  /** Zero-padded two-digit text of `n`, as `%m` and `%d` print it. */
  function Pad2(n: int): string
    requires 0 <= n <= 99
  {
    [DigitChar(n / 10), DigitChar(n % 10)]
  }

  // ---- The three fields of '%Y-%m-%d' ----

  /** `%Y`: exactly four digits. */
  function YearToken(t: string): Option<int>
  {
    if |t| == 4 && IsDigit(t[0]) && IsDigit(t[1]) && IsDigit(t[2]) && IsDigit(t[3])
    then Some(1000 * Digit(t[0]) + 100 * Digit(t[1]) + 10 * Digit(t[2]) + Digit(t[3]))
    else None
  }

  /** `%m`: the alternatives `1[0-2]`, `0[1-9]`, `[1-9]`. */
  function MonthToken(t: string): Option<int>
  {
    if |t| == 2 && t[0] == '1' && '0' <= t[1] <= '2' then Some(10 + Digit(t[1]))
    else if |t| == 2 && t[0] == '0' && '1' <= t[1] <= '9' then Some(Digit(t[1]))
    else if |t| == 1 && '1' <= t[0] <= '9' then Some(Digit(t[0]))
    else None
  }

  /** `%d`: the alternatives `3[01]`, `[12]\d`, `0[1-9]`, `[1-9]`, and a space
      followed by `[1-9]` (`int(' 5')` is 5). */
  function DayToken(t: string): Option<int>
  {
    if |t| == 2 && t[0] == '3' && '0' <= t[1] <= '1' then Some(30 + Digit(t[1]))
    else if |t| == 2 && '1' <= t[0] <= '2' && IsDigit(t[1]) then Some(10 * Digit(t[0]) + Digit(t[1]))
    else if |t| == 2 && (t[0] == '0' || t[0] == ' ') && '1' <= t[1] <= '9' then Some(Digit(t[1]))
    else if |t| == 1 && '1' <= t[0] <= '9' then Some(Digit(t[0]))
    else None
  }

  /** `datetime.strptime(s, '%Y-%m-%d')`, `None` where it raises `ValueError`.
      The month field is one or two digits closed by a '-', so the dash after
      it sits at index 6 or 7; every field after the year must be non-empty,
      so the shortest accepted text, "YYYY-M-D", has eight characters. */
  function ParseDate(s: string): (r: Option<Date>)
    ensures r.Some? ==> Valid(r.value)
  {
    if |s| < 8 || s[4] != '-' then None
    else
      var k := if s[6] == '-' then 6 else 7;
      if s[k] != '-' then None
      else
        match (YearToken(s[..4]), MonthToken(s[5..k]), DayToken(s[k + 1..]))
        case (Some(y), Some(m), Some(d)) => if Valid(Date(y, m, d)) then Some(Date(y, m, d)) else None
        case _ => None
  }

  /** `date.strftime('%Y-%m-%d')`: the canonical text of a date. */
  function Format(d: Date): string
    requires Valid(d)
  {
    Pad4(d.year) + "-" + Pad2(d.month) + "-" + Pad2(d.day)
  }

  // ---- The accepted texts, declaratively ----

  /** Every text `%m` reads as month `m`. */
  function MonthSpellings(m: int): set<string>
    requires 1 <= m <= 12
  {
    if m < 10 then {[DigitChar(m)], ['0', DigitChar(m)]} else {['1', DigitChar(m - 10)]}
  }

  /** Every text `%d` reads as day `d`. */
  function DaySpellings(d: int): set<string>
    requires 1 <= d <= 31
  {
    if d < 10 then {[DigitChar(d)], ['0', DigitChar(d)], [' ', DigitChar(d)]}
    else {[DigitChar(d / 10), DigitChar(d % 10)]}
  }

  /** `s` is one of the ways to write the valid date `d` in '%Y-%m-%d'. */
  ghost predicate Spells(s: string, d: Date)
  {
    Valid(d) &&
    exists mt, dt :: mt in MonthSpellings(d.month) && dt in DaySpellings(d.day) &&
      s == Pad4(d.year) + "-" + mt + "-" + dt
  }

  /** Quotient and remainder of a number written as `q * d + r` with `0 <= r < d`. */
  lemma DivMod10(q: int, r: int)
    requires 0 <= r < 10
    ensures (10 * q + r) / 10 == q && (10 * q + r) % 10 == r
  {
  }

  lemma DivMod100(q: int, r: int)
    requires 0 <= r < 100
    ensures (100 * q + r) / 100 == q && (100 * q + r) % 100 == r
  {
  }

  lemma YearTokenPad4(n: int)
    requires 0 <= n <= 9999
    ensures YearToken(Pad4(n)) == Some(n)
  {
    var hi, lo := n / 100, n % 100;
    assert n == 100 * hi + lo;
    assert hi == 10 * (hi / 10) + hi % 10;
    assert lo == 10 * (lo / 10) + lo % 10;
    var t := Pad4(n);
    assert t == [DigitChar(hi / 10), DigitChar(hi % 10), DigitChar(lo / 10), DigitChar(lo % 10)];
  }

  lemma YearTokenIsPad4(t: string, y: int)
    requires YearToken(t) == Some(y)
    ensures 0 <= y <= 9999 && t == Pad4(y)
  {
    var a, b, c, e := Digit(t[0]), Digit(t[1]), Digit(t[2]), Digit(t[3]);
    assert y == 100 * (10 * a + b) + (10 * c + e);
    DivMod100(10 * a + b, 10 * c + e);
    DivMod10(a, b);
    DivMod10(c, e);
    assert t == [DigitChar(a), DigitChar(b), DigitChar(c), DigitChar(e)];
  }

  /** `%m` reads exactly the month spellings. */
  lemma MonthTokenSpellings(t: string, m: int)
    ensures MonthToken(t) == Some(m) <==> 1 <= m <= 12 && t in MonthSpellings(m)
  {
    if 1 <= m <= 12 && t in MonthSpellings(m) {
      if m >= 10 {
        assert t == ['1', DigitChar(m - 10)];
      }
    }
    if MonthToken(t) == Some(m) {
      if |t| == 1 {
        assert t == [DigitChar(m)];
      } else if t[0] == '0' {
        assert t == ['0', DigitChar(m)];
      } else {
        assert t == ['1', DigitChar(m - 10)];
      }
    }
  }

  /** `%d` reads exactly the day spellings. */
  lemma DayTokenSpellings(t: string, d: int)
    ensures DayToken(t) == Some(d) <==> 1 <= d <= 31 && t in DaySpellings(d)
  {
    if 1 <= d <= 31 && t in DaySpellings(d) {
      if d >= 10 {
        assert t == [DigitChar(d / 10), DigitChar(d % 10)];
      }
    }
    if DayToken(t) == Some(d) {
      if |t| == 1 {
        assert t == [DigitChar(d)];
      } else if t[0] == '0' {
        assert t == ['0', DigitChar(d)];
      } else if t[0] == ' ' {
        assert t == [' ', DigitChar(d)];
      } else {
        assert t == [DigitChar(d / 10), DigitChar(d % 10)];
      }
    }
  }

  /** Whatever `ParseDate` reads is a spelling of the date it returns. */
  lemma ParseDateSound(s: string, d: Date)
    requires ParseDate(s) == Some(d)
    ensures Spells(s, d)
  {
    var k := if s[6] == '-' then 6 else 7;
    var yt, mt, dt := s[..4], s[5..k], s[k + 1..];
    YearTokenIsPad4(yt, d.year);
    MonthTokenSpellings(mt, d.month);
    DayTokenSpellings(dt, d.day);
    assert s == yt + "-" + mt + "-" + dt;
  }

  /** Every spelling of a valid date is read as that date. */
  lemma ParseDateComplete(s: string, d: Date, mt: string, dt: string)
    requires Valid(d) && mt in MonthSpellings(d.month) && dt in DaySpellings(d.day)
    requires s == Pad4(d.year) + "-" + mt + "-" + dt
    ensures ParseDate(s) == Some(d)
  {
    var k := 5 + |mt|;
    var yt := Pad4(d.year);
    assert |yt| == 4;
    assert |mt| == 1 || |mt| == 2;
    assert 1 <= |dt| <= 2;
    assert s == yt + ("-" + mt + "-" + dt);
    assert s[..4] == yt;
    assert s[4] == '-';
    assert s[5..] == mt + ("-" + dt);
    assert s[5..k] == mt;
    assert s[k] == '-';
    assert s[k + 1..] == dt;
    assert |mt| == 2 ==> s[6] == mt[1] && IsDigit(mt[1]);
    assert k == if s[6] == '-' then 6 else 7;
    YearTokenPad4(d.year);
    MonthTokenSpellings(mt, d.month);
    DayTokenSpellings(dt, d.day);
  }

  /** `ParseDate` accepts exactly the spellings of valid dates, and reads each as its date. */
  lemma ParseDateSpells(s: string, d: Date)
    ensures ParseDate(s) == Some(d) <==> Spells(s, d)
  {
    if ParseDate(s) == Some(d) {
      ParseDateSound(s, d);
    }
    if Spells(s, d) {
      var mt, dt :| mt in MonthSpellings(d.month) && dt in DaySpellings(d.day) &&
        s == Pad4(d.year) + "-" + mt + "-" + dt;
      ParseDateComplete(s, d, mt, dt);
    }
  }

  /** Formatting a date and parsing the text back gives the date again. */
  lemma FormatParse(d: Date)
    requires Valid(d)
    ensures ParseDate(Format(d)) == Some(d)
  {
    assert Pad2(d.month) in MonthSpellings(d.month);
    assert Pad2(d.day) in DaySpellings(d.day);
    assert Spells(Format(d), d);
    ParseDateSpells(Format(d), d);
  }
}
