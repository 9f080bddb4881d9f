/** The two `datetime.strptime` formats the update handlers use, with the token
    grammar of CPython's `_strptime`: `%Y` is `\d\d\d\d`, `%m` is
    `1[0-2]|0[1-9]|[1-9]` and `%d` is `3[01]|[1-2]\d|0[1-9]|[1-9]| [1-9]`; the whole
    input must be consumed, and the resulting date must exist (year 0 does not). Here
    `\d` is an ASCII digit; CPython's also matches other Unicode decimal digits. */
module DateParse {
  import opened Wrappers
  import opened Text
  import opened Calendar

  datatype YearMonth = YearMonth(year: int, month: int)

  predicate ValidYearMonth(t: YearMonth) {
    1 <= t.year <= MaxYear && 1 <= t.month <= 12
  }

  /** `%Y`: exactly four ASCII digits. */
  function Year4(t: string): (r: Option<int>)
    ensures r.Some? ==> 0 <= r.value <= 9999
  {
    if |t| == 4 && AllDigits(t) then
      Digits4Bound(t);
      Some(ParseDigits(t))
    else None
  }

  lemma Digits4Bound(t: string)
    requires |t| == 4 && AllDigits(t)
    ensures ParseDigits(t) <= 9999
  {
    Digits4Value(t);
  }

  lemma Digits4Value(t: string)
    requires |t| == 4 && AllDigits(t)
    ensures ParseDigits(t) == 1000 * DigitValue(t[0]) + 100 * DigitValue(t[1]) + 10 * DigitValue(t[2]) + DigitValue(t[3])
  {
    assert t[..1][..0] == [];
    assert ParseDigits(t[..1]) == DigitValue(t[0]);
    assert t[..2][..1] == t[..1];
    assert ParseDigits(t[..2]) == 10 * DigitValue(t[0]) + DigitValue(t[1]);
    assert t[..3][..2] == t[..2];
    assert ParseDigits(t[..3]) == 100 * DigitValue(t[0]) + 10 * DigitValue(t[1]) + DigitValue(t[2]);
    assert t[..4] == t;
  }

  lemma DigitRoundTrip(c: char)
    requires IsDigit(c)
    ensures DigitChar(DigitValue(c)) == c
  {
  }

  /** `%m`: one of `1[0-2]`, `0[1-9]` or `[1-9]`, filling all of `t`. */
  function MonthToken(t: string): (r: Option<int>)
    ensures r.Some? ==> 1 <= r.value <= 12
  {
    if |t| == 1 && '1' <= t[0] <= '9' then Some(DigitValue(t[0]))
    else if |t| == 2 && t[0] == '1' && '0' <= t[1] <= '2' then Some(10 + DigitValue(t[1]))
    else if |t| == 2 && t[0] == '0' && '1' <= t[1] <= '9' then Some(DigitValue(t[1]))
    else None
  }

  /** `%d`: one of `3[01]`, `[1-2]\d`, `0[1-9]`, `[1-9]` or ` [1-9]`, filling all of `t`. */
  function DayToken(t: string): (r: Option<int>)
    ensures r.Some? ==> 1 <= r.value <= 31
  {
    if |t| == 1 && '1' <= t[0] <= '9' then Some(DigitValue(t[0]))
    else if |t| == 2 && t[0] == '3' && '0' <= t[1] <= '1' then Some(30 + DigitValue(t[1]))
    else if |t| == 2 && '1' <= t[0] <= '2' && IsDigit(t[1]) then Some(10 * DigitValue(t[0]) + DigitValue(t[1]))
    else if |t| == 2 && (t[0] == '0' || t[0] == ' ') && '1' <= t[1] <= '9' then Some(DigitValue(t[1]))
    else None
  }

  /** `datetime.strptime(s, "%Y-%m")`, giving None where Python raises ValueError. */
  function ParseYearMonth(s: string): (r: Option<YearMonth>)
    ensures r.Some? ==> ValidYearMonth(r.value)
  {
    if |s| < 5 || s[4] != '-' then None
    else
      match (Year4(s[..4]), MonthToken(s[5..]))
      case (Some(y), Some(m)) => if y >= 1 then Some(YearMonth(y, m)) else None
      case _ => None
  }

  /** `datetime.strptime(s, "%m/%d/%Y")`, giving None where Python raises ValueError.
      The month token is one character exactly when `s[1]` is the separator, and likewise
      for the day token, so the regular expression splits `s` in exactly one way. */
  function ParseMonthDayYear(s: string): (r: Option<Date>)
    ensures r.Some? ==> InDatetimeRange(r.value)
  {
    if |s| < 8 then None
    else
      var ml := if s[1] == '/' then 1 else 2;
      var dl := if s[ml + 2] == '/' then 1 else 2;
      if |s| != ml + dl + 6 || s[ml] != '/' || s[ml + 1 + dl] != '/' then None
      else
        match (MonthToken(s[..ml]), DayToken(s[ml + 1..ml + 1 + dl]), Year4(s[ml + dl + 2..]))
        case (Some(m), Some(d), Some(y)) =>
          var date := Date(y, m, d);
          if y >= 1 && d <= DaysInMonth(y, m) then Some(date) else None
        case _ => None
  }

  // ---------------------------------------------------------------------------
  // Canonical spellings, and the exact set of texts each parser accepts

  function Pad2(n: nat): (s: string)
    requires n < 100
  {
    [DigitChar(n / 10), DigitChar(n % 10)]
  }

  function Pad4(n: nat): (s: string)
    requires n < 10000
  {
    [DigitChar(n / 1000), DigitChar(n / 100 % 10), DigitChar(n / 10 % 10), DigitChar(n % 10)]
  }

  /** `YYYY-MM`, the text an invoice date such as "2024-05-17" starts with. */
  function FormatYearMonth(t: YearMonth): string
    requires ValidYearMonth(t)
  {
    Pad4(t.year) + "-" + Pad2(t.month)
  }

  /** `MM/DD/YYYY`, as a spreadsheet shows a date typed as text. */
  function FormatMonthDayYear(d: Date): string
    requires InDatetimeRange(d)
  {
    Pad2(d.month) + "/" + Pad2(d.day) + "/" + Pad4(d.year)
  }

  /** The texts `%m` (or `%d`) reads as the number `n`: the zero-padded form, and below 10
      also the single digit (and, for `%d` only, a space followed by the digit). */
  function MonthSpellings(m: int): set<string>
    requires 1 <= m <= 12
  {
    if m <= 9 then {Pad2(m), [DigitChar(m)]} else {Pad2(m)}
  }

  function DaySpellings(d: int): set<string>
    requires 1 <= d <= 31
  {
    if d <= 9 then {Pad2(d), [DigitChar(d)], [' ', DigitChar(d)]} else {Pad2(d)}
  }

  function YearMonthSpellings(t: YearMonth): set<string>
    requires ValidYearMonth(t)
  {
    set ms | ms in MonthSpellings(t.month) :: Pad4(t.year) + "-" + ms
  }

  function MonthDayYearSpellings(d: Date): set<string>
    requires InDatetimeRange(d)
  {
    set ms, ds | ms in MonthSpellings(d.month) && ds in DaySpellings(d.day) :: ms + "/" + ds + "/" + Pad4(d.year)
  }

  lemma Year4Pad(t: string, y: int)
    requires Year4(t) == Some(y)
    ensures t == Pad4(y)
  {
    Digits4Value(t);
    var a, b, c, d := DigitValue(t[0]), DigitValue(t[1]), DigitValue(t[2]), DigitValue(t[3]);
    SplitDigits(a, b, c, d);
    DigitRoundTrip(t[0]);
    DigitRoundTrip(t[1]);
    DigitRoundTrip(t[2]);
    DigitRoundTrip(t[3]);
  }

  lemma SplitDigits(a: int, b: int, c: int, d: int)
    requires 0 <= a <= 9 && 0 <= b <= 9 && 0 <= c <= 9 && 0 <= d <= 9
    ensures var y := 1000 * a + 100 * b + 10 * c + d;
      y / 1000 == a && y / 100 % 10 == b && y / 10 % 10 == c && y % 10 == d
  {
    var y := 1000 * a + 100 * b + 10 * c + d;
    assert y / 10 == 100 * a + 10 * b + c;
    assert y / 100 == 10 * a + b;
  }

  lemma PadYear4(y: int)
    requires 0 <= y <= 9999
    ensures Year4(Pad4(y)) == Some(y)
  {
    var t := Pad4(y);
    Digits4Value(t);
    assert y == 10 * (y / 10) + y % 10;
    assert y / 10 == 10 * (y / 100) + y / 10 % 10;
    assert y / 100 == 10 * (y / 1000) + y / 100 % 10;
  }

  lemma TwoDigits(a: int, b: int)
    requires 0 <= a <= 9 && 0 <= b <= 9
    ensures (10 * a + b) / 10 == a && (10 * a + b) % 10 == b
  {
  }

  lemma MonthTokenSpelling(t: string, m: int)
    requires 1 <= m <= 12
    ensures MonthToken(t) == Some(m) <==> t in MonthSpellings(m)
  {
    TwoDigits(m / 10, m % 10);
    if |t| >= 1 && IsDigit(t[0]) { DigitRoundTrip(t[0]); }
    if |t| >= 2 && IsDigit(t[1]) { DigitRoundTrip(t[1]); }
    if MonthToken(t) == Some(m) {
      if |t| == 1 {
        assert t == [DigitChar(m)];
      } else {
        assert t == Pad2(m);
      }
    }
  }

  lemma DayTokenSpelling(t: string, d: int)
    requires 1 <= d <= 31
    ensures DayToken(t) == Some(d) <==> t in DaySpellings(d)
  {
    TwoDigits(d / 10, d % 10);
    if |t| >= 1 && IsDigit(t[0]) { DigitRoundTrip(t[0]); }
    if |t| >= 2 && IsDigit(t[1]) { DigitRoundTrip(t[1]); }
    if DayToken(t) == Some(d) {
      if |t| == 1 {
        assert t == [DigitChar(d)];
      } else if t[0] == ' ' {
        assert t == [' ', DigitChar(d)];
      } else {
        assert t == Pad2(d);
      }
    }
  }

  /** `%Y-%m` accepts exactly the spellings of valid year-months, and reads each back to
      the year-month it spells. */
  lemma {:induction false} ParseYearMonthExact(s: string, t: YearMonth)
    ensures ParseYearMonth(s) == Some(t) <==> ValidYearMonth(t) && s in YearMonthSpellings(t)
  {
    if ParseYearMonth(s) == Some(t) {
      Year4Pad(s[..4], t.year);
      MonthTokenSpelling(s[5..], t.month);
      assert s == Pad4(t.year) + "-" + s[5..];
    }
    if ValidYearMonth(t) && s in YearMonthSpellings(t) {
      var ms :| ms in MonthSpellings(t.month) && s == Pad4(t.year) + "-" + ms;
      assert s[..4] == Pad4(t.year);
      assert s[5..] == ms;
      PadYear4(t.year);
      MonthTokenSpelling(ms, t.month);
    }
  }

  /** Formatting a valid year-month and parsing it back is the identity. */
  lemma ParseFormatYearMonth(t: YearMonth)
    requires ValidYearMonth(t)
    ensures ParseYearMonth(FormatYearMonth(t)) == Some(t)
  {
    ParseYearMonthExact(FormatYearMonth(t), t);
  }

  /** `%m/%d/%Y` accepts exactly the spellings of dates `datetime` can hold, and reads each
      back to the date it spells. */
  lemma {:induction false} ParseMonthDayYearExact(s: string, d: Date)
    ensures ParseMonthDayYear(s) == Some(d) <==> InDatetimeRange(d) && s in MonthDayYearSpellings(d)
  {
    if ParseMonthDayYear(s) == Some(d) {
      ParsedSpelling(s, d);
    }
    if InDatetimeRange(d) && s in MonthDayYearSpellings(d) {
      var ms, ds :| ms in MonthSpellings(d.month) && ds in DaySpellings(d.day) && s == ms + "/" + ds + "/" + Pad4(d.year);
      SpellingParses(s, d, ms, ds);
    }
  }

  lemma ParsedSpelling(s: string, d: Date)
    requires ParseMonthDayYear(s) == Some(d)
    ensures InDatetimeRange(d) && s in MonthDayYearSpellings(d)
  {
    var ml := if s[1] == '/' then 1 else 2;
    var dl := if s[ml + 2] == '/' then 1 else 2;
    assert |s| == ml + dl + 6 && s[ml] == '/' && s[ml + 1 + dl] == '/';
    var ms, ds, ys := s[..ml], s[ml + 1..ml + 1 + dl], s[ml + dl + 2..];
    assert MonthToken(ms) == Some(d.month) && DayToken(ds) == Some(d.day) && Year4(ys) == Some(d.year);
    MonthTokenSpelling(ms, d.month);
    DayTokenSpelling(ds, d.day);
    Year4Pad(ys, d.year);
    SplitAround(s, ml, ml + 1 + dl);
  }

  /** A text cut around two separator positions. */
  lemma SplitAround(s: string, i: nat, j: nat)
    requires i < j < |s|
    ensures s == s[..i] + [s[i]] + s[i + 1..j] + [s[j]] + s[j + 1..]
  {
    calc {
      s;
      s[..i] + s[i..];
      s[..i] + ([s[i]] + s[i + 1..]);
      s[..i] + ([s[i]] + (s[i + 1..j] + s[j..]));
      s[..i] + ([s[i]] + (s[i + 1..j] + ([s[j]] + s[j + 1..])));
    }
  }

  lemma SpellingParses(s: string, d: Date, ms: string, ds: string)
    requires InDatetimeRange(d)
    requires ms in MonthSpellings(d.month) && ds in DaySpellings(d.day)
    requires s == ms + "/" + ds + "/" + Pad4(d.year)
    ensures ParseMonthDayYear(s) == Some(d)
  {
    MonthTokenSpelling(ms, d.month);
    DayTokenSpelling(ds, d.day);
    PadYear4(d.year);
    var ml := |ms|;
    var dl := |ds|;
    assert s[..ml] == ms;
    assert s[ml + 1..ml + 1 + dl] == ds;
    assert s[ml + dl + 2..] == Pad4(d.year);
  }

  /** Formatting a date as `MM/DD/YYYY` and parsing it back is the identity. */
  lemma ParseFormatMonthDayYear(d: Date)
    requires InDatetimeRange(d)
    ensures ParseMonthDayYear(FormatMonthDayYear(d)) == Some(d)
  {
    SpellingParses(FormatMonthDayYear(d), d, Pad2(d.month), Pad2(d.day));
  }

  /** Examples: the zero-padded form is read, including February 29th of a leap year. */
  lemma ParseMonthDayYearExamples()
    ensures ParseMonthDayYear("01/15/2023") == Some(Date(2023, 1, 15))
    ensures ParseMonthDayYear("02/29/2024") == Some(Date(2024, 2, 29))
  {
    assert ParseMonthDayYear("01/15/2023") == Some(Date(2023, 1, 15)) by {
      var s := "01/15/2023";
      Digits4Value("2023");
      assert s[..2] == "01" && s[3..5] == "15" && s[6..] == "2023";
    }
    assert ParseMonthDayYear("02/29/2024") == Some(Date(2024, 2, 29)) by {
      var s := "02/29/2024";
      Digits4Value("2024");
      assert s[..2] == "02" && s[3..5] == "29" && s[6..] == "2024";
    }
  }

  /** Examples: the unpadded and the space-padded forms are read too. */
  lemma ParseMonthDayYearUnpadded()
    ensures ParseMonthDayYear("1/5/2023") == Some(Date(2023, 1, 5))
    ensures ParseMonthDayYear("12/ 5/2023") == Some(Date(2023, 12, 5))
  {
    assert ParseMonthDayYear("1/5/2023") == Some(Date(2023, 1, 5)) by {
      var s := "1/5/2023";
      Digits4Value("2023");
      assert s[..1] == "1" && s[2..3] == "5" && s[4..] == "2023";
    }
    assert ParseMonthDayYear("12/ 5/2023") == Some(Date(2023, 12, 5)) by {
      var s := "12/ 5/2023";
      Digits4Value("2023");
      assert s[..2] == "12" && s[3..5] == " 5" && s[6..] == "2023";
    }
  }

  /** Examples: an impossible day, year 0, a month above 12 and a two-digit year are
      rejected. */
  lemma ParseMonthDayYearRejects()
    ensures ParseMonthDayYear("02/29/2023") == None
    ensures ParseMonthDayYear("13/01/2023") == None
    ensures ParseMonthDayYear("01/01/0000") == None
    ensures ParseMonthDayYear("1/5/23") == None
  {
    assert ParseMonthDayYear("02/29/2023") == None by {
      var s := "02/29/2023";
      Digits4Value("2023");
      assert s[..2] == "02" && s[3..5] == "29" && s[6..] == "2023";
    }
    assert ParseMonthDayYear("13/01/2023") == None by {
      var s := "13/01/2023";
      assert s[..2] == "13";
    }
    assert ParseMonthDayYear("01/01/0000") == None by {
      var s := "01/01/0000";
      Digits4Value("0000");
      assert s[6..] == "0000";
    }
  }

  /** Examples: `%Y-%m` reads "2024-05" and "2024-5", and rejects a 13th month, a full
      date and a two-digit year. */
  lemma ParseYearMonthExamples()
    ensures ParseYearMonth("2024-05") == Some(YearMonth(2024, 5))
    ensures ParseYearMonth("2024-5") == Some(YearMonth(2024, 5))
    ensures ParseYearMonth("2024-13") == None
    ensures ParseYearMonth("2024-05-17") == None
    ensures ParseYearMonth("24-05") == None
    ensures ParseYearMonth("2023-01") == Some(YearMonth(2023, 1))
  {
    Digits4Value("2024");
    Digits4Value("2023");
    var a, b, c := "2024-05", "2024-5", "2023-01";
    assert a[..4] == "2024" && a[5..] == "05";
    assert b[..4] == "2024" && b[5..] == "5";
    assert c[..4] == "2023" && c[5..] == "01";
  }
}
