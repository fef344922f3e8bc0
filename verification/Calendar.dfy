/** Calendar dates as the program keeps them: `YYYY-MM-DD` text above the
    store, a day number (days since 0000-01-01, proleptic Gregorian) inside it. */
module Calendar {
  import opened Text

  datatype Civil = Civil(year: int, month: int, day: int)

  predicate IsLeap(y: int) {
    y % 4 == 0 && (y % 100 != 0 || y % 400 == 0)
  }

  function DaysIn(y: int, m: int): (d: int)
    requires 1 <= m <= 12
    ensures 28 <= d <= 31
  {
    if m == 2 then (if IsLeap(y) then 29 else 28)
    else if m == 4 || m == 6 || m == 9 || m == 11 then 30
    else 31
  }

  predicate Valid(c: Civil) {
    1 <= c.month <= 12 && 1 <= c.day <= DaysIn(c.year, c.month)
  }

  /** The rule of the calendar: the day after. Everything below is measured
      against this. */
  function Tomorrow(c: Civil): (t: Civil)
    requires Valid(c)
    ensures Valid(t)
  {
    if c.day < DaysIn(c.year, c.month) then Civil(c.year, c.month, c.day + 1)
    else if c.month < 12 then Civil(c.year, c.month + 1, 1)
    else Civil(c.year + 1, 1, 1)
  }

  // ----- day numbers --------------------------------------------------------

  function YearDays(y: int): (d: int)
    ensures 365 <= d <= 366
  {
    if IsLeap(y) then 366 else 365
  }

  /** Days from 0000-01-01 to the first day of year `y`, counted year by year. */
  function DaysBeforeYear(y: int): int
    decreases if y < 0 then -y else y
  {
    if y == 0 then 0
    else if y > 0 then DaysBeforeYear(y - 1) + YearDays(y - 1)
    else DaysBeforeYear(y + 1) - YearDays(y)
  }

  function DaysBeforeMonth(y: int, m: int): int
    requires 1 <= m <= 13
  {
    if m == 1 then 0 else DaysBeforeMonth(y, m - 1) + DaysIn(y, m - 1)
  }

  function DayNumber(c: Civil): int
    requires 1 <= c.month <= 12
  {
    DaysBeforeYear(c.year) + DaysBeforeMonth(c.year, c.month) + c.day - 1
  }

  lemma MultiplesBefore(y: int, k: int)
    requires k > 0
    ensures (y + 1 + (k - 1)) / k - (y + (k - 1)) / k == if y % k == 0 then 1 else 0
  {
    var q, r := y / k, y % k;
    assert y == k * q + r;
    if r == 0 {
      Quotient(y + k, k, q + 1, 0);
      Quotient(y + (k - 1), k, q, k - 1);
    } else {
      Quotient(y + k, k, q + 1, r);
      Quotient(y + (k - 1), k, q + 1, r - 1);
    }
  }

  lemma Quotient(n: int, k: int, q: int, r: int)
    requires k > 0 && 0 <= r < k && n == k * q + r
    ensures n / k == q && n % k == r
  {
    var d := n / k - q;
    assert k * d == r - n % k;
    assert d >= 1 ==> k * d >= k;
    assert d <= -1 ==> k * d <= -k;
  }

  lemma ClosedFormStep(y: int)
    ensures ClosedForm(y + 1) == ClosedForm(y) + YearDays(y)
  {
    MultiplesBefore(y, 4);
    MultiplesBefore(y, 100);
    MultiplesBefore(y, 400);
    if y % 400 == 0 { Quotient(y, 100, 4 * (y / 400), 0); }
    if y % 100 == 0 { Quotient(y, 4, 25 * (y / 100), 0); }
  }

  function ClosedForm(y: int): int {
    365 * y + (y + 3) / 4 - (y + 99) / 100 + (y + 399) / 400
  }

  /** The closed form: 365 a year, and one more per year divisible by 4, not
      by 100, again by 400. */
  lemma {:induction false} DaysBeforeYearIs(y: int)
    ensures DaysBeforeYear(y) == ClosedForm(y)
    decreases if y < 0 then -y else y
  {
    if y > 0 {
      DaysBeforeYearIs(y - 1);
      ClosedFormStep(y - 1);
    } else if y < 0 {
      DaysBeforeYearIs(y + 1);
      ClosedFormStep(y);
    }
  }

  lemma MonthsOfYear(y: int)
    ensures DaysBeforeMonth(y, 13) == YearDays(y)
  {
    var l := if IsLeap(y) then 1 else 0;
    assert DaysBeforeMonth(y, 2) == 31;
    assert DaysBeforeMonth(y, 3) == 59 + l;
    assert DaysBeforeMonth(y, 4) == 90 + l;
    assert DaysBeforeMonth(y, 5) == 120 + l;
    assert DaysBeforeMonth(y, 6) == 151 + l;
    assert DaysBeforeMonth(y, 7) == 181 + l;
    assert DaysBeforeMonth(y, 8) == 212 + l;
    assert DaysBeforeMonth(y, 9) == 243 + l;
    assert DaysBeforeMonth(y, 10) == 273 + l;
    assert DaysBeforeMonth(y, 11) == 304 + l;
    assert DaysBeforeMonth(y, 12) == 334 + l;
  }

  lemma TomorrowIsOneLater(c: Civil)
    requires Valid(c)
    ensures DayNumber(Tomorrow(c)) == DayNumber(c) + 1
  {
    if c.day == DaysIn(c.year, c.month) && c.month == 12 {
      MonthsOfYear(c.year);
      assert DaysBeforeMonth(c.year, 13) == DaysBeforeMonth(c.year, 12) + 31;
    }
  }

  lemma {:induction false} MonthsIncrease(y: int, m: int, k: int)
    requires 1 <= m <= k <= 13
    ensures DaysBeforeMonth(y, m) <= DaysBeforeMonth(y, k)
    ensures m < k ==> DaysBeforeMonth(y, m) + DaysIn(y, m) <= DaysBeforeMonth(y, k)
    decreases k
  {
    if m < k { MonthsIncrease(y, m, k - 1); }
  }

  lemma {:induction false} YearsIncrease(x: int, y: int)
    requires x < y
    ensures DaysBeforeYear(x) + YearDays(x) <= DaysBeforeYear(y)
    decreases y - x
  {
    if x < y - 1 { YearsIncrease(x, y - 1); }
  }

  predicate Earlier(a: Civil, b: Civil) {
    a.year < b.year || (a.year == b.year && (a.month < b.month || (a.month == b.month && a.day < b.day)))
  }

  lemma DayNumberInYear(c: Civil)
    requires Valid(c)
    ensures DaysBeforeYear(c.year) <= DayNumber(c) < DaysBeforeYear(c.year + 1)
  {
    MonthsIncrease(c.year, 1, c.month);
    MonthsIncrease(c.year, c.month, 13);
    MonthsOfYear(c.year);
  }

  lemma EarlierIsSmaller(a: Civil, b: Civil)
    requires Valid(a) && Valid(b) && Earlier(a, b)
    ensures DayNumber(a) < DayNumber(b)
  {
    if a.year < b.year {
      DayNumberInYear(a);
      DayNumberInYear(b);
      if a.year + 1 < b.year { YearsIncrease(a.year + 1, b.year); }
    } else if a.month < b.month {
      MonthsIncrease(a.year, a.month, b.month);
    }
  }

  /** Day numbers sort exactly as dates do. */
  lemma DayNumberOrder(a: Civil, b: Civil)
    requires Valid(a) && Valid(b)
    ensures Earlier(a, b) <==> DayNumber(a) < DayNumber(b)
    ensures a == b <==> DayNumber(a) == DayNumber(b)
  {
    if Earlier(a, b) { EarlierIsSmaller(a, b); }
    if Earlier(b, a) { EarlierIsSmaller(b, a); }
  }

  // ----- back from day numbers ----------------------------------------------

  /** 146097 days in 400 years give the year to within one. */
  function YearOf(n: int): (y: int)
    ensures DaysBeforeYear(y) <= n < DaysBeforeYear(y + 1)
  {
    var guess := 400 * n / 146097;
    GuessIsClose(n, guess);
    if n < DaysBeforeYear(guess) then guess - 1
    else if n < DaysBeforeYear(guess + 1) then guess
    else guess + 1
  }

  lemma GuessIsClose(n: int, guess: int)
    requires guess == 400 * n / 146097
    ensures DaysBeforeYear(guess - 1) <= n < DaysBeforeYear(guess + 2)
  {
    DaysBeforeYearIs(guess - 1);
    DaysBeforeYearIs(guess + 2);
    assert ClosedForm(guess - 1) <= n < ClosedForm(guess + 2);
  }

  function MonthDay(y: int, m: int, rest: int): (c: Civil)
    requires 1 <= m <= 12 && 0 <= rest < DaysBeforeMonth(y, 13) - DaysBeforeMonth(y, m)
    ensures Valid(c) && c.year == y && DaysBeforeMonth(y, c.month) + c.day - 1 == DaysBeforeMonth(y, m) + rest
    decreases 12 - m
  {
    if rest < DaysIn(y, m) then Civil(y, m, rest + 1)
    else MonthDay(y, m + 1, rest - DaysIn(y, m))
  }

  function CivilOf(n: int): (c: Civil)
    ensures Valid(c) && DayNumber(c) == n
  {
    var y := YearOf(n);
    MonthsOfYear(y);
    MonthDay(y, 1, n - DaysBeforeYear(y))
  }

  lemma CivilOfDayNumber(c: Civil)
    requires Valid(c)
    ensures CivilOf(DayNumber(c)) == c
  {
    DayNumberOrder(CivilOf(DayNumber(c)), c);
  }

  // ----- text ---------------------------------------------------------------

  function YearText(y: int): string {
    if 0 <= y < 10000 then Digits(y, 4)
    else if y >= 10000 then Decimal(y)
    else if y > -10000 then "-" + Digits(-y, 4)
    else "-" + Decimal(-y)
  }

  /** time.Format("2006-01-02"), for any year. */
  function Format(c: Civil): string
    requires Valid(c)
  {
    YearText(c.year) + ("-" + Digits(c.month, 2) + "-" + Digits(c.day, 2))
  }

  /** time.Parse("2006-01-02"): four, two and two digits, a real date, no more. */
  function Parse(s: string): (r: Option<Civil>)
    ensures r.Some? ==> Valid(r.value) && 0 <= r.value.year < 10000
  {
    if |s| == 10 && AllDigits(s[..4]) && s[4] == '-' && AllDigits(s[5..7]) && s[7] == '-' && AllDigits(s[8..]) then
      ValueDigits(s[..4]);
      assert Pow10(4) == 10000;
      var c := Civil(Value(s[..4]), Value(s[5..7]), Value(s[8..]));
      if Valid(c) then Some(c) else None
    else None
  }

  const LIMIT := 3652425

  /** Representable as YYYY-MM-DD: years 0000 to 9999. */
  predicate InRange(n: int) {
    0 <= n < LIMIT
  }

  lemma InRangeIsYear(c: Civil)
    requires Valid(c)
    ensures InRange(DayNumber(c)) <==> 0 <= c.year < 10000
  {
    DayNumberInYear(c);
    DaysBeforeYearIs(c.year);
    DaysBeforeYearIs(c.year + 1);
    assert ClosedForm(c.year) >= LIMIT <==> c.year >= 10000;
    assert ClosedForm(c.year + 1) <= 0 <==> c.year < 0;
    assert ClosedForm(c.year) >= 0 <==> c.year >= 0;
    assert ClosedForm(c.year + 1) <= LIMIT <==> c.year < 10000;
  }

  lemma ParseDigits(y: nat, m: nat, d: nat)
    requires y < 10000 && m < 100 && d < 100
    ensures var s := Digits(y, 4) + ("-" + Digits(m, 2) + "-" + Digits(d, 2));
            Parse(s) == if Valid(Civil(y, m, d)) then Some(Civil(y, m, d)) else None
  {
    assert Pow10(4) == 10000 && Pow10(2) == 100;
    var ys, ms, ds := Digits(y, 4), Digits(m, 2), Digits(d, 2);
    DigitsValue(y, 4);
    DigitsValue(m, 2);
    DigitsValue(d, 2);
    hide Digits, Value, Pow10, Valid;
    var s := ys + ("-" + ms + "-" + ds);
    assert s[..4] == ys && s[5..7] == ms && s[8..] == ds && s[4] == '-' && s[7] == '-';
  }

  lemma ParseFormat(c: Civil)
    requires Valid(c)
    ensures Parse(Format(c)) == if 0 <= c.year < 10000 then Some(c) else None
  {
    if 0 <= c.year < 10000 {
      ParseDigits(c.year, c.month, c.day);
      hide Digits, Parse;
    } else {
      ParseLongYear(c);
    }
  }

  /** Four digits, two and two, with dashes between. */
  lemma DateText(c: Civil)
    requires Valid(c) && 0 <= c.year < 10000
    ensures var s := Format(c);
            && |s| == 10 && s[4] == '-' && s[7] == '-'
            && AllDigits(s[..4]) && AllDigits(s[5..7]) && AllDigits(s[8..])
            && Value(s[..4]) == c.year && Value(s[5..7]) == c.month && Value(s[8..]) == c.day
  {
    ParseFormat(c);
    hide Format, Value;
  }

  lemma ParseLongYear(c: Civil)
    requires Valid(c) && !(0 <= c.year < 10000)
    ensures Parse(Format(c)) == None
  {
    var s := Format(c);
    if c.year >= 10000 {
      assert Pow10(4) == 10000;
      DecimalLong(c.year, 4);
      assert IsDigit(Decimal(c.year)[4]) && s[4] == Decimal(c.year)[4];
    } else {
      assert s[0] == '-';
      if |s| == 10 { assert s[..4][0] == '-'; }
    }
  }

  /** A date that parses prints back unchanged. */
  lemma FormatParse(s: string)
    requires Parse(s).Some?
    ensures Format(Parse(s).value) == s
  {
    var c := Parse(s).value;
    var y, m, d := s[..4], s[5..7], s[8..];
    assert c == Civil(Value(y), Value(m), Value(d)) && s[4] == '-' && s[7] == '-';
    hide Parse, Valid;
    ValueDigits(y);
    ValueDigits(m);
    ValueDigits(d);
    assert Format(c) == y + ("-" + m + "-" + d) by { hide Value, Digits; }
    hide *;
    TenCharacters(s);
  }

  lemma TenCharacters(s: string)
    requires |s| == 10 && s[4] == '-' && s[7] == '-'
    ensures s == s[..4] + ("-" + s[5..7] + "-" + s[8..])
  {
  }

  lemma YearTextInjective(x: int, y: int)
    requires YearText(x) == YearText(y)
    ensures x == y
  {
    if x < 0 || y < 0 { assert YearText(x)[0] == YearText(y)[0]; }
    assert Pow10(4) == 10000;
    var a, b := if x < 0 then -x else x, if y < 0 then -y else y;
    if x < 0 { assert YearText(x)[1..] == if a < 10000 then Digits(a, 4) else Decimal(a); }
    if y < 0 { assert YearText(y)[1..] == if b < 10000 then Digits(b, 4) else Decimal(b); }
    if a < 10000 { DigitsValue(a, 4); } else { DecimalValue(a); }
    if b < 10000 { DigitsValue(b, 4); } else { DecimalValue(b); }
  }

  lemma FormatInjective(a: Civil, b: Civil)
    requires Valid(a) && Valid(b) && Format(a) == Format(b)
    ensures a == b
  {
    var s, t := Format(a), Format(b);
    assert Pow10(2) == 100;
    assert s[..|s| - 6] == YearText(a.year) && t[..|t| - 6] == YearText(b.year);
    YearTextInjective(a.year, b.year);
    assert s[|s| - 5..|s| - 3] == Digits(a.month, 2) && t[|t| - 5..|t| - 3] == Digits(b.month, 2);
    assert s[|s| - 2..] == Digits(a.day, 2) && t[|t| - 2..] == Digits(b.day, 2);
    DigitsOrder(a.month, b.month, 2);
    DigitsOrder(a.day, b.day, 2);
  }

  lemma FormatOrder(x: Civil, y: Civil)
    requires Valid(x) && Valid(y) && 0 <= x.year < 10000 && 0 <= y.year < 10000
    ensures LexLt(Format(x), Format(y)) <==> Earlier(x, y)
  {
    assert Pow10(4) == 10000 && Pow10(2) == 100;
    var mx, my := Digits(x.month, 2), Digits(y.month, 2);
    var dx, dy := Digits(x.day, 2), Digits(y.day, 2);
    DigitsOrder(x.year, y.year, 4);
    DigitsOrder(x.month, y.month, 2);
    DigitsOrder(x.day, y.day, 2);
    LexConcat(YearText(x.year), YearText(y.year), "-" + mx + "-" + dx, "-" + my + "-" + dy);
    assert "-" + mx + "-" + dx == ("-" + mx) + ("-" + dx) && "-" + my + "-" + dy == ("-" + my) + ("-" + dy);
    LexConcat("-" + mx, "-" + my, "-" + dx, "-" + dy);
    LexConcat("-", "-", mx, my);
    LexConcat("-", "-", dx, dy);
    assert !LexLt("-", "-");
    if mx == my { assert "-" + mx == "-" + my; }
    if "-" + mx == "-" + my { assert ("-" + mx)[1..] == mx && ("-" + my)[1..] == my; }
  }

  function DayOf(d: string): int
    requires Parse(d).Some?
  {
    DayNumber(Parse(d).value)
  }

  /** String order of YYYY-MM-DD is calendar order. */
  lemma DateOrder(a: string, b: string)
    requires Parse(a).Some? && Parse(b).Some?
    ensures LexLt(a, b) <==> DayOf(a) < DayOf(b)
    ensures LexLe(a, b) <==> DayOf(a) <= DayOf(b)
  {
    hide Parse, Format, DayNumber, LexLt, Earlier;
    FormatParse(a);
    FormatParse(b);
    DayNumberOrder(Parse(a).value, Parse(b).value);
    FormatOrder(Parse(a).value, Parse(b).value);
  }

  // ----- srs.Date.AddDays ---------------------------------------------------

  /** The text of a day number. */
  function FromTime(t: int): string {
    Format(CivilOf(t))
  }

  /** The date `n` days later; text that is no date returns itself. */
  function AddDays(d: string, n: int): string {
    if Parse(d).Some? then FromTime(DayOf(d) + n) else d
  }

  lemma FromTimeParse(k: int)
    ensures Parse(FromTime(k)).Some? <==> InRange(k)
    ensures InRange(k) ==> DayOf(FromTime(k)) == k
    ensures FromTime(k) != ""
  {
    InRangeIsYear(CivilOf(k));
    ParseFormat(CivilOf(k));
  }

  lemma FromTimeInjective(j: int, k: int)
    requires FromTime(j) == FromTime(k)
    ensures j == k
  {
    FormatInjective(CivilOf(j), CivilOf(k));
  }

  lemma FromTimeDayOf(d: string)
    requires Parse(d).Some?
    ensures FromTime(DayOf(d)) == d && InRange(DayOf(d))
  {
    FormatParse(d);
    CivilOfDayNumber(Parse(d).value);
    InRangeIsYear(Parse(d).value);
  }

  lemma AddDaysIs(d: string, n: int)
    requires Parse(d).Some?
    ensures AddDays(d, n) == FromTime(DayOf(d) + n)
  {
    hide Parse, DayNumber, FromTime;
  }

  lemma AddDaysOfNoDate(d: string, n: int)
    requires Parse(d).None?
    ensures AddDays(d, n) == d
  {
    hide Parse, DayNumber, FromTime;
  }

  lemma AddOneDayIsTomorrow(d: string)
    requires Parse(d).Some?
    ensures AddDays(d, 1) == Format(Tomorrow(Parse(d).value))
  {
    hide Parse, Format, CivilOf, DayNumber, Tomorrow;
    TomorrowIsOneLater(Parse(d).value);
    CivilOfDayNumber(Tomorrow(Parse(d).value));
  }

  /** The result is a date again, with the right day number, exactly while
      the year still has four digits. */
  lemma AddDaysDate(d: string, n: int)
    requires Parse(d).Some?
    ensures Parse(AddDays(d, n)).Some? <==> InRange(DayOf(d) + n)
    ensures InRange(DayOf(d) + n) ==> DayOf(AddDays(d, n)) == DayOf(d) + n
  {
    hide *;
    AddDaysIs(d, n);
    FromTimeParse(DayOf(d) + n);
  }

  /** Strictly increasing in `n`, as text, while results stay in range. */
  lemma AddDaysMonotone(d: string, m: int, n: int)
    requires Parse(d).Some? && InRange(DayOf(d) + m) && InRange(DayOf(d) + n)
    ensures LexLt(AddDays(d, m), AddDays(d, n)) <==> m < n
  {
    hide *;
    AddDaysDate(d, m);
    AddDaysDate(d, n);
    DateOrder(AddDays(d, m), AddDays(d, n));
  }

  /** Adding in two steps is adding once, exactly when the intermediate date
      is representable (or the second step adds nothing). */
  lemma AddDaysCompose(d: string, m: int, n: int)
    requires Parse(d).Some?
    ensures AddDays(AddDays(d, m), n) == AddDays(d, m + n) <==> InRange(DayOf(d) + m) || n == 0
  {
    hide *;
    var k := DayOf(d) + m;
    AddDaysIs(d, m);
    AddDaysIs(d, m + n);
    assert DayOf(d) + (m + n) == k + n;
    FromTimeParse(k);
    if InRange(k) {
      AddDaysIs(AddDays(d, m), n);
    } else {
      AddDaysOfNoDate(AddDays(d, m), n);
      if n != 0 && FromTime(k) == FromTime(k + n) { FromTimeInjective(k, k + n); }
    }
  }

  /** Past 9999 the text order breaks: the day after the last sorts first. */
  lemma OrderBreaksAfter9999()
    ensures var last := Format(Civil(9999, 12, 31));
            AddDays(last, 1) == Format(Civil(10000, 1, 1)) && LexLt(AddDays(last, 1), last)
  {
    var c := Civil(9999, 12, 31);
    ParseFormat(c);
    AddOneDayIsTomorrow(Format(c));
    FirstDigits();
    assert Format(c)[0] == Digits(9999, 4)[0];
    assert Format(Civil(10000, 1, 1))[0] == Decimal(10000)[0];
  }

  /** The first four digits of a year. */
  function FourDigits(y: int): (n: int)
    ensures n < 10000 && (y >= 0 ==> n >= 0)
  {
    if y < 10000 then y else FourDigits(y / 10)
  }

  lemma TenOrMore(w: nat)
    ensures w > 0 ==> Pow10(w) >= 10
  {
  }

  lemma {:induction false} DecimalIsDigits(n: nat, w: nat)
    requires w > 0 && Pow10(w - 1) <= n < Pow10(w)
    ensures Decimal(n) == Digits(n, w)
  {
    if n < 10 {
      TenOrMore(w - 1);
      assert Digits(n, 1) == Digits(n / 10, 0) + [DigitChar(n)];
    } else {
      DecimalIsDigits(n / 10, w - 1);
    }
  }

  lemma {:induction false} LongYearStarts(y: nat)
    requires y >= 10000
    ensures |Decimal(y)| >= 5 && Decimal(y)[..4] == Digits(FourDigits(y), 4)
  {
    if y < 100000 {
      assert Pow10(3) == 1000 && Pow10(4) == 10000;
      DecimalIsDigits(y / 10, 4);
      hide Digits;
      assert Decimal(y)[..4] == Decimal(y / 10);
    } else {
      LongYearStarts(y / 10);
      assert Decimal(y)[..4] == Decimal(y / 10)[..4];
    }
  }

  /** A date and one past the year 9999, as text: decided by the year against
      the first four digits of the long one. */
  lemma AgainstLongYear(a: Civil, b: Civil)
    requires Valid(a) && Valid(b) && 0 <= a.year < 10000 <= b.year
    ensures LexLt(Format(a), Format(b)) <==> a.year <= FourDigits(b.year)
  {
    var long := Decimal(b.year);
    LongYearStarts(b.year);
    assert Pow10(4) == 10000;
    DigitsOrder(a.year, FourDigits(b.year), 4);
    var p, q := Digits(a.year, 4), Digits(FourDigits(b.year), 4);
    assert IsDigit(long[4]);
    var x := "-" + Digits(a.month, 2) + "-" + Digits(a.day, 2);
    var y := "-" + Digits(b.month, 2) + "-" + Digits(b.day, 2);
    assert Format(a) == p + x && Format(b) == long + y;
    hide Digits, Decimal, Format, FourDigits, Valid;
    Regrouped(long, y);
    LexConcat(p, q, x, long[4..] + y);
    assert x[0] == '-' && (long[4..] + y)[0] == long[4];
  }

  lemma Regrouped(long: string, y: string)
    requires |long| >= 5
    ensures long + y == long[..4] + (long[4..] + y)
  {
  }

  /** A date and one before the year 0000, as text: the minus sign sorts first. */
  lemma AgainstNegativeYear(a: Civil, b: Civil)
    requires Valid(a) && Valid(b) && b.year < 0 <= a.year < 10000
    ensures LexLt(Format(b), Format(a))
  {
    assert Format(b)[0] == '-' && IsDigit(Format(a)[0]) by { hide Decimal; }
    hide Format;
  }

  /** When adding days and comparing text agree: exactly when the step goes
      back, or stays in range, or lands in a year whose first four digits are
      not below the year it started from. */
  lemma OrderKeptIff(d: string, n: int)
    requires Parse(d).Some?
    ensures var k := DayOf(d) + n;
            (LexLt(d, AddDays(d, n)) <==> n > 0)
            <==> n <= 0 || InRange(k) || Parse(d).value.year <= FourDigits(CivilOf(k).year)
  {
    var k := DayOf(d) + n;
    FromTimeDayOf(d);
    FormatParse(d);
    InRangeIsYear(Parse(d).value);
    AddDaysIs(d, n);
    AgainstAnyYear(Parse(d).value, CivilOf(k));
    hide Parse, Format, AddDays, CivilOf, Valid, DayNumber, FourDigits, LexLt;
    if !InRange(k) { YearOutside(CivilOf(k)); }
  }

  lemma AgainstAnyYear(a: Civil, b: Civil)
    requires Valid(a) && Valid(b) && 0 <= a.year < 10000
    ensures LexLt(Format(a), Format(b)) <==>
            if InRange(DayNumber(b)) then DayNumber(a) < DayNumber(b)
            else b.year >= 10000 && a.year <= FourDigits(b.year)
  {
    InRangeIsYear(b);
    LexTotal(Format(a), Format(b));
    hide Format, LexLt, DayNumber, FourDigits, Valid, InRange, Earlier;
    if b.year < 0 {
      AgainstNegativeYear(a, b);
    } else if b.year >= 10000 {
      AgainstLongYear(a, b);
    } else {
      FormatOrder(a, b);
      DayNumberOrder(a, b);
    }
  }

  lemma YearOutside(b: Civil)
    requires Valid(b) && !InRange(DayNumber(b))
    ensures if DayNumber(b) < 0 then b.year < 0 else b.year >= 10000
  {
    InRangeIsYear(b);
    DayNumberInYear(b);
    DaysBeforeYearIs(b.year);
    DaysBeforeYearIs(b.year + 1);
    assert ClosedForm(b.year + 1) <= 0 <==> b.year < 0;
    hide DayNumber, Valid, DaysBeforeYear;
  }

  /** So the scheduler's own steps keep the order exactly while their results
      have four-digit years. */
  lemma ShortStepKeepsOrderIff(d: string, n: int)
    requires Parse(d).Some? && 0 < n <= 365
    ensures LexLt(d, AddDays(d, n)) <==> InRange(DayOf(d) + n)
  {
    var k := DayOf(d) + n;
    OrderKeptIff(d, n);
    FromTimeDayOf(d);
    var a, b := Parse(d).value, CivilOf(k);
    hide *;
    if !InRange(k) { AcrossTheEnd(a, b); }
  }

  lemma AcrossTheEnd(a: Civil, b: Civil)
    requires Valid(a) && Valid(b) && InRange(DayNumber(a)) && !InRange(DayNumber(b))
    requires 0 < DayNumber(b) - DayNumber(a) <= 365
    ensures a.year > FourDigits(b.year)
  {
    hide DayNumber, Valid;
    LastYear(a);
    FirstLongYear(b);
    assert FourDigits(10000) == FourDigits(1000) == 1000;
  }

  lemma LastYear(a: Civil)
    requires Valid(a) && LIMIT - 365 <= DayNumber(a) < LIMIT
    ensures a.year == 9999
  {
    InRangeIsYear(a);
    DayNumberInYear(a);
    DaysBeforeYearIs(9999);
    if a.year < 9999 { YearsIncrease(a.year, 9999); }
    hide DayNumber, Valid;
  }

  lemma FirstLongYear(b: Civil)
    requires Valid(b) && LIMIT <= DayNumber(b) < LIMIT + 365
    ensures b.year == 10000
  {
    InRangeIsYear(b);
    YearOutside(b);
    DayNumberInYear(b);
    DaysBeforeYearIs(10001);
    if b.year > 10001 { YearsIncrease(10001, b.year); }
    hide DayNumber, Valid;
  }

  lemma FirstDigits()
    ensures Digits(9999, 4)[0] == '9' && Decimal(10000)[0] == '1'
  {
    assert Digits(9999, 4)[0] == Digits(999, 3)[0] == Digits(99, 2)[0] == Digits(9, 1)[0];
    assert Decimal(10000)[0] == Decimal(1000)[0] == Decimal(100)[0] == Decimal(10)[0] == Decimal(1)[0];
  }

  // ----- the store's four conversions ---------------------------------------

  datatype Result<+T> = Ok(value: T) | Err

  function ToTime(d: string): (r: Result<int>)
    ensures r.Ok? ==> InRange(r.value)
  {
    if Parse(d).Some? then FromTimeDayOf(d); Ok(DayOf(d)) else Err
  }

  function ToTimePtr(d: string): (r: Result<Option<int>>)
    ensures r.Ok? && r.value.Some? ==> InRange(r.value.value)
  {
    if d == "" then Ok(None)
    else match ToTime(d)
      case Err => Err
      case Ok(t) => Ok(Some(t))
  }

  function FromTimePtr(t: Option<int>): string {
    match t case None => "" case Some(day) => FromTime(day)
  }

  /** Text to column and back is lossless in both directions. */
  lemma TimeRoundTrips(d: string, t: int)
    ensures ToTime(d).Ok? <==> Parse(d).Some?
    ensures ToTime(d).Ok? ==> FromTime(ToTime(d).value) == d
    ensures ToTime(FromTime(t)) == if InRange(t) then Ok(t) else Err
    ensures FromTime(t) != ""
  {
    hide Parse, DayOf, FromTime, InRange;
    if Parse(d).Some? { FromTimeDayOf(d); }
    FromTimeParse(t);
  }

  /** The same for a nullable column: the empty date is NULL. */
  lemma ColumnRoundTrips(d: string, t: Option<int>)
    ensures ToTimePtr(d).Ok? ==> FromTimePtr(ToTimePtr(d).value) == d
    ensures ToTimePtr(FromTimePtr(t)) == (if t.Some? && !InRange(t.value) then Err else Ok(t))
  {
    hide ToTime, FromTime, InRange;
    TimeRoundTrips(d, if t.Some? then t.value else 0);
  }

  lemma FromTimeOrder(a: int, b: int)
    requires InRange(a) && InRange(b)
    ensures LexLt(FromTime(a), FromTime(b)) <==> a < b
    ensures LexLe(FromTime(a), FromTime(b)) <==> a <= b
  {
    hide *;
    FromTimeParse(a);
    FromTimeParse(b);
    DateOrder(FromTime(a), FromTime(b));
  }
}
