/** Rescheduling suggestions for the classes a holiday overlaps
    (backend/scheduler.py). When a holiday is created or edited, its old
    suggestions are deleted and one suggestion is inserted for every class
    of the same academic year whose date falls inside the holiday,
    both bounds included.

    Dates reach this code as ISO `YYYY-MM-DD` text or as date objects; the
    model parses the text into a proleptic Gregorian calendar date and
    compares day numbers. */
module HolidaySuggestions {
  import opened Common

  // ---------------------------------------------------------------------
  // Calendar dates and their ISO text
  // ---------------------------------------------------------------------

  datatype CivilDate = CivilDate(year: int, month: int, day: int)

  predicate IsLeap(y: int)
  {
    y % 4 == 0 && (y % 100 != 0 || y % 400 == 0)
  }

  function DaysInMonth(y: int, m: int): int
    requires 1 <= m <= 12
  {
    if m == 2 then (if IsLeap(y) then 29 else 28)
    else if m == 4 || m == 6 || m == 9 || m == 11 then 30
    else 31
  }

  /** The dates Python's `date` can hold. */
  predicate ValidDate(c: CivilDate)
  {
    1 <= c.year <= 9999 && 1 <= c.month <= 12 && 1 <= c.day <= DaysInMonth(c.year, c.month)
  }

  /** Days in the year before the first of month `m`. */
  function DaysBeforeMonth(y: int, m: int): int
    requires 1 <= m <= 12
  {
    [0, 31, 59, 90, 120, 151, 181, 212, 243, 273, 304, 334][m - 1] + (if m > 2 && IsLeap(y) then 1 else 0)
  }

  function YearLength(y: int): int
  {
    if IsLeap(y) then 366 else 365
  }

  function DaysBeforeYear(y: int): int
    requires y >= 1
  {
    if y == 1 then 0 else DaysBeforeYear(y - 1) + YearLength(y - 1)
  }

  /** `date.toordinal() - 1`: days since 0001-01-01. */
  function DayNumber(c: CivilDate): Day
    requires ValidDate(c)
  {
    DaysBeforeYear(c.year) + DaysBeforeMonth(c.year, c.month) + c.day - 1
  }

  /** Each month ends where the next begins, and December ends the year. */
  lemma MonthsTile(y: int, m: int)
    requires 1 <= m <= 12
    ensures m < 12 ==> DaysBeforeMonth(y, m) + DaysInMonth(y, m) == DaysBeforeMonth(y, m + 1)
    ensures m == 12 ==> DaysBeforeMonth(y, m) + DaysInMonth(y, m) == YearLength(y)
  {
  }

  lemma {:induction false} DaysBeforeMonthMonotone(y: int, m: int, m': int)
    requires 1 <= m < m' <= 12
    ensures DaysBeforeMonth(y, m) + DaysInMonth(y, m) <= DaysBeforeMonth(y, m')
  {
    MonthsTile(y, m' - 1);
    if m' > m + 1 {
      DaysBeforeMonthMonotone(y, m, m' - 1);
    }
  }

  lemma DaysBeforeMonthBound(y: int, m: int)
    requires 1 <= m <= 12
    ensures DaysBeforeMonth(y, m) + DaysInMonth(y, m) <= YearLength(y)
  {
    MonthsTile(y, 12);
    if m < 12 {
      DaysBeforeMonthMonotone(y, m, 12);
    }
  }

  lemma {:induction false} DaysBeforeYearMonotone(y: int, y': int)
    requires 1 <= y < y'
    ensures DaysBeforeYear(y) + YearLength(y) <= DaysBeforeYear(y')
  {
    if y' > y + 1 {
      DaysBeforeYearMonotone(y, y' - 1);
    }
  }

  /** Day numbers follow the calendar: a date earlier in (year, month,
      day) order has a smaller day number. This is why comparing ISO
      strings, day numbers or dates gives one answer. */
  lemma DayNumberMonotone(a: CivilDate, b: CivilDate)
    requires ValidDate(a) && ValidDate(b)
    requires a.year < b.year || (a.year == b.year && a.month < b.month)
      || (a.year == b.year && a.month == b.month && a.day < b.day)
    ensures DayNumber(a) < DayNumber(b)
  {
    DaysBeforeMonthBound(a.year, a.month);
    if a.year < b.year {
      DaysBeforeYearMonotone(a.year, b.year);
    } else if a.month < b.month {
      DaysBeforeMonthMonotone(a.year, a.month, b.month);
    }
  }

  predicate IsDigit(c: char)
  {
    '0' <= c <= '9'
  }

  /** The last `w` decimal digits of `n`, zero-padded: `f"{n:0{w}d}"` for
      `n < 10^w`. */
  function Digits(n: nat, w: nat): (s: string)
    ensures |s| == w
    ensures forall i :: 0 <= i < |s| ==> IsDigit(s[i])
  {
    if w == 0 then [] else Digits(n / 10, w - 1) + [DigitChar(n % 10)]
  }

  /** The value of a run of decimal digits. */
  function ParseDigits(s: string): nat
    requires forall i :: 0 <= i < |s| ==> IsDigit(s[i])
  {
    if s == [] then 0
    else
      assert IsDigit(s[|s| - 1]);
      10 * ParseDigits(s[..|s| - 1]) + (s[|s| - 1] as int - '0' as int)
  }

  lemma {:induction false} ParseDigitsOfDigits(n: nat, w: nat)
    ensures ParseDigits(Digits(n, w)) == n % Pow10(w)
  {
    if w > 0 {
      var s := Digits(n, w);
      assert s[..w - 1] == Digits(n / 10, w - 1);
      ParseDigitsOfDigits(n / 10, w - 1);
      ModSplit(n, Pow10(w - 1));
    }
  }

  /** `n % (10 p) == 10 (n / 10 % p) + n % 10`. */
  lemma ModSplit(n: nat, p: nat)
    requires p >= 1
    ensures n % (10 * p) == 10 * ((n / 10) % p) + n % 10
  {
    var q := n / 10;
    var r := n % 10;
    var a := q / p;
    var b := q % p;
    assert n == (10 * p) * a + (10 * b + r) by {
      assert n == 10 * q + r;
      assert q == p * a + b;
    }
    ModUnique(n, 10 * p, a, 10 * b + r);
  }

  /** The remainder is the one `r` with `n == d q + r` and `0 <= r < d`. */
  lemma ModUnique(n: nat, d: nat, q: nat, r: nat)
    requires d >= 1 && n == d * q + r && r < d
    ensures n % d == r
  {
    var q', r' := n / d, n % d;
    assert n == d * q' + r';
    if q' > q {
      assert d * q' >= d * (q + 1) by { MulMonotone(d, q + 1, q'); }
    } else if q' < q {
      assert d * q >= d * (q' + 1) by { MulMonotone(d, q' + 1, q); }
    }
  }

  lemma MulMonotone(d: nat, x: nat, y: nat)
    requires x <= y
    ensures d * x <= d * y
  {
  }

  lemma {:induction false} DigitsOfParseDigits(s: string)
    requires forall i :: 0 <= i < |s| ==> IsDigit(s[i])
    ensures ParseDigits(s) < Pow10(|s|)
    ensures Digits(ParseDigits(s), |s|) == s
  {
    if s != [] {
      var init := s[..|s| - 1];
      DigitsOfParseDigits(init);
      var n := ParseDigits(s);
      var d := s[|s| - 1] as int - '0' as int;
      assert n / 10 == ParseDigits(init) && n % 10 == d;
      assert DigitChar(d) == s[|s| - 1];
      assert s == init + [s[|s| - 1]];
    }
  }

  /** `date.isoformat()`. */
  function FormatIso(c: CivilDate): (s: string)
    requires ValidDate(c)
    ensures |s| == 10
  {
    Digits(c.year, 4) + "-" + Digits(c.month, 2) + "-" + Digits(c.day, 2)
  }

  predicate IsoShape(s: string)
  {
    |s| == 10 && s[4] == '-' && s[7] == '-' &&
    (forall i :: 0 <= i < 10 && i != 4 && i != 7 ==> IsDigit(s[i]))
  }

  /** `date.fromisoformat` on `YYYY-MM-DD`: the text must have that shape
      and name a real date. */
  function ParseIso(s: string): (r: Option<CivilDate>)
    ensures r.Some? ==> ValidDate(r.value)
  {
    if !IsoShape(s) then None
    else
      assert forall i :: 0 <= i < 4 ==> s[..4][i] == s[i];
      assert forall i :: 0 <= i < 2 ==> s[5..7][i] == s[5 + i] && s[8..10][i] == s[8 + i];
      var c := CivilDate(ParseDigits(s[..4]), ParseDigits(s[5..7]), ParseDigits(s[8..10]));
      if ValidDate(c) then Some(c) else None
  }

  lemma FormatIsoFields(c: CivilDate)
    requires ValidDate(c)
    ensures var s := FormatIso(c);
      && IsoShape(s)
      && s[..4] == Digits(c.year, 4) && s[5..7] == Digits(c.month, 2) && s[8..10] == Digits(c.day, 2)
  {
    var s := FormatIso(c);
    var y, m, d := Digits(c.year, 4), Digits(c.month, 2), Digits(c.day, 2);
    assert s == y + "-" + m + "-" + d;
    forall i | 0 <= i < 10 && i != 4 && i != 7 ensures IsDigit(s[i]) {
      if i < 4 {
        assert s[i] == y[i];
      } else if i < 7 {
        assert s[i] == m[i - 5];
      } else {
        assert s[i] == d[i - 8];
      }
    }
  }

  lemma DigitsRoundTrip(n: nat, w: nat)
    requires n < Pow10(w)
    ensures ParseDigits(Digits(n, w)) == n
  {
    ParseDigitsOfDigits(n, w);
  }

  /** Formatting a date and parsing the text gives the date back. */
  lemma ParseFormatIso(c: CivilDate)
    requires ValidDate(c)
    ensures ParseIso(FormatIso(c)) == Some(c)
  {
    FormatIsoFields(c);
    assert Pow10(4) == 10000 && Pow10(2) == 100;
    DigitsRoundTrip(c.year, 4);
    DigitsRoundTrip(c.month, 2);
    DigitsRoundTrip(c.day, 2);
  }

  /** Text that parses is exactly the ISO form of the date it names. */
  lemma FormatParseIso(s: string)
    requires ParseIso(s).Some?
    ensures FormatIso(ParseIso(s).value) == s
  {
    var y, m, d := s[..4], s[5..7], s[8..10];
    assert forall i :: 0 <= i < 4 ==> y[i] == s[i];
    assert forall i :: 0 <= i < 2 ==> m[i] == s[5 + i] && d[i] == s[8 + i];
    var c := ParseIso(s).value;
    assert c == CivilDate(ParseDigits(y), ParseDigits(m), ParseDigits(d));
    DigitsOfParseDigits(y);
    DigitsOfParseDigits(m);
    DigitsOfParseDigits(d);
    assert FormatIso(c) == y + "-" + m + "-" + d;
    assert s == y + "-" + m + "-" + d;
  }

  // ---------------------------------------------------------------------
  // _coerce_date
  // ---------------------------------------------------------------------

  /** A value read from a date column: a date object (its day number),
      text, or anything else. */
  datatype DateValue = DateObject(day: Day) | Text(text: string) | OtherValue

  datatype CoerceError = InvalidIsoDate(text: string) | UnsupportedDateValue

  /** `_coerce_date`: dates pass unchanged, text is parsed, any other value
      is a type error. */
  function CoerceDate(v: DateValue): (r: Result<Day, CoerceError>)
    ensures v.DateObject? ==> r == Ok(v.day)
    ensures v.Text? ==> (r.Ok? <==> ParseIso(v.text).Some?)
    ensures v.Text? && r.Err? ==> r.error == InvalidIsoDate(v.text)
    ensures v.OtherValue? ==> r == Err(UnsupportedDateValue)
  {
    match v
    case DateObject(d) => Ok(d)
    case Text(s) =>
      var c := ParseIso(s);
      if c.Some? then Ok(DayNumber(c.value)) else Err(InvalidIsoDate(s))
    case OtherValue => Err(UnsupportedDateValue)
  }

  /** A date stored as its ISO text coerces to the same day as the date
      object itself. */
  lemma CoerceIsoText(c: CivilDate)
    requires ValidDate(c)
    ensures CoerceDate(Text(FormatIso(c))) == CoerceDate(DateObject(DayNumber(c)))
  {
    ParseFormatIso(c);
  }

  // ---------------------------------------------------------------------
  // Tables
  // ---------------------------------------------------------------------

  /** A class of an academic year; `date` is its stored text. */
  datatype YearClass = YearClass(id: int, yearId: int, date: string, topic: Option<string>)

  datatype Holiday = Holiday(id: int, name: string, start: DateValue, end: DateValue, yearId: int)

  datatype Suggestion = Suggestion(id: int, classId: int, holidayId: int, text: string)

  /** A row of the final SELECT: the suggestion with its class's topic and
      date. */
  datatype StoredSuggestion = StoredSuggestion(
    id: int, classId: int, holidayId: int, text: string, className: Option<string>, scheduledDate: string)

  datatype HolidayError = HolidayNotFound(holidayId: int) | BadHolidayDate(error: CoerceError)

  /** At most one suggestion per (class, holiday): the UNIQUE constraint. */
  predicate UniquePairs(rows: seq<Suggestion>)
  {
    forall i, j :: 0 <= i < j < |rows| ==>
      !(rows[i].classId == rows[j].classId && rows[i].holidayId == rows[j].holidayId)
  }

  predicate IdsBelow(rows: seq<Suggestion>, bound: int)
  {
    forall i :: 0 <= i < |rows| ==> rows[i].id < bound
  }

  class HolidayStore {
    var classes: seq<YearClass>
    var holidays: seq<Holiday>
    var suggestions: seq<Suggestion>
    var nextId: int

    ghost predicate Valid()
      reads this
    {
      UniquePairs(suggestions) && IdsBelow(suggestions, nextId)
    }

    constructor (classes: seq<YearClass>, holidays: seq<Holiday>)
      ensures this.classes == classes && this.holidays == holidays
      ensures suggestions == [] && nextId == 1
      ensures Valid()
    {
      this.classes := classes;
      this.holidays := holidays;
      suggestions := [];
      nextId := 1;
    }
  }

  function FindHoliday(holidays: seq<Holiday>, id: int): (r: Option<Holiday>)
    ensures r.Some? ==> r.value in holidays && r.value.id == id
    ensures r.None? ==> forall h :: h in holidays ==> h.id != id
  {
    if holidays == [] then None
    else if holidays[0].id == id then Some(holidays[0])
    else FindHoliday(holidays[1..], id)
  }

  // ---------------------------------------------------------------------
  // Which classes a holiday overlaps
  // ---------------------------------------------------------------------

  /** Day number of the first of year `y`, for SQLite's years 0000 to
      9999; year 0 is a leap year and ends the day before 0001-01-01. */
  function YearStart(y: nat): int
  {
    if y == 0 then -YearLength(0) else DaysBeforeYear(y)
  }

  /** The day SQLite counts for year `y`, month `m` and day `d`: the
      first of the month moved on by `d - 1` days. */
  function SqliteDay(y: nat, m: int, d: int): Day
    requires 1 <= m <= 12
  {
    YearStart(y) + DaysBeforeMonth(y, m) + d - 1
  }

  /** SQLite's `DATE(x)` on text `YYYY-MM-DD`, as a day number. Any year
      from 0000 to 9999, month 1 to 12 and day 1 to 31 is accepted, and a
      day past the end of its month runs on into the next month
      (`DATE('2024-02-30')` is `'2024-03-01'`); anything else is NULL. */
  function SqliteDate(s: string): (r: Option<Day>)
    ensures r.Some? ==> IsoShape(s)
  {
    if !IsoShape(s) then None
    else
      assert forall i :: 0 <= i < 4 ==> s[..4][i] == s[i];
      assert forall i :: 0 <= i < 2 ==> s[5..7][i] == s[5 + i] && s[8..10][i] == s[8 + i];
      var y, m, d := ParseDigits(s[..4]), ParseDigits(s[5..7]), ParseDigits(s[8..10]);
      if 1 <= m <= 12 && 1 <= d <= 31 then Some(SqliteDay(y, m, d)) else None
  }

  /** On a real date SQLite and Python agree on the day. */
  lemma SqliteDateOfIso(s: string)
    requires ParseIso(s).Some?
    ensures SqliteDate(s) == Some(DayNumber(ParseIso(s).value))
  {
  }

  /** A day past the end of its month is the matching day of the next
      month; December has 31 days, so the carry never leaves the year. */
  lemma SqliteDayCarry(y: nat, m: int, d: int)
    requires 1 <= y <= 9999 && 1 <= m <= 12 && DaysInMonth(y, m) < d <= 31
    ensures m < 12
    ensures ValidDate(CivilDate(y, m + 1, d - DaysInMonth(y, m)))
    ensures SqliteDay(y, m, d) == DayNumber(CivilDate(y, m + 1, d - DaysInMonth(y, m)))
  {
    MonthsTile(y, m);
  }

  function DigitValue(c: char): int
  {
    c as int - '0' as int
  }

  /** The value of two digits. */
  lemma ParseTwoDigits(s: string)
    requires |s| == 2 && IsDigit(s[0]) && IsDigit(s[1])
    ensures ParseDigits(s) == 10 * DigitValue(s[0]) + DigitValue(s[1])
  {
    assert s[..1][..0] == [];
    assert ParseDigits(s[..1]) == DigitValue(s[0]);
  }

  /** The year, month and day fields of text shaped `YYYY-MM-DD`, digit by
      digit. */
  lemma IsoFields(s: string)
    requires IsoShape(s)
    ensures ParseDigits(s[..4]) == 1000 * DigitValue(s[0]) + 100 * DigitValue(s[1]) + 10 * DigitValue(s[2]) + DigitValue(s[3])
    ensures ParseDigits(s[5..7]) == 10 * DigitValue(s[5]) + DigitValue(s[6])
    ensures ParseDigits(s[8..10]) == 10 * DigitValue(s[8]) + DigitValue(s[9])
  {
    var y := s[..4];
    assert y[..3][..2] == y[..2] && y[..2] == s[..2] && y[..3][2] == s[2] && y[3] == s[3];
    ParseTwoDigits(s[..2]);
    ParseTwoDigits(s[5..7]);
    ParseTwoDigits(s[8..10]);
  }

  /** The year, month and day written in text shaped `YYYY-MM-DD`. */
  predicate WritesFields(s: string, y: nat, m: int, d: int)
    requires IsoShape(s)
  {
    && y == 1000 * DigitValue(s[0]) + 100 * DigitValue(s[1]) + 10 * DigitValue(s[2]) + DigitValue(s[3])
    && m == 10 * DigitValue(s[5]) + DigitValue(s[6])
    && d == 10 * DigitValue(s[8]) + DigitValue(s[9])
  }

  /** What Python and SQLite read in text with known fields. */
  lemma ReadFields(s: string, y: nat, m: int, d: int)
    requires IsoShape(s) && WritesFields(s, y, m, d)
    ensures ParseIso(s) == (if ValidDate(CivilDate(y, m, d)) then Some(CivilDate(y, m, d)) else None)
    ensures SqliteDate(s) == (if 1 <= m <= 12 && 1 <= d <= 31 then Some(SqliteDay(y, m, d)) else None)
  {
    IsoFields(s);
  }

  /** In a leap year, `DATE` reads February 30 as March 1, and Python
      reads no date there. */
  lemma LeapFebruaryCarry(feb30: string, mar1: string, y: nat)
    requires 1 <= y <= 9999 && IsLeap(y)
    requires IsoShape(feb30) && WritesFields(feb30, y, 2, 30)
    requires IsoShape(mar1) && WritesFields(mar1, y, 3, 1)
    ensures ParseIso(feb30).None? && SqliteDate(feb30).Some? && SqliteDate(feb30) == SqliteDate(mar1)
  {
    ReadFields(feb30, y, 2, 30);
    ReadFields(mar1, y, 3, 1);
    SqliteDayCarry(y, 2, 30);
  }

  /** `DATE('2024-02-30')` is `DATE('2024-03-01')`, though the first is
      not a date. */
  lemma SqliteDateCarryExample()
    ensures ParseIso("2024-02-30").None? && SqliteDate("2024-02-30") == SqliteDate("2024-03-01")
  {
    LeapFebruaryCarry("2024-02-30", "2024-03-01", 2024);
  }

  /** `DATE('0000-01-01')` is a day, one before every date. */
  lemma SqliteDateYearZero()
    ensures ParseIso("0000-01-01").None? && SqliteDate("0000-01-01") == Some(-366)
  {
    ReadFields("0000-01-01", 0, 1, 1);
  }

  /** `academic_year_id = ? AND DATE(date) BETWEEN DATE(?) AND DATE(?)`:
      the same year, and a date inside the range with both ends included.
      A date that `DATE` reads as NULL never matches. */
  predicate Overlaps(c: YearClass, yearId: int, start: Day, end: Day)
  {
    c.yearId == yearId && SqliteDate(c.date).Some? && start <= SqliteDate(c.date).value <= end
  }

  function ClassDay(c: YearClass): int
  {
    if SqliteDate(c.date).Some? then SqliteDate(c.date).value else 0
  }

  function ClassId(c: YearClass): int
  {
    c.id
  }

  function OverlapFilter(classes: seq<YearClass>, yearId: int, start: Day, end: Day): (r: seq<YearClass>)
    ensures forall c :: c in r <==> c in classes && Overlaps(c, yearId, start, end)
  {
    if classes == [] then []
    else
      var prev := OverlapFilter(classes[..|classes| - 1], yearId, start, end);
      var c := classes[|classes| - 1];
      assert classes == classes[..|classes| - 1] + [c];
      if Overlaps(c, yearId, start, end) then prev + [c] else prev
  }

  /** The overlapping classes `ORDER BY DATE(date)`; rows on the same date
      come in id order. */
  function Overlapping(classes: seq<YearClass>, yearId: int, start: Day, end: Day): (r: seq<YearClass>)
    ensures SortedBy(r, ClassDay, ClassId)
    ensures forall c :: c in r <==> c in classes && Overlaps(c, yearId, start, end)
  {
    var r := SortBy(OverlapFilter(classes, yearId, start, end), ClassDay, ClassId);
    assert forall c :: c in r <==> c in multiset(r);
    r
  }

  // ---------------------------------------------------------------------
  // Suggestion text
  // ---------------------------------------------------------------------

  /** "Class '<topic>'", or "Class" when the topic is missing or empty. */
  function ClassLabel(topic: Option<string>): string
  {
    if topic.Some? && topic.value != "" then "Class '" + topic.value + "'" else "Class"
  }

  function SuggestionText(c: YearClass, holidayName: string): string
  {
    ClassLabel(c.topic) + " scheduled on " + c.date + " overlaps with holiday '" + holidayName + "'. Consider rescheduling."
  }

  /** The text names the class, its date and the holiday, in that order. */
  lemma SuggestionTextShape(c: YearClass, holidayName: string)
    ensures var t := SuggestionText(c, holidayName);
      var l := ClassLabel(c.topic);
      && t[..|l|] == l
      && t[|l|..|l| + 14] == " scheduled on "
      && t[|l| + 14..|l| + 14 + |c.date|] == c.date
      && t[|l| + 14 + |c.date|..|l| + 14 + |c.date| + 24] == " overlaps with holiday '"
      && t[|l| + 38 + |c.date|..|l| + 38 + |c.date| + |holidayName|] == holidayName
      && t[|l| + 38 + |c.date| + |holidayName|..] == "'. Consider rescheduling."
      && (c.topic.Some? && c.topic.value != "" ==> l[7..|l| - 1] == c.topic.value)
  {
  }

  // ---------------------------------------------------------------------
  // Delete, then insert or replace
  // ---------------------------------------------------------------------

  /** `DELETE FROM rescheduling_suggestions WHERE holiday_id = ?`. */
  function DeleteFor(rows: seq<Suggestion>, holidayId: int): (r: seq<Suggestion>)
    ensures forall s :: s in r <==> s in rows && s.holidayId != holidayId
  {
    if rows == [] then []
    else
      var prev := DeleteFor(rows[..|rows| - 1], holidayId);
      var s := rows[|rows| - 1];
      assert rows == rows[..|rows| - 1] + [s];
      if s.holidayId == holidayId then prev else prev + [s]
  }

  function RemovePair(rows: seq<Suggestion>, classId: int, holidayId: int): (r: seq<Suggestion>)
    ensures forall s :: s in r <==> s in rows && !(s.classId == classId && s.holidayId == holidayId)
    ensures |r| <= |rows|
  {
    if rows == [] then []
    else
      var prev := RemovePair(rows[..|rows| - 1], classId, holidayId);
      var s := rows[|rows| - 1];
      assert rows == rows[..|rows| - 1] + [s];
      if s.classId == classId && s.holidayId == holidayId then prev else prev + [s]
  }

  /** `INSERT OR REPLACE`: a row with the same (class, holiday) is removed
      and the new row is appended. */
  function InsertOrReplace(rows: seq<Suggestion>, s: Suggestion): seq<Suggestion>
  {
    RemovePair(rows, s.classId, s.holidayId) + [s]
  }

  /** The message of each suggestion for the holiday named `holidayName`. */
  function TextFor(holidayName: string): YearClass -> string
  {
    (c: YearClass) => SuggestionText(c, holidayName)
  }

  /** The insert loop as a fold: the k-th overlapping class gets id
      `first + k`. */
  function Fill(rows: seq<Suggestion>, cs: seq<YearClass>, holidayId: int, first: int, text: YearClass -> string): seq<Suggestion>
  {
    if cs == [] then rows
    else
      var c := cs[|cs| - 1];
      InsertOrReplace(Fill(rows, cs[..|cs| - 1], holidayId, first, text),
        Suggestion(first + |cs| - 1, c.id, holidayId, text(c)))
  }

  /** What `recompute_for_holiday` leaves in the suggestions table. */
  function Recomputed(rows: seq<Suggestion>, cs: seq<YearClass>, h: Holiday, first: int): seq<Suggestion>
  {
    Fill(DeleteFor(rows, h.id), cs, h.id, first, TextFor(h.name))
  }

  lemma FillSnoc(rows: seq<Suggestion>, cs: seq<YearClass>, k: nat, holidayId: int, first: int, text: YearClass -> string)
    requires k < |cs|
    ensures Fill(rows, cs[..k + 1], holidayId, first, text)
         == InsertOrReplace(Fill(rows, cs[..k], holidayId, first, text), Suggestion(first + k, cs[k].id, holidayId, text(cs[k])))
  {
    assert cs[..k + 1][..k] == cs[..k];
  }

  // ---------------------------------------------------------------------
  // Joined result, ordered by suggestion id
  // ---------------------------------------------------------------------

  function JoinClass(s: Suggestion, classes: seq<YearClass>): (r: seq<StoredSuggestion>)
    ensures forall x :: x in r <==>
      exists c :: c in classes && c.id == s.classId &&
        x == StoredSuggestion(s.id, s.classId, s.holidayId, s.text, c.topic, c.date)
  {
    if classes == [] then []
    else
      var prev := JoinClass(s, classes[..|classes| - 1]);
      var c := classes[|classes| - 1];
      assert classes == classes[..|classes| - 1] + [c];
      if c.id == s.classId then prev + [StoredSuggestion(s.id, s.classId, s.holidayId, s.text, c.topic, c.date)]
      else prev
  }

  function JoinFor(rows: seq<Suggestion>, classes: seq<YearClass>, holidayId: int): (r: seq<StoredSuggestion>)
    ensures forall x :: x in r ==> x.holidayId == holidayId
  {
    if rows == [] then []
    else
      var prev := JoinFor(rows[..|rows| - 1], classes, holidayId);
      var s := rows[|rows| - 1];
      if s.holidayId == holidayId then prev + JoinClass(s, classes) else prev
  }

  function StoredId(x: StoredSuggestion): int
  {
    x.id
  }

  /** The final SELECT: the holiday's suggestions joined with their
      classes, `ORDER BY rs.id`. */
  function StoredFor(rows: seq<Suggestion>, classes: seq<YearClass>, holidayId: int): (r: seq<StoredSuggestion>)
    ensures SortedBy(r, StoredId, StoredId)
    ensures multiset(r) == multiset(JoinFor(rows, classes, holidayId))
  {
    SortBy(JoinFor(rows, classes, holidayId), StoredId, StoredId)
  }

  // ---------------------------------------------------------------------
  // recompute_for_holiday
  // ---------------------------------------------------------------------

  /** `recompute_for_holiday`. A missing holiday or a date that cannot be
      coerced is reported before any suggestion is deleted; otherwise the
      table becomes `Recomputed` and the holiday's stored suggestions are
      returned in id order. */
  method RecomputeForHoliday(db: HolidayStore, holidayId: int) returns (r: Result<seq<StoredSuggestion>, HolidayError>)
    requires db.Valid()
    modifies db
    ensures db.Valid()
    ensures db.classes == old(db.classes) && db.holidays == old(db.holidays)
    ensures FindHoliday(old(db.holidays), holidayId).None? ==>
      r == Err(HolidayNotFound(holidayId)) && db.suggestions == old(db.suggestions) && db.nextId == old(db.nextId)
    ensures FindHoliday(old(db.holidays), holidayId).Some? ==>
      var h := FindHoliday(old(db.holidays), holidayId).value;
      var start, end := CoerceDate(h.start), CoerceDate(h.end);
      && (start.Err? ==> r == Err(BadHolidayDate(start.error)))
      && (start.Ok? && end.Err? ==> r == Err(BadHolidayDate(end.error)))
      && (r.Err? ==> db.suggestions == old(db.suggestions) && db.nextId == old(db.nextId))
      && (start.Ok? && end.Ok? ==>
            var cs := Overlapping(old(db.classes), h.yearId, start.value, end.value);
            && db.suggestions == Recomputed(old(db.suggestions), cs, h, old(db.nextId))
            && db.nextId == old(db.nextId) + |cs|
            && r == Ok(StoredFor(db.suggestions, db.classes, holidayId)))
  {
    var found := FindHoliday(db.holidays, holidayId);
    if found.None? {
      return Err(HolidayNotFound(holidayId));
    }
    var h := found.value;
    var start := CoerceDate(h.start);
    if start.Err? {
      return Err(BadHolidayDate(start.error));
    }
    var end := CoerceDate(h.end);
    if end.Err? {
      return Err(BadHolidayDate(end.error));
    }
    var cs := Overlapping(db.classes, h.yearId, start.value, end.value);
    DeleteForValid(db.suggestions, holidayId, db.nextId);
    db.suggestions := DeleteFor(db.suggestions, holidayId);
    StoreSuggestions(db, cs, h);
    FillValid(DeleteFor(old(db.suggestions), holidayId), cs, h.id, old(db.nextId), TextFor(h.name));
    return Ok(StoredFor(db.suggestions, db.classes, holidayId));
  }

  /** The loop of `recompute_for_holiday`: one suggestion per overlapping
      class, numbered from the store's counter. */
  method StoreSuggestions(db: HolidayStore, cs: seq<YearClass>, h: Holiday)
    modifies db
    ensures db.classes == old(db.classes) && db.holidays == old(db.holidays)
    ensures db.suggestions == Fill(old(db.suggestions), cs, h.id, old(db.nextId), TextFor(h.name))
    ensures db.nextId == old(db.nextId) + |cs|
  {
    ghost var base, first := db.suggestions, db.nextId;
    assert cs[..0] == [];
    for k := 0 to |cs|
      invariant db.classes == old(db.classes) && db.holidays == old(db.holidays)
      invariant db.suggestions == Fill(base, cs[..k], h.id, first, TextFor(h.name))
      invariant db.nextId == first + k
    {
      FillStep(base, cs, k, h.id, first, h.name, db.suggestions, db.nextId);
      InsertSuggestion(db, cs[k].id, h.id, SuggestionText(cs[k], h.name));
    }
    assert cs[..|cs|] == cs;
  }

  /** One `INSERT OR REPLACE INTO rescheduling_suggestions`: the new row
      takes the next id and replaces any row for the same (class, holiday). */
  method InsertSuggestion(db: HolidayStore, classId: int, holidayId: int, text: string)
    modifies db
    ensures db.classes == old(db.classes) && db.holidays == old(db.holidays)
    ensures db.suggestions == InsertOrReplace(old(db.suggestions), Suggestion(old(db.nextId), classId, holidayId, text))
    ensures db.nextId == old(db.nextId) + 1
  {
    db.suggestions := InsertOrReplace(db.suggestions, Suggestion(db.nextId, classId, holidayId, text));
    db.nextId := db.nextId + 1;
  }

  /** The fold over one more class inserts that class's suggestion. */
  lemma FillSnocText(base: seq<Suggestion>, cs: seq<YearClass>, k: nat, holidayId: int, first: int, name: string)
    requires k < |cs|
    ensures Fill(base, cs[..k + 1], holidayId, first, TextFor(name))
         == InsertOrReplace(Fill(base, cs[..k], holidayId, first, TextFor(name)), Suggestion(first + k, cs[k].id, holidayId, SuggestionText(cs[k], name)))
  {
    FillSnoc(base, cs, k, holidayId, first, TextFor(name));
    assert TextFor(name)(cs[k]) == SuggestionText(cs[k], name);
  }

  /** One turn of the insert loop adds the next class to the fold. */
  lemma FillStep(base: seq<Suggestion>, cs: seq<YearClass>, k: nat, holidayId: int, first: int, name: string, rows: seq<Suggestion>, next: int)
    requires k < |cs| && rows == Fill(base, cs[..k], holidayId, first, TextFor(name)) && next == first + k
    ensures InsertOrReplace(rows, Suggestion(next, cs[k].id, holidayId, SuggestionText(cs[k], name)))
         == Fill(base, cs[..k + 1], holidayId, first, TextFor(name))
  {
    FillSnocText(base, cs, k, holidayId, first, name);
  }

  /** The fold keeps (class, holiday) unique and its ids below the
      counter moved on by the number of classes. */
  lemma {:induction false} FillValid(rows: seq<Suggestion>, cs: seq<YearClass>, holidayId: int, first: int, text: YearClass -> string)
    requires UniquePairs(rows) && IdsBelow(rows, first)
    ensures UniquePairs(Fill(rows, cs, holidayId, first, text)) && IdsBelow(Fill(rows, cs, holidayId, first, text), first + |cs|)
  {
    if cs != [] {
      var c := cs[|cs| - 1];
      FillValid(rows, cs[..|cs| - 1], holidayId, first, text);
      InsertOrReplaceValid(Fill(rows, cs[..|cs| - 1], holidayId, first, text), Suggestion(first + |cs| - 1, c.id, holidayId, text(c)), first + |cs| - 1);
    }
  }

  // ---------------------------------------------------------------------
  // What recomputation guarantees
  // ---------------------------------------------------------------------

  /** Insert-or-replace keeps (class, holiday) unique and ids below the
      counter. */
  lemma InsertOrReplaceValid(rows: seq<Suggestion>, s: Suggestion, bound: int)
    requires UniquePairs(rows) && IdsBelow(rows, bound) && s.id == bound
    ensures UniquePairs(InsertOrReplace(rows, s)) && IdsBelow(InsertOrReplace(rows, s), bound + 1)
  {
    var kept := RemovePair(rows, s.classId, s.holidayId);
    RemovePairSubsequence(rows, s.classId, s.holidayId);
    var r := kept + [s];
    forall i, j | 0 <= i < j < |r|
      ensures !(r[i].classId == r[j].classId && r[i].holidayId == r[j].holidayId)
    {
      if j == |r| - 1 {
        assert r[i] in kept;
      }
    }
    forall i | 0 <= i < |r| ensures r[i].id < bound + 1 {
      if i < |kept| {
        assert r[i] in rows;
      }
    }
  }

  /** Removing rows keeps the rest in order, so uniqueness survives. */
  lemma {:induction false} RemovePairSubsequence(rows: seq<Suggestion>, classId: int, holidayId: int)
    requires UniquePairs(rows)
    ensures UniquePairs(RemovePair(rows, classId, holidayId))
  {
    if rows != [] {
      var init := rows[..|rows| - 1];
      var s := rows[|rows| - 1];
      assert UniquePairs(init);
      RemovePairSubsequence(init, classId, holidayId);
      var prev := RemovePair(init, classId, holidayId);
      if !(s.classId == classId && s.holidayId == holidayId) {
        var r := prev + [s];
        forall i, j | 0 <= i < j < |r|
          ensures !(r[i].classId == r[j].classId && r[i].holidayId == r[j].holidayId)
        {
          if j == |r| - 1 {
            assert r[i] in init;
            var k :| 0 <= k < |init| && init[k] == r[i];
            assert rows[k] == r[i] && rows[|rows| - 1] == s;
          }
        }
      }
    }
  }

  /** Deleting a holiday's rows keeps the rest in order, so uniqueness and
      the id bound survive. */
  lemma {:induction false} DeleteForValid(rows: seq<Suggestion>, h: int, bound: int)
    requires UniquePairs(rows) && IdsBelow(rows, bound)
    ensures UniquePairs(DeleteFor(rows, h)) && IdsBelow(DeleteFor(rows, h), bound)
  {
    if rows != [] {
      var init := rows[..|rows| - 1];
      var s := rows[|rows| - 1];
      assert UniquePairs(init) && IdsBelow(init, bound);
      DeleteForValid(init, h, bound);
      var prev := DeleteFor(init, h);
      if s.holidayId != h {
        var r := prev + [s];
        forall i, j | 0 <= i < j < |r|
          ensures !(r[i].classId == r[j].classId && r[i].holidayId == r[j].holidayId)
        {
          if j == |r| - 1 {
            assert r[i] in init;
            var k :| 0 <= k < |init| && init[k] == r[i];
            assert rows[k] == r[i] && rows[|rows| - 1] == s;
          }
        }
      }
    }
  }

  /** Replacing a row of this holiday leaves the rows of the others, which
      are what the holiday's DELETE keeps, as they were. */
  lemma {:induction false} OthersRemovePair(rows: seq<Suggestion>, classId: int, h: int)
    ensures DeleteFor(RemovePair(rows, classId, h), h) == DeleteFor(rows, h)
  {
    if rows != [] {
      var init := rows[..|rows| - 1];
      var s := rows[|rows| - 1];
      OthersRemovePair(init, classId, h);
      var prev := RemovePair(init, classId, h);
      if !(s.classId == classId && s.holidayId == h) {
        assert (prev + [s])[..|prev|] == prev;
      }
    }
  }

  /** Deleting a holiday's rows a second time deletes nothing more. */
  lemma {:induction false} DeleteForIdempotent(rows: seq<Suggestion>, h: int)
    ensures DeleteFor(DeleteFor(rows, h), h) == DeleteFor(rows, h)
  {
    if rows != [] {
      var init := rows[..|rows| - 1];
      var s := rows[|rows| - 1];
      DeleteForIdempotent(init, h);
      var prev := DeleteFor(init, h);
      if s.holidayId != h {
        assert (prev + [s])[..|prev|] == prev;
      }
    }
  }

  /** Suggestions for other holidays are untouched, in content and order. */
  lemma {:induction false} RecomputeKeepsOthers(rows: seq<Suggestion>, cs: seq<YearClass>, h: Holiday, first: int)
    ensures DeleteFor(Recomputed(rows, cs, h, first), h.id) == DeleteFor(rows, h.id)
  {
    if cs == [] {
      DeleteForIdempotent(rows, h.id);
    } else {
      var c := cs[|cs| - 1];
      var prev := Recomputed(rows, cs[..|cs| - 1], h, first);
      RecomputeKeepsOthers(rows, cs[..|cs| - 1], h, first);
      var s := Suggestion(first + |cs| - 1, c.id, h.id, SuggestionText(c, h.name));
      var kept := RemovePair(prev, c.id, h.id);
      OthersRemovePair(prev, c.id, h.id);
      assert (kept + [s])[..|kept|] == kept;
    }
  }

  /** After recomputation every suggestion of the holiday is new and
      belongs to an overlapping class, with that class's text. */
  lemma {:induction false} RecomputeOnlyOverlapping(rows: seq<Suggestion>, cs: seq<YearClass>, h: Holiday, first: int)
    ensures forall s :: s in Recomputed(rows, cs, h, first) && s.holidayId == h.id ==>
      exists c :: c in cs && c.id == s.classId && s.text == SuggestionText(c, h.name) && s.id >= first
  {
    if cs != [] {
      var init := cs[..|cs| - 1];
      var c := cs[|cs| - 1];
      RecomputeOnlyOverlapping(rows, init, h, first);
      var prev := Recomputed(rows, init, h, first);
      var s := Suggestion(first + |cs| - 1, c.id, h.id, SuggestionText(c, h.name));
      var kept := RemovePair(prev, c.id, h.id);
      assert Recomputed(rows, cs, h, first) == kept + [s];
      forall s' | s' in kept + [s] && s'.holidayId == h.id
        ensures exists c' :: c' in cs && c'.id == s'.classId && s'.text == SuggestionText(c', h.name) && s'.id >= first
      {
        if s' == s {
          assert c in cs;
        } else {
          assert s' in prev;
          var c' :| c' in init && c'.id == s'.classId && s'.text == SuggestionText(c', h.name) && s'.id >= first;
          assert c' in cs;
        }
      }
    }
  }

  /** After recomputation every overlapping class has a suggestion for the
      holiday. */
  lemma RecomputeCoversOverlapping(rows: seq<Suggestion>, cs: seq<YearClass>, h: Holiday, first: int)
    ensures forall c :: c in cs ==>
      exists s :: s in Recomputed(rows, cs, h, first) && s.holidayId == h.id && s.classId == c.id
  {
    FillCovers(DeleteFor(rows, h.id), cs, h.id, first, TextFor(h.name));
  }

  /** The fold leaves a row for every class it visited. */
  lemma {:induction false} FillCovers(base: seq<Suggestion>, cs: seq<YearClass>, holidayId: int, first: int, text: YearClass -> string)
    ensures forall c :: c in cs ==>
      exists s :: s in Fill(base, cs, holidayId, first, text) && s.holidayId == holidayId && s.classId == c.id
  {
    if cs != [] {
      var init := cs[..|cs| - 1];
      var c := cs[|cs| - 1];
      FillCovers(base, init, holidayId, first, text);
      var prev := Fill(base, init, holidayId, first, text);
      var s := Suggestion(first + |cs| - 1, c.id, holidayId, text(c));
      var kept := RemovePair(prev, c.id, holidayId);
      assert Fill(base, cs, holidayId, first, text) == kept + [s];
      assert cs == init + [c];
      forall c' | c' in cs
        ensures exists s' :: s' in kept + [s] && s'.holidayId == holidayId && s'.classId == c'.id
      {
        if c'.id != c.id {
          assert c' in init;
          KeptCovers(prev, c.id, holidayId, c'.id);
          var s' :| s' in kept && s'.holidayId == holidayId && s'.classId == c'.id;
          assert s' in kept + [s];
        } else {
          assert s in kept + [s];
        }
      }
    }
  }

  /** Removing one pair's rows keeps the rows of every other pair. */
  lemma KeptCovers(rows: seq<Suggestion>, classId: int, holidayId: int, other: int)
    requires other != classId
    requires exists s :: s in rows && s.holidayId == holidayId && s.classId == other
    ensures exists s :: s in RemovePair(rows, classId, holidayId) && s.holidayId == holidayId && s.classId == other
  {
    var s :| s in rows && s.holidayId == holidayId && s.classId == other;
    assert s in RemovePair(rows, classId, holidayId);
  }

  /** A holiday that overlaps no class is left with no suggestions (as
      when it is moved to a range with no classes). */
  lemma NoOverlapNoSuggestions(rows: seq<Suggestion>, h: Holiday, first: int)
    ensures forall s :: s in Recomputed(rows, [], h, first) ==> s.holidayId != h.id
  {
  }

  /** Each returned row is a suggestion of this holiday joined with the
      class it names. */
  lemma {:induction false} JoinForMembers(rows: seq<Suggestion>, classes: seq<YearClass>, holidayId: int)
    ensures forall x :: x in JoinFor(rows, classes, holidayId) <==>
      exists s, c :: s in rows && s.holidayId == holidayId && c in classes && c.id == s.classId &&
        x == StoredSuggestion(s.id, s.classId, s.holidayId, s.text, c.topic, c.date)
  {
    if rows != [] {
      var init := rows[..|rows| - 1];
      JoinForMembers(init, classes, holidayId);
      assert rows == init + [rows[|rows| - 1]];
    }
  }
}
