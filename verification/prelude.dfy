/** Shared vocabulary of the model: optional values, results, request fields
    that distinguish "omitted" from "null", and the millisecond timeline. */
module Prelude {

  datatype Option<+T> = None | Some(value: T)

  datatype Result<+R, +E> = Ok(value: R) | Err(error: E)

  /** A field of a JSON request body that may be absent (`undefined`),
      explicitly `null`, or carry a value. */
  datatype Field<+T> = Omitted | Null | Given(value: T)

  /** A string as a `datetime()` validator sees it: either an ISO-8601
      timestamp, which denotes `ms` milliseconds since the epoch, or
      anything else. Parsing the text itself is not modelled. */
  datatype DateTimeText = DateTime(ms: int) | NotDateTime

  /** Milliseconds in one day: 1000 * 60 * 60 * 24. */
  const DayMs: int := 86400000

  /** The length of `s` as JavaScript counts it, in UTF-16 code units: a
      character above U+FFFF is a surrogate pair and counts twice. */
  function Utf16Length(s: string): (n: nat)
    ensures |s| <= n <= 2 * |s|
  {
    if s == [] then 0
    else (if s[0] as int > 0xFFFF then 2 else 1) + Utf16Length(s[1..])
  }

  /** A string made only of characters outside the Basic Multilingual
      Plane is twice as long in code units as in characters. */
  lemma {:induction false} Utf16LengthAstral(s: string)
    requires forall i :: 0 <= i < |s| ==> s[i] as int > 0xFFFF
    ensures Utf16Length(s) == 2 * |s|
  {
    if s != [] {
      Utf16LengthAstral(s[1..]);
    }
  }

  /** Days from 1970-01-01 to the given proleptic Gregorian date. The day is
      not checked against the length of the month: a day past the end of
      the month runs on into the next month, as ECMAScript's MakeDay does. */
  function DaysFromCivil(year: int, month: int, day: int): (n: int)
    requires 1 <= month <= 12
    // January 1970 counts its days from the epoch
    ensures year == 1970 && month == 1 ==> n == day - 1
  {
    var y := if month <= 2 then year - 1 else year;
    MarchYearStart(y) + (153 * (if month > 2 then month - 3 else month + 9) + 2) / 5 + day - 1
  }

  /** Days from 1970-01-01 to March 1 of `y`: counting years from March,
      the leap day is the last day of a year. */
  function MarchYearStart(y: int): int {
    var era := y / 400;
    var yoe := y - era * 400;
    era * 146097 + yoe * 365 + yoe / 4 - yoe / 100 - 719468
  }

  /** The Gregorian leap-year rule. */
  predicate IsLeapYear(y: int) {
    y % 4 == 0 && (y % 100 != 0 || y % 400 == 0)
  }

  function DaysInMonth(year: int, month: int): int
    requires 1 <= month <= 12
  {
    if month == 2 then (if IsLeapYear(year) then 29 else 28)
    else if month == 4 || month == 6 || month == 9 || month == 11 then 30
    else 31
  }

  // Together, the four lemmas below pin DaysFromCivil down on every date:
  // it is 0 on 1970-01-01 and counts one per day through months of the
  // Gregorian lengths and across the turn of the year.

  lemma CivilEpoch()
    ensures DaysFromCivil(1970, 1, 1) == 0
  {
  }

  /** Day `day` of a month lies `day - 1` days after its first, also for a
      day past the month's end. */
  lemma CivilDayOffset(year: int, month: int, day: int)
    requires 1 <= month <= 12
    ensures DaysFromCivil(year, month, day) == DaysFromCivil(year, month, 1) + day - 1
  {
  }

  lemma CivilNextMonth(year: int, month: int)
    requires 1 <= month < 12
    ensures DaysFromCivil(year, month + 1, 1) == DaysFromCivil(year, month, 1) + DaysInMonth(year, month)
  {
    if month == 2 {
      MarchYearLength(year - 1);
    }
  }

  lemma CivilNextYear(year: int)
    ensures DaysFromCivil(year + 1, 1, 1) == DaysFromCivil(year, 12, 1) + DaysInMonth(year, 12)
  {
  }

  /** A day past the end of a month is a day of the next month: the 31st
      of February is the 3rd of March in a common year. */
  lemma CivilMonthOverflow(year: int, month: int, day: int)
    requires 1 <= month < 12 && day > DaysInMonth(year, month)
    ensures DaysFromCivil(year, month, day) == DaysFromCivil(year, month + 1, day - DaysInMonth(year, month))
  {
    CivilDayOffset(year, month, day);
    CivilDayOffset(year, month + 1, day - DaysInMonth(year, month));
    CivilNextMonth(year, month);
  }

  /** The year from March 1 of `y` holds February of `y + 1`. */
  lemma MarchYearLength(y: int)
    ensures MarchYearStart(y + 1) == MarchYearStart(y) + if IsLeapYear(y + 1) then 366 else 365
  {
    var era := y / 400;
    var yoe := y - era * 400;
    assert 0 <= yoe < 400;
    ResiduesOf400(era, yoe + 1);
    if yoe == 399 {
      assert y + 1 == (era + 1) * 400;
      assert (y + 1) / 400 == era + 1;
    } else {
      assert (y + 1) / 400 == era;
      QuotientSteps(yoe);
    }
  }

  lemma QuotientSteps(n: int)
    ensures (n + 1) / 4 == n / 4 + (if (n + 1) % 4 == 0 then 1 else 0)
    ensures (n + 1) / 100 == n / 100 + (if (n + 1) % 100 == 0 then 1 else 0)
  {
  }

  lemma ResiduesOf400(era: int, yoe: int)
    ensures (era * 400 + yoe) % 4 == yoe % 4
    ensures (era * 400 + yoe) % 100 == yoe % 100
    ensures (era * 400 + yoe) % 400 == yoe % 400
  {
    ResidueBy4(era * 100, yoe);
    ResidueBy100(era * 4, yoe);
    ResidueBy400(era, yoe);
  }

  // Adding a multiple of the divisor keeps the remainder.

  lemma ResidueBy4(q: int, r: int)
    ensures (4 * q + r) % 4 == r % 4
  {
  }

  lemma ResidueBy100(q: int, r: int)
    ensures (100 * q + r) % 100 == r % 100
  {
  }

  lemma ResidueBy400(q: int, r: int)
    ensures (400 * q + r) % 400 == r % 400
  {
  }
}
