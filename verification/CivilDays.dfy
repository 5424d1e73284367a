/** Days since 1970-01-01 in the proleptic Gregorian calendar, against counting day by day. */
module CivilDays {

  datatype Date = Date(year: int, month: int, day: int)

  const EPOCH := Date(1970, 1, 1)

  predicate IsLeap(year: int) {
    year % 4 == 0 && (year % 100 != 0 || year % 400 == 0)
  }

  function MonthLength(year: int, month: int): int {
    if month == 2 then if IsLeap(year) then 29 else 28
    else if month == 4 || month == 6 || month == 9 || month == 11 then 30
    else 31
  }

  predicate Valid(d: Date) {
    1 <= d.month <= 12 && 1 <= d.day <= MonthLength(d.year, d.month)
  }

  function NextDay(d: Date): Date {
    if d.day < MonthLength(d.year, d.month) then d.(day := d.day + 1)
    else if d.month < 12 then Date(d.year, d.month + 1, 1)
    else Date(d.year + 1, 1, 1)
  }

  function PreviousDay(d: Date): Date {
    if d.day > 1 then d.(day := d.day - 1)
    else if d.month > 1 then Date(d.year, d.month - 1, MonthLength(d.year, d.month - 1))
    else Date(d.year - 1, 12, 31)
  }

  /** days_from_civil. The kernel's division truncates, so it adjusts negative years before dividing by 400. */
  function DaysFromCivil(d: Date): int
    requires Valid(d)
  {
    var y := if d.month <= 2 then d.year - 1 else d.year;
    var era := TruncDiv(if y >= 0 then y else y - 399, 400);
    var yearOfEra := y - era * 400;
    var monthIndex := (d.month + 9) % 12;
    var dayOfYear := (153 * monthIndex + 2) / 5 + d.day - 1;
    var dayOfEra := yearOfEra * 365 + yearOfEra / 4 - yearOfEra / 100 + dayOfYear;
    era * 146_097 + dayOfEra - 719_468
  }

  /** Division towards zero. */
  function TruncDiv(a: int, b: int): int
    requires b > 0
  {
    if a >= 0 then a / b else -(-a / b)
  }

  lemma EraIsFloor(y: int)
    ensures TruncDiv(if y >= 0 then y else y - 399, 400) == y / 400
  {
    if y < 0 {
      var q, r := y / 400, y % 400;
      assert 399 - y == 400 * -q + (399 - r);
      assert (399 - y) / 400 == -q;
    }
  }

  /** The day count at the first of March of year `y`. */
  function MarchFirst(y: int): int {
    var yoe := y % 400;
    y / 400 * 146_097 + yoe * 365 + yoe / 4 - yoe / 100 - 719_468
  }

  /** Days from the first of March to the first of a month. */
  function SinceMarch(month: int): int {
    if month == 1 then 306 else if month == 2 then 337 else if month == 3 then 0 else if month == 4 then 31
    else if month == 5 then 61 else if month == 6 then 92 else if month == 7 then 122 else if month == 8 then 153
    else if month == 9 then 184 else if month == 10 then 214 else if month == 11 then 245 else 275
  }

  /** The formula for the days before a month is the table. */
  lemma MonthFormula(month: int)
    requires 1 <= month <= 12
    ensures (153 * ((month + 9) % 12) + 2) / 5 == SinceMarch(month)
  {
  }

  /** The year that began in the March before a date. */
  function MarchYear(d: Date): int {
    if d.month <= 2 then d.year - 1 else d.year
  }

  lemma DaysFromMarch(d: Date)
    requires Valid(d)
    ensures DaysFromCivil(d) == MarchFirst(MarchYear(d)) + SinceMarch(d.month) + d.day - 1
  {
    var y := MarchYear(d);
    EraIsFloor(y);
    MonthFormula(d.month);
    assert y == y / 400 * 400 + y % 400;
  }

  lemma CycleStep(y: int)
    ensures (y + 1) / 400 == if y % 400 == 399 then y / 400 + 1 else y / 400
    ensures (y + 1) % 400 == if y % 400 == 399 then 0 else y % 400 + 1
  {
    assert y + 1 == y / 400 * 400 + (y % 400 + 1);
  }

  lemma QuarterOfCycle(q: int, r: int)
    ensures (400 * q + r) % 4 == r % 4
  {
    assert 400 * q + r == 4 * (100 * q) + r;
  }

  lemma CenturyOfCycle(q: int, r: int)
    ensures (400 * q + r) % 100 == r % 100
  {
    assert 400 * q + r == 100 * (4 * q) + r;
  }

  lemma CycleParts(y: int, r: int)
    requires r == y % 400
    ensures (y + 1) % 4 == (r + 1) % 4 && (y + 1) % 100 == (r + 1) % 100
  {
    QuarterOfCycle(y / 400, r + 1);
    CenturyOfCycle(y / 400, r + 1);
    assert y + 1 == 400 * (y / 400) + (r + 1);
  }

  /** From one March to the next there are 365 days, or 366 if a leap February lies between. */
  lemma MarchToMarch(y: int)
    ensures MarchFirst(y + 1) == MarchFirst(y) + if IsLeap(y + 1) then 366 else 365
  {
    CycleStep(y);
    var yoe := y % 400;
    CycleParts(y, yoe);
    assert (yoe + 1) / 4 == yoe / 4 + if (yoe + 1) % 4 == 0 then 1 else 0;
    assert (yoe + 1) / 100 == yoe / 100 + if (yoe + 1) % 100 == 0 then 1 else 0;
  }

  lemma EpochIsZero()
    ensures DaysFromCivil(EPOCH) == 0
  {
  }

  /** The count grows by exactly one from each date to the next, in all years. */
  lemma NextIsOneMore(d: Date)
    requires Valid(d)
    ensures Valid(NextDay(d)) && DaysFromCivil(NextDay(d)) == DaysFromCivil(d) + 1
  {
    hide DaysFromCivil, MarchFirst;
    DaysFromMarch(d);
    DaysFromMarch(NextDay(d));
    MarchToMarch(d.year - 1);
  }

  lemma PreviousThenNext(d: Date)
    requires Valid(d)
    ensures Valid(PreviousDay(d)) && NextDay(PreviousDay(d)) == d
  {
  }

  /** The date `n` days after the epoch, by counting. */
  function Counted(n: int): Date
    decreases if n < 0 then -n else n
  {
    if n == 0 then EPOCH else if n > 0 then NextDay(Counted(n - 1)) else PreviousDay(Counted(n + 1))
  }

  /** Counting days forwards or backwards and converting agree. */
  lemma {:induction false} CountingAgrees(n: int)
    ensures Valid(Counted(n)) && DaysFromCivil(Counted(n)) == n
    decreases if n < 0 then -n else n
  {
    if n == 0 {
      EpochIsZero();
    } else if n > 0 {
      CountingAgrees(n - 1);
      NextIsOneMore(Counted(n - 1));
    } else {
      CountingAgrees(n + 1);
      PreviousThenNext(Counted(n + 1));
      NextIsOneMore(PreviousDay(Counted(n + 1)));
    }
  }

  /** Days of one calendar year lie between its first of January and the next. */
  lemma YearBounds(d: Date)
    requires Valid(d)
    ensures MarchFirst(d.year - 1) + 306 <= DaysFromCivil(d) < MarchFirst(d.year) + 306
  {
    hide DaysFromCivil, MarchFirst;
    DaysFromMarch(d);
    MarchToMarch(d.year - 1);
  }

  lemma {:induction false} MarchGrows(y: int, z: int)
    requires y <= z
    ensures MarchFirst(y) <= MarchFirst(z)
    decreases z - y
  {
    if y < z {
      MarchGrows(y, z - 1);
      MarchToMarch(z - 1);
    }
  }

  lemma SameYear(d: Date, e: Date)
    requires Valid(d) && Valid(e) && DaysFromCivil(d) == DaysFromCivil(e)
    ensures d.year == e.year
  {
    hide DaysFromCivil, MarchFirst;
    YearBounds(d);
    YearBounds(e);
    if d.year < e.year {
      MarchGrows(d.year, e.year - 1);
    } else if e.year < d.year {
      MarchGrows(e.year, d.year - 1);
    }
  }

  lemma SameMonth(d: Date, e: Date)
    requires Valid(d) && Valid(e) && d.year == e.year && DaysFromCivil(d) == DaysFromCivil(e)
    ensures d == e
  {
    hide DaysFromCivil, MarchFirst;
    DaysFromMarch(d);
    DaysFromMarch(e);
    MarchToMarch(d.year - 1);
  }

  /** Different dates have different counts, so every date is reached by counting. */
  lemma EveryDateCounted(d: Date)
    requires Valid(d)
    ensures Counted(DaysFromCivil(d)) == d
  {
    var n := DaysFromCivil(d);
    CountingAgrees(n);
    SameYear(d, Counted(n));
    SameMonth(d, Counted(n));
  }
}
