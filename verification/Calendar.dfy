/** Day numbers of Gregorian dates, as SEARCH compares them. */
module Calendar {

  datatype Date = Date(year: int, month: int, day: int)

  // ----- the calendar itself -----

  predicate IsLeap(y: int) {
    y % 4 == 0 && (y % 100 != 0 || y % 400 == 0)
  }

  function DaysInMonth(y: int, m: int): int {
    if m == 2 then if IsLeap(y) then 29 else 28
    else if m in {4, 6, 9, 11} then 30
    else 31
  }

  predicate IsDate(c: Date) {
    1 <= c.month <= 12 && 1 <= c.day <= DaysInMonth(c.year, c.month)
  }

  function NextDay(c: Date): (r: Date)
    requires IsDate(c)
    ensures IsDate(r) && r.year >= c.year
  {
    if c.day < DaysInMonth(c.year, c.month) then c.(day := c.day + 1)
    else if c.month < 12 then Date(c.year, c.month + 1, 1)
    else Date(c.year + 1, 1, 1)
  }

  predicate Earlier(a: Date, b: Date) {
    a.year < b.year || (a.year == b.year && (a.month < b.month || (a.month == b.month && a.day < b.day)))
  }

  // ----- the arithmetic of the source -----

  /** Division truncating toward zero. */
  function TruncDiv(a: int, b: int): int
    requires b > 0
  {
    if a >= 0 then a / b else -(-a / b)
  }

  function DaysFromCivil(y0: int, m: int, d: int): int {
    var y := if m <= 2 then y0 - 1 else y0;
    var era := TruncDiv(if y >= 0 then y else y - 399, 400);
    var yoe := y - era * 400;
    var doy := TruncDiv(153 * (if m > 2 then m - 3 else m + 9) + 2, 5) + d - 1;
    var doe := yoe * 365 + TruncDiv(yoe, 4) - TruncDiv(yoe, 100) + doy;
    era * 146097 + doe - 719468
  }

  function DayNumber(c: Date): int {
    DaysFromCivil(c.year, c.month, c.day)
  }

  // ----- a closed form -----

  /** Days before the year that starts on 1 March of `y`, counted with floor division. */
  function YearStart(y: int): int {
    365 * y + y / 4 - y / 100 + y / 400
  }

  /** Years run from March, so that the leap day comes last. */
  function MarchYear(c: Date): int {
    if c.month <= 2 then c.year - 1 else c.year
  }

  function MarchMonth(c: Date): int {
    if c.month > 2 then c.month - 3 else c.month + 9
  }

  function MonthStart(mp: int): int {
    (153 * mp + 2) / 5
  }

  lemma EraIsFloor(y: int)
    ensures TruncDiv(if y >= 0 then y else y - 399, 400) == y / 400
  {
  }

  lemma ClosedForm(c: Date)
    requires 1 <= c.month <= 12
    ensures DayNumber(c) == YearStart(MarchYear(c)) + MonthStart(MarchMonth(c)) + c.day - 1 - 719468
  {
    var y := MarchYear(c);
    var era, yoe := y / 400, y % 400;
    EraIsFloor(y);
    assert y == era * 400 + yoe;
    assert y / 4 == era * 100 + yoe / 4;
    assert y / 100 == era * 4 + yoe / 100;
  }

  lemma YearLength(y: int)
    ensures YearStart(y) == YearStart(y - 1) + if IsLeap(y) then 366 else 365
  {
    assert y / 4 == (y - 1) / 4 + if y % 4 == 0 then 1 else 0;
    assert y / 100 == (y - 1) / 100 + if y % 100 == 0 then 1 else 0;
    assert y / 400 == (y - 1) / 400 + if y % 400 == 0 then 1 else 0;
  }

  /** The month table: each month but February is as long as the distance to the next one. */
  lemma MonthLength(y: int, m: int)
    requires 1 <= m <= 12 && m != 2
    ensures MonthStart(MarchMonth(Date(y, if m == 12 then 1 else m + 1, 1))) - MonthStart(MarchMonth(Date(y, m, 1)))
            == DaysInMonth(y, m)
  {
  }

  /** The first day of a month follows the last day of the one before. */
  lemma MonthSteps(y: int, m: int)
    requires 1 <= m <= 12
    ensures DayNumber(if m == 12 then Date(y + 1, 1, 1) else Date(y, m + 1, 1)) ==
            DayNumber(Date(y, m, DaysInMonth(y, m))) + 1
  {
    ClosedForm(Date(y, m, DaysInMonth(y, m)));
    ClosedForm(if m == 12 then Date(y + 1, 1, 1) else Date(y, m + 1, 1));
    if m == 2 {
      YearLength(y);
    } else {
      MonthLength(y, m);
    }
  }

  /** The epoch is day 0, and every following date is one more. */
  lemma DayNumberSteps(c: Date)
    requires IsDate(c)
    ensures DayNumber(Date(1970, 1, 1)) == 0
    ensures DayNumber(NextDay(c)) == DayNumber(c) + 1
  {
    if c.day < DaysInMonth(c.year, c.month) {
      ClosedForm(c);
      ClosedForm(NextDay(c));
    } else {
      MonthSteps(c.year, c.month);
      assert c == Date(c.year, c.month, DaysInMonth(c.year, c.month));
    }
  }

  lemma {:induction false} YearStartMonotone(a: int, b: int)
    requires a <= b
    ensures YearStart(a) <= YearStart(b)
    decreases b - a
  {
    if a < b {
      YearLength(b);
      YearStartMonotone(a, b - 1);
    }
  }

  /** A date lies inside its March year and before the next month of it. */
  lemma WithinYear(c: Date)
    requires IsDate(c)
    ensures YearStart(MarchYear(c)) <= DayNumber(c) + 719468 < YearStart(MarchYear(c) + 1)
    ensures MarchMonth(c) < 11 ==>
              DayNumber(c) + 719468 < YearStart(MarchYear(c)) + MonthStart(MarchMonth(c) + 1)
  {
    ClosedForm(c);
    YearLength(MarchYear(c) + 1);
    if c.month != 2 {
      MonthLength(c.year, c.month);
    }
  }

  lemma MonthStartMonotone(a: int, b: int)
    requires a <= b
    ensures MonthStart(a) <= MonthStart(b)
  {
  }

  lemma EarlierIsSmaller(a: Date, b: Date)
    requires IsDate(a) && IsDate(b) && Earlier(a, b)
    ensures DayNumber(a) < DayNumber(b)
  {
    WithinYear(a);
    WithinYear(b);
    ClosedForm(a);
    ClosedForm(b);
    if MarchYear(a) < MarchYear(b) {
      YearStartMonotone(MarchYear(a) + 1, MarchYear(b));
    } else if MarchMonth(a) < MarchMonth(b) {
      MonthStartMonotone(MarchMonth(a) + 1, MarchMonth(b));
    }
  }

  /** Day numbers order dates exactly as the calendar does, so equal numbers mean equal dates. */
  lemma DayNumberOrder(a: Date, b: Date)
    requires IsDate(a) && IsDate(b)
    ensures DayNumber(a) < DayNumber(b) <==> Earlier(a, b)
    ensures DayNumber(a) == DayNumber(b) <==> a == b
  {
    if Earlier(a, b) {
      EarlierIsSmaller(a, b);
    } else if a != b {
      EarlierIsSmaller(b, a);
    }
  }

  /** The date of a day since the epoch. */
  function DateOf(n: nat): (c: Date)
    ensures IsDate(c) && c.year >= 1970
  {
    if n == 0 then Date(1970, 1, 1) else NextDay(DateOf(n - 1))
  }

  lemma {:induction false} DateOfInverse(n: nat)
    ensures DayNumber(DateOf(n)) == n
  {
    DayNumberSteps(Date(1970, 1, 1));
    if n > 0 {
      DateOfInverse(n - 1);
      DayNumberSteps(DateOf(n - 1));
    }
  }
}
