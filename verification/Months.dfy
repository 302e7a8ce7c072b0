/** Month arithmetic: the scheduled lag and the half-open month windows. */
module Months {
  import opened Wrappers
  import opened Cells

  datatype YearMonth = YearMonth(year: int, month: int) {
    predicate Valid() {
      1 <= month <= 12
    }
  }

  /** Months in calendar order. */
  function Index(x: YearMonth): int {
    x.year * 12 + x.month - 1
  }

  function Next(x: YearMonth): YearMonth {
    if x.month == 12 then YearMonth(x.year + 1, 1) else YearMonth(x.year, x.month + 1)
  }

  function Later(x: YearMonth, n: nat): YearMonth
    decreases n
  {
    if n == 0 then x else Next(Later(x, n - 1))
  }

  datatype MonthError = OnlyOneGiven | BadYear | BadMonth

  /** Resolves an explicit month, or the month two before the logical one. */
  function ResolveMonth(logical: YearMonth, year: Option<int>, month: Option<int>): Result<YearMonth, MonthError> {
    if year.None? != month.None? then Err(OnlyOneGiven)
    else if year.Some? then
      if !(1000 <= year.value <= 9999) then Err(BadYear)
      else if !(1 <= month.value <= 12) then Err(BadMonth)
      else Ok(YearMonth(year.value, month.value))
    else
      var monthIndex := logical.year * 12 + logical.month - 3;
      Ok(YearMonth(monthIndex / 12, monthIndex % 12 + 1))
  }

  /** An explicit month is returned as it is if it is valid, and every error has its own cause. */
  lemma ExplicitMonthIsKept(logical: YearMonth, year: Option<int>, month: Option<int>)
    ensures
      var r := ResolveMonth(logical, year, month);
      && (r == Err(OnlyOneGiven) <==> year.Some? != month.Some?)
      && (r == Err(BadYear) <==> year.Some? && month.Some? && (year.value < 1000 || year.value > 9999))
      && (r == Err(BadMonth) <==>
            year.Some? && month.Some? && 1000 <= year.value <= 9999 && (month.value < 1 || month.value > 12))
      && (r.Ok? && year.Some? ==> month.Some? && r.value.year == year.value && r.value.month == month.value)
  {
  }

  lemma IndexIsInjective(x: YearMonth, y: YearMonth)
    requires x.Valid() && y.Valid() && Index(x) == Index(y)
    ensures x == y
  {
  }

  /** The scheduled month is the logical one minus two, whatever years lie between. */
  lemma LagIsTwoMonths(logical: YearMonth)
    requires logical.Valid()
    ensures
      var r := ResolveMonth(logical, None, None);
      r.Ok? && r.value.Valid() && Next(Next(r.value)) == logical
  {
    var r := ResolveMonth(logical, None, None).value;
    assert Index(r) == Index(logical) - 2;
    IndexIsInjective(Next(Next(r)), logical);
  }

  lemma {:induction false} LaterValid(x: YearMonth, n: nat)
    requires x.Valid()
    ensures Later(x, n).Valid() && Index(Later(x, n)) == Index(x) + n
  {
    if n > 0 {
      LaterValid(x, n - 1);
    }
  }

  /** So the schedule maps consecutive logical months to consecutive partitions, without gap or repeat. */
  lemma {:induction false} ScheduleHasNoGaps(logical: YearMonth, n: nat)
    requires logical.Valid()
    ensures ResolveMonth(Later(logical, n), None, None).Ok?
    ensures ResolveMonth(Later(logical, n), None, None).value == Later(ResolveMonth(logical, None, None).value, n)
  {
    var first := ResolveMonth(logical, None, None).value;
    var nth := ResolveMonth(Later(logical, n), None, None).value;
    LagIsTwoMonths(logical);
    LaterValid(logical, n);
    LagIsTwoMonths(Later(logical, n));
    LaterValid(first, n);
    IndexIsInjective(nth, Later(first, n));
  }

  // ---------- windows ----------

  predicate DateBefore(x: Date, y: Date) {
    x.year < y.year || (x.year == y.year && (x.month < y.month || (x.month == y.month && x.day < y.day)))
  }

  /** A timestamp compared with the midnight that starts a date. */
  predicate StampBefore(at: Timestamp, d: Date) {
    DateBefore(at.date, d)
  }

  /** The first day of a source month. */
  function Start(year: int, month: int): Date
    requires 1 <= year && 1 <= month <= 12
  {
    DateParts(year, month, 1)
  }

  /** The first day after it, as the query computes it. Dates end with the year 9999. */
  function End(year: int, month: int): Option<Date>
    requires 1 <= year && 1 <= month <= 12
  {
    var y := year + (if month == 12 then 1 else 0);
    if y > 9999 then None else Some(DateParts(y, month % 12 + 1, 1))
  }

  /** The query's condition: a pickup that is not null and not in the half-open window. */
  predicate Outside(pickup: Option<Timestamp>, start: Date, end: Date) {
    pickup.Some? && (StampBefore(pickup.value, start) || !StampBefore(pickup.value, end))
  }

  /** The windows tile time: a pickup is outside exactly when its own year or month differs. */
  lemma OutsideMeansOtherMonth(pickup: Option<Timestamp>, year: int, month: int)
    requires 1 <= year && 1 <= month <= 12 && End(year, month).Some?
    ensures Outside(pickup, Start(year, month), End(year, month).value)
       <==> (pickup.Some? && (pickup.value.date.year != year || pickup.value.date.month != month))
  {
  }

  /** The only month without a window is December 9999. */
  lemma WindowExists(year: int, month: int)
    requires 1 <= year <= 9999 && 1 <= month <= 12
    ensures End(year, month).None? <==> year == 9999 && month == 12
  {
  }
}
