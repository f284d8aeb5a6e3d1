/** The month calendar: a Monday-first grid of 42 day cells, month navigation, and
    the day predicates that mark today, the selection and days with tasks. */
module Calendar {
  import opened Wrappers
  import opened Dates
  import opened Seqs
  import opened Types

  datatype YearMonth = YearMonth(year: int, month: int)

  /** The month on display (1 = January). */
  type Month = ym: YearMonth | 1 <= ym.month <= 12 witness YearMonth(1970, 1)

  /** Months counted from January of year 0, so that stepping is plain arithmetic. */
  function MonthIndex(ym: Month): int
  {
    ym.year * 12 + ym.month - 1
  }

  /** `new Date(year, month + 1)`: the next month, carrying into the next year. */
  function NextMonth(ym: Month): (r: Month)
    ensures MonthIndex(r) == MonthIndex(ym) + 1
  {
    if ym.month == 12 then YearMonth(ym.year + 1, 1) else YearMonth(ym.year, ym.month + 1)
  }

  /** `new Date(year, month - 1)`: the previous month, borrowing from the previous year. */
  function PrevMonth(ym: Month): (r: Month)
    ensures MonthIndex(r) == MonthIndex(ym) - 1
  {
    if ym.month == 1 then YearMonth(ym.year - 1, 12) else YearMonth(ym.year, ym.month - 1)
  }

  /** Month navigation is invertible. */
  lemma MonthStepsInverse(ym: Month)
    ensures PrevMonth(NextMonth(ym)) == ym && NextMonth(PrevMonth(ym)) == ym
  {
  }

  function FirstOf(ym: Month): Date
  {
    Civil(ym.year, ym.month, 1)
  }

  /** How many days of the previous month open the grid: the Monday-based weekday of
      the first. */
  function LeadingCount(ym: Month): (n: int)
    ensures 0 <= n < 7
    ensures n == DayNumber(FirstOf(ym)) % 7
  {
    MondayOffset(FirstOf(ym))
  }

  /** One grid cell: its date, and whether it belongs to the month on display. */
  datatype Cell = Cell(date: Date, isCurrentMonth: bool)

  /** The grid of `getDaysInMonth`: the last `lead` days of the previous month, every
      day of this month, then days 1, 2, ... of the next month up to 42 cells. */
  ghost predicate IsMonthGrid(ym: Month, days: seq<Cell>)
  {
    var lead := LeadingCount(ym);
    var dim := DaysInMonth(ym.year, ym.month);
    var prev, next := PrevMonth(ym), NextMonth(ym);
    var prevLast := DaysInMonth(prev.year, prev.month);
    && |days| == 42
    && (forall k :: 0 <= k < lead ==>
          days[k].date == Civil(prev.year, prev.month, prevLast - lead + 1 + k) && !days[k].isCurrentMonth)
    && (forall k :: lead <= k < lead + dim ==>
          days[k].date == Civil(ym.year, ym.month, k - lead + 1) && days[k].isCurrentMonth)
    && (forall k :: lead + dim <= k < 42 ==>
          days[k].date == Civil(next.year, next.month, k - lead - dim + 1) && !days[k].isCurrentMonth)
  }

  /** `getDaysInMonth`: three counting loops that fill the grid. */
  method GetDaysInMonth(ym: Month) returns (days: seq<Cell>)
    ensures IsMonthGrid(ym, days)
  {
    var first := FirstOf(ym);
    var dim := DaysInMonth(ym.year, ym.month);
    var lead := MondayOffset(first);
    days := [];

    var prev := PrevMonth(ym);
    var prevLast := DaysInMonth(prev.year, prev.month);
    var i := lead - 1;
    while i >= 0
      invariant -1 <= i <= lead - 1
      invariant |days| == lead - 1 - i
      invariant forall k :: 0 <= k < |days| ==>
                  days[k].date == Civil(prev.year, prev.month, prevLast - lead + 1 + k) && !days[k].isCurrentMonth
    {
      days := days + [Cell(Civil(prev.year, prev.month, prevLast - i), false)];
      i := i - 1;
    }

    i := 1;
    while i <= dim
      invariant 1 <= i <= dim + 1
      invariant |days| == lead + i - 1
      invariant forall k :: 0 <= k < lead ==>
                  days[k].date == Civil(prev.year, prev.month, prevLast - lead + 1 + k) && !days[k].isCurrentMonth
      invariant forall k :: lead <= k < |days| ==>
                  days[k].date == Civil(ym.year, ym.month, k - lead + 1) && days[k].isCurrentMonth
    {
      days := days + [Cell(Civil(ym.year, ym.month, i), true)];
      i := i + 1;
    }

    var next := NextMonth(ym);
    var remaining := 42 - |days|;
    i := 1;
    while i <= remaining
      invariant 1 <= i <= remaining + 1
      invariant |days| == lead + dim + i - 1
      invariant forall k :: 0 <= k < lead ==>
                  days[k].date == Civil(prev.year, prev.month, prevLast - lead + 1 + k) && !days[k].isCurrentMonth
      invariant forall k :: lead <= k < lead + dim ==>
                  days[k].date == Civil(ym.year, ym.month, k - lead + 1) && days[k].isCurrentMonth
      invariant forall k :: lead + dim <= k < |days| ==>
                  days[k].date == Civil(next.year, next.month, k - lead - dim + 1) && !days[k].isCurrentMonth
    {
      days := days + [Cell(Civil(next.year, next.month, i), false)];
      i := i + 1;
    }
  }

  // ---- Properties of the grid ----

  /** Cells flagged as the current month are exactly the cells dated in it. */
  lemma GridCurrentMonthExact(ym: Month, days: seq<Cell>, k: int)
    requires IsMonthGrid(ym, days) && 0 <= k < 42
    ensures days[k].isCurrentMonth <==> days[k].date.year == ym.year && days[k].date.month == ym.month
  {
  }

  /** The grid's day numbers run on from the Monday before (or on) the first. */
  lemma GridDayNumbers(ym: Month, days: seq<Cell>, k: int)
    requires IsMonthGrid(ym, days) && 0 <= k < 42
    ensures DayNumber(days[k].date) == DayNumber(FirstOf(ym)) - LeadingCount(ym) + k
  {
    var lead, dim := LeadingCount(ym), DaysInMonth(ym.year, ym.month);
    var prev, next := PrevMonth(ym), NextMonth(ym);
    var prevLast := DaysInMonth(prev.year, prev.month);
    if k < lead {
      var last: Date := Civil(prev.year, prev.month, prevLast);
      assert NextDay(last) == FirstOf(ym);
      DayNumberNext(last);
    } else if k >= lead + dim {
      var last: Date := Civil(ym.year, ym.month, dim);
      assert NextDay(last) == Civil(next.year, next.month, 1);
      DayNumberNext(last);
    }
  }

  /** Consecutive cells are consecutive calendar days. */
  lemma GridConsecutive(ym: Month, days: seq<Cell>, k: int)
    requires IsMonthGrid(ym, days) && 0 <= k < 41
    ensures days[k + 1].date == NextDay(days[k].date)
    ensures DayNumber(days[k + 1].date) == DayNumber(days[k].date) + 1
  {
    GridDayNumbers(ym, days, k);
    GridDayNumbers(ym, days, k + 1);
  }

  /** Column `k % 7` of the grid is weekday `k % 7`, Monday first, matching the
      header 'Пн' ... 'Вс'. */
  lemma GridColumnsAreWeekdays(ym: Month, days: seq<Cell>, k: int)
    requires IsMonthGrid(ym, days) && 0 <= k < 42
    ensures MondayOffset(days[k].date) == k % 7
  {
    GridDayNumbers(ym, days, k);
    var f := DayNumber(FirstOf(ym));
    assert f == 7 * (f / 7) + f % 7;
    ModShift(k, f / 7);
  }

  // ---- Day predicates ----

  /** `hasTasksOnDate`: some task is due on that calendar day, at any time of day;
      tasks without a due date never count. */
  predicate HasTasksOnDate(tasks: seq<Task>, day: Date)
    ensures HasTasksOnDate(tasks, day) <==>
            exists i :: 0 <= i < |tasks| && tasks[i].dueDate.Some? && tasks[i].dueDate.value.date == day
  {
    assert forall i :: 0 <= i < |tasks| ==> (DueOnDay(day)(tasks[i]) <==> DueOn(tasks[i], day));
    Any(DueOnDay(day), tasks)
  }

  /** `isToday`, with the clock reading as a parameter. */
  predicate IsToday(day: Date, now: Moment)
  {
    day == now.date
  }

  /** `isSelected`: nothing is selected when there is no selected date. */
  predicate IsSelected(day: Date, selected: Option<Moment>)
  {
    selected.Some? && selected.value.date == day
  }

  /** A cell shows the task dot when it is in the month and has tasks. */
  predicate ShowsDot(tasks: seq<Task>, c: Cell)
  {
    HasTasksOnDate(tasks, c.date) && c.isCurrentMonth
  }

  /** A click selects the cell's date only inside the month on display. */
  function DayClick(c: Cell): (r: Option<Date>)
    ensures r.Some? <==> c.isCurrentMonth
    ensures r.Some? ==> r.value == c.date
  {
    if c.isCurrentMonth then Some(c.date) else None
  }

  /** The 42 cells are 42 different days, so `isToday` and `isSelected` mark at most
      one cell of the grid: a date clicked in the grid is highlighted in that cell only. */
  lemma GridDatesDistinct(ym: Month, days: seq<Cell>, j: int, k: int, ms: TimeOfDay)
    requires IsMonthGrid(ym, days) && 0 <= j < 42 && 0 <= k < 42
    ensures days[j].date == days[k].date <==> j == k
    ensures IsSelected(days[j].date, Some(Moment(days[k].date, ms))) <==> j == k
    ensures IsToday(days[j].date, Moment(days[k].date, ms)) <==> j == k
  {
    GridDayNumbers(ym, days, j);
    GridDayNumbers(ym, days, k);
  }

  /** The task dot is drawn exactly on clickable cells with a task due that day. */
  lemma DotMeansClickableWithTasks(tasks: seq<Task>, c: Cell)
    ensures ShowsDot(tasks, c) <==>
            DayClick(c).Some? && exists i :: 0 <= i < |tasks| && DueOn(tasks[i], c.date)
  {
  }
}
