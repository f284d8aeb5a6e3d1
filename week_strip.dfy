/** The task editor of the calendar screen: a strip of nine week blocks around the
    task's week, and the due date assembled from the date and time inputs. */
module WeekStrip {
  import opened Wrappers
  import opened Dates

  /** `addDays`: the same time of day, `n` days later. */
  function AddDaysTo(d: Moment, n: int): Moment
  {
    Moment(AddDays(d.date, n), d.ms)
  }

  /** `startOfWeek`: midnight of the Monday on or before `d`. */
  function StartOfWeek(d: Moment): (r: Moment)
    ensures MondayOffset(r.date) == 0 && r.ms == 0
    ensures DayNumber(d.date) - 6 <= DayNumber(r.date) <= DayNumber(d.date)
  {
    var x := DayNumber(d.date);
    var back := MondayOffset(d.date);
    DayNumberAddDays(d.date, -back);
    assert x - back == 7 * (x / 7);
    ModShift(0, x / 7);
    Moment(AddDays(d.date, -back), 0)
  }

  /** The Monday before a date is its own week start. */
  lemma StartOfWeekIdempotent(d: Moment)
    ensures StartOfWeek(StartOfWeek(d)) == StartOfWeek(d)
  {
  }

  /** `addDays` is undone by adding the opposite count, and composes additively. */
  lemma AddDaysToAlgebra(d: Moment, a: int, b: int)
    ensures AddDaysTo(AddDaysTo(d, a), -a) == d
    ensures AddDaysTo(AddDaysTo(d, a), b) == AddDaysTo(d, a + b)
  {
    AddDaysRoundTrip(d.date, a);
    AddDaysAdditive(d.date, a, b);
  }

  /** `initialWeekStart`: the week of the task's due date, or of `now` when it has none. */
  function InitialWeekStart(dueDate: Option<Moment>, now: Moment): Moment
  {
    StartOfWeek(dueDate.GetOr(now))
  }

  /** The due day (or today) appears in the initial week's block, under its weekday label. */
  lemma {:induction false} DueDayInInitialWeek(dueDate: Option<Moment>, now: Moment)
    ensures WeekBlock(InitialWeekStart(dueDate, now))[MondayOffset(dueDate.GetOr(now).date)].date
         == dueDate.GetOr(now).date
  {
    var d := dueDate.GetOr(now);
    AddDaysRoundTrip(d.date, -MondayOffset(d.date));
  }

  /** The `weeks` memo: nine week starts, four before and four after the task's week. */
  method Weeks(initialWeekStart: Moment) returns (weeks: seq<Moment>)
    ensures |weeks| == 9
    ensures forall k :: 0 <= k < 9 ==> weeks[k] == AddDaysTo(initialWeekStart, (k - 4) * 7)
  {
    weeks := [];
    for i := -4 to 5
      invariant |weeks| == i + 4
      invariant forall k :: 0 <= k < |weeks| ==> weeks[k] == AddDaysTo(initialWeekStart, (k - 4) * 7)
    {
      weeks := weeks + [AddDaysTo(initialWeekStart, i * 7)];
    }
  }

  /** The week strip is centred on the initial week and its blocks are a week apart;
      started from a Monday, every block starts on a Monday. */
  lemma WeeksSpacing(initialWeekStart: Moment, weeks: seq<Moment>, k: int)
    requires |weeks| == 9
    requires forall j :: 0 <= j < 9 ==> weeks[j] == AddDaysTo(initialWeekStart, (j - 4) * 7)
    requires 0 <= k < 8
    ensures weeks[4] == initialWeekStart
    ensures weeks[k + 1] == AddDaysTo(weeks[k], 7)
    ensures MondayOffset(initialWeekStart.date) == 0 ==> MondayOffset(weeks[k].date) == 0
  {
    AddDaysAdditive(initialWeekStart.date, (k - 4) * 7, 7);
    MondayOffsetAddDays(initialWeekStart.date, (k - 4) * 7);
    ModShift(0, k - 4);
  }

  /** The seven days of one week block. */
  function WeekBlock(w: Moment): (r: seq<Moment>)
    ensures |r| == 7
    ensures forall di :: 0 <= di < 7 ==> r[di] == AddDaysTo(w, di)
  {
    seq(7, di requires 0 <= di < 7 => AddDaysTo(w, di))
  }

  /** A block started on a Monday shows seven consecutive days whose weekdays match the
      labels 'Пн' ... 'Вс' drawn above them. */
  lemma WeekBlockLabels(w: Moment, di: int)
    requires MondayOffset(w.date) == 0 && 0 <= di < 7
    ensures MondayOffset(WeekBlock(w)[di].date) == di
    ensures DayNumber(WeekBlock(w)[di].date) == DayNumber(w.date) + di
  {
    DayNumberAddDays(w.date, di);
    ModAfterMultiple(DayNumber(w.date), di);
  }

  /** What `onSave` receives: exactly these three properties. */
  datatype SaveUpdates = SaveUpdates(title: string, description: string, dueDate: Option<Moment>)

  /** `handleSubmit`: no date gives no due date; a date without a time means 00:00.
      The date input is `None` when empty; the time input is in minutes. */
  function SubmitUpdates(title: string, description: string, date: Option<Date>, timeMinutes: Option<int>): (r: SaveUpdates)
    requires timeMinutes.Some? ==> 0 <= timeMinutes.value < 24 * 60
    ensures r.title == title && r.description == description
    ensures date.None? <==> r.dueDate.None?
    ensures date.Some? ==> r.dueDate.value.date == date.value
    ensures date.Some? && timeMinutes.None? ==> r.dueDate.value.ms == 0
    ensures date.Some? && timeMinutes.Some? ==> r.dueDate.value.ms == timeMinutes.value * 60_000
  {
    var dueDate :=
      if date.None? then None
      else Some(Moment(date.value, timeMinutes.GetOr(0) * 60_000));
    SaveUpdates(title, description, dueDate)
  }
}
