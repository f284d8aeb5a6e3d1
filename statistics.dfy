/** The statistics panel: tasks created within a period, how many of them are
    completed, the rounded completion percentage and the weekday on which most of
    the completed tasks were created. */
module Statistics {
  import opened Seqs
  import opened Dates
  import opened Types

  datatype Period = Week | Month | Year

  /** `startDate` as a time stamp: a week before now, or midnight of the first day of
      the current month, or of 1 January of the current year. */
  function PeriodStart(p: Period, now: Moment): (start: int)
    ensures start <= Stamp(now)
    ensures p.Week? ==> Stamp(now) - start == 7 * MsPerDay
    ensures p.Month? ==> start == (DayNumber(now.date) - (now.date.day - 1)) * MsPerDay
    ensures p.Year? ==> start == DaysBeforeYear(now.date.year) * MsPerDay
    ensures p.Year? ==> start % MsPerDay == 0
    ensures p.Year? ==> start <= (DayNumber(now.date) - (now.date.day - 1)) * MsPerDay
  {
    MidnightStarts(now);
    match p
    case Week => Stamp(now) - 7 * MsPerDay
    case Month => Stamp(Moment(Civil(now.date.year, now.date.month, 1), 0))
    case Year => Stamp(Moment(Civil(now.date.year, 1, 1), 0))
  }

  lemma MidnightStarts(now: Moment)
    ensures var month, year := Stamp(Moment(Civil(now.date.year, now.date.month, 1), 0)),
                               Stamp(Moment(Civil(now.date.year, 1, 1), 0));
            && month == (DayNumber(now.date) - (now.date.day - 1)) * MsPerDay
            && year == DaysBeforeYear(now.date.year) * MsPerDay
            && year % MsPerDay == 0
            && year <= month <= Stamp(now)
  {
    var y := now.date.year;
    var a := DaysBeforeYear(y);
    var b := a + DaysBeforeMonth(y, now.date.month);
    var n := DayNumber(now.date);
    assert DayNumber(Civil(y, 1, 1)) == a;
    assert DayNumber(Civil(y, now.date.month, 1)) == b == n - (now.date.day - 1);
    MulMono(MsPerDay, a, b);
    MulMono(MsPerDay, b, n);
    DivUnique(a * MsPerDay, MsPerDay, a, 0);
  }

  /** The test `createdDate >= startDate`. */
  function CreatedSince(start: int): PlannerTask -> bool
  {
    (t: PlannerTask) => Stamp(t.createdAt) >= start
  }

  /** `getFilteredTasks`: the tasks created since the period start, in their order. */
  function FilteredTasks(tasks: seq<PlannerTask>, p: Period, now: Moment): (r: seq<PlannerTask>)
    ensures forall i :: 0 <= i < |r| ==> Stamp(r[i].createdAt) >= PeriodStart(p, now)
    ensures IsSubsequence(r, tasks)
  {
    Filter(CreatedSince(PeriodStart(p, now)), tasks)
  }

  /** No task created since the period start is dropped. */
  lemma FilteredKeepsRecent(tasks: seq<PlannerTask>, p: Period, now: Moment, i: int)
    requires 0 <= i < |tasks| && Stamp(tasks[i].createdAt) >= PeriodStart(p, now)
    ensures tasks[i] in FilteredTasks(tasks, p, now)
  {
    FilterKeeps(CreatedSince(PeriodStart(p, now)), tasks, i);
  }

  /** A longer period never counts fewer tasks: the year starts no later than the month. */
  lemma YearCoversMonth(tasks: seq<PlannerTask>, now: Moment, i: int)
    requires 0 <= i < |tasks| && tasks[i] in FilteredTasks(tasks, Month, now)
    ensures tasks[i] in FilteredTasks(tasks, Year, now)
  {
    var r := FilteredTasks(tasks, Month, now);
    var k :| 0 <= k < |r| && r[k] == tasks[i];
    assert Stamp(tasks[i].createdAt) >= PeriodStart(Month, now);
    FilteredKeepsRecent(tasks, Year, now, i);
  }

  /** The test `task.status === 'completed'`. */
  const IsDone: PlannerTask -> bool := (t: PlannerTask) => t.status == Completed

  /** `completedTasks`: the filtered tasks whose status is completed, in their order. */
  function CompletedTasks(filtered: seq<PlannerTask>): (r: seq<PlannerTask>)
    ensures |r| <= |filtered|
    ensures forall i :: 0 <= i < |r| ==> r[i].status == Completed
    ensures IsSubsequence(r, filtered)
  {
    Filter(IsDone, filtered)
  }

  /** `completionPercentage`: `Math.round(100 * completed / total)` in exact arithmetic
      (halves round up), and 0 when nothing is counted. */
  function CompletionPercentage(completed: nat, total: nat): (pct: int)
    requires completed <= total
    ensures 0 <= pct <= 100
    ensures total == 0 ==> pct == 0
    ensures total > 0 ==> 2 * total * pct <= 200 * completed + total < 2 * total * (pct + 1)
    ensures completed == 0 ==> pct == 0
    ensures total > 0 && completed == total ==> pct == 100
  {
    if total > 0 then
      var pct := (200 * completed + total) / (2 * total);
      PercentBounds(completed, total, pct);
      pct
    else 0
  }

  lemma PercentBounds(completed: nat, total: nat, pct: int)
    requires 0 < total && completed <= total
    requires pct == (200 * completed + total) / (2 * total)
    ensures 2 * total * pct <= 200 * completed + total < 2 * total * (pct + 1)
    ensures 0 <= pct <= 100
    ensures completed == 0 ==> pct == 0
    ensures completed == total ==> pct == 100
  {
    var n, q := 200 * completed + total, 2 * total;
    var r := n % q;
    assert n == q * pct + r && 0 <= r < q;
    assert q * (pct + 1) == q * pct + q;
    if pct > 100 {
      MulMono(q, 101, pct);
      assert false;
    }
    if pct < 0 {
      MulMono(q, pct + 1, 0);
      assert false;
    }
    if completed == 0 {
      DivUnique(n, q, 0, total);
    }
    if completed == total {
      DivUnique(n, q, 100, total);
    }
  }

  lemma MulMono(q: int, a: int, b: int)
    requires q > 0 && a <= b
    ensures q * a <= q * b
  {
    assert q * b == q * a + q * (b - a);
    if a < b {
      MulAtLeast(q, b - a);
    }
  }

  /** When every task of the period is completed the panel shows 100%. */
  lemma AllCompletedIsFull(tasks: seq<PlannerTask>, p: Period, now: Moment)
    requires FilteredTasks(tasks, p, now) != []
    requires forall i :: 0 <= i < |FilteredTasks(tasks, p, now)| ==> FilteredTasks(tasks, p, now)[i].status == Completed
    ensures var f := FilteredTasks(tasks, p, now);
            CompletionPercentage(|CompletedTasks(f)|, |f|) == 100
  {
    FilterAll(IsDone, FilteredTasks(tasks, p, now));
  }

  // ---- Most productive day ----

  /** The bucket key of a completed task: the weekday of its creation, standing in for
      the locale's weekday name (one name per weekday). */
  function Weekday(t: PlannerTask): int
  {
    JsDay(t.createdAt.date)
  }

  /** How many of `ts` were created on weekday `w`. */
  function CountOn(ts: seq<PlannerTask>, w: int): (n: nat)
    ensures n <= |ts|
  {
    if ts == [] then 0
    else CountOn(ts[..|ts| - 1], w) + (if Weekday(ts[|ts| - 1]) == w then 1 else 0)
  }

  /** The keys of `dayCount` in `Object.entries` order, which for these non-numeric
      keys is the order in which they were first inserted. */
  function DayKeys(ts: seq<PlannerTask>): (ks: seq<int>)
    ensures |ks| <= |ts|
    ensures ts != [] ==> ks != []
    ensures forall i, j :: 0 <= i < j < |ks| ==> ks[i] != ks[j]
  {
    if ts == [] then []
    else
      var ks := DayKeys(ts[..|ts| - 1]);
      var w := Weekday(ts[|ts| - 1]);
      if w in ks then ks else ks + [w]
  }

  /** The keys are exactly the weekdays on which some task was created. */
  lemma {:induction false} DayKeysExactlyCounted(ts: seq<PlannerTask>)
    ensures forall w :: w in DayKeys(ts) <==> CountOn(ts, w) > 0
    decreases |ts|
  {
    if ts != [] {
      DayKeysExactlyCounted(ts[..|ts| - 1]);
    }
  }

  /** `entries.reduce((a, b) => a[1] > b[1] ? a : b)`: the key with the largest count,
      a later key replacing an earlier one on a tie. */
  function Busiest(ts: seq<PlannerTask>, ks: seq<int>): (w: int)
    requires ks != []
    ensures w in ks
    ensures forall i :: 0 <= i < |ks| ==> CountOn(ts, ks[i]) <= CountOn(ts, w)
  {
    if |ks| == 1 then ks[0]
    else
      var a := Busiest(ts, ks[..|ks| - 1]);
      var b := ks[|ks| - 1];
      if CountOn(ts, a) > CountOn(ts, b) then a else b
  }

  datatype ProductiveDay = NoData | Day(weekday: int, count: nat)

  /** What `getMostProductiveDay` reports about the completed tasks. */
  function MostProductive(completed: seq<PlannerTask>): (r: ProductiveDay)
    ensures r.NoData? <==> completed == []
    ensures r.Day? ==> r.count == CountOn(completed, r.weekday) && r.count > 0
    ensures r.Day? ==> forall w :: CountOn(completed, w) <= r.count
  {
    if completed == [] then NoData
    else
      var ks := DayKeys(completed);
      var w := Busiest(completed, ks);
      DayKeysExactlyCounted(completed);
      assert forall v :: v in ks ==> CountOn(completed, v) <= CountOn(completed, w) by {
        forall v | v in ks ensures CountOn(completed, v) <= CountOn(completed, w) {
          var i :| 0 <= i < |ks| && ks[i] == v;
        }
      }
      Day(w, CountOn(completed, w))
  }

  /** On a tie the later key wins: every key after the reported one counts strictly
      fewer tasks. */
  lemma {:induction false} BusiestIsLastMaximum(ts: seq<PlannerTask>, ks: seq<int>, i: int)
    requires ks != [] && forall a, b :: 0 <= a < b < |ks| ==> ks[a] != ks[b]
    requires 0 <= i < |ks| && ks[i] == Busiest(ts, ks)
    ensures forall j :: i < j < |ks| ==> CountOn(ts, ks[j]) < CountOn(ts, ks[i])
    decreases |ks|
  {
    if |ks| > 1 {
      var a := Busiest(ts, ks[..|ks| - 1]);
      var b := ks[|ks| - 1];
      if CountOn(ts, a) > CountOn(ts, b) {
        assert i < |ks| - 1;
        BusiestIsLastMaximum(ts, ks[..|ks| - 1], i);
      }
    }
  }

  /** The reported weekday is the last, in key order, of those with the largest count. */
  lemma TieGoesToLater(completed: seq<PlannerTask>, i: int)
    requires MostProductive(completed).Day?
    requires 0 <= i < |DayKeys(completed)| && DayKeys(completed)[i] == MostProductive(completed).weekday
    ensures forall j :: i < j < |DayKeys(completed)| ==>
              CountOn(completed, DayKeys(completed)[j]) < MostProductive(completed).count
  {
    BusiestIsLastMaximum(completed, DayKeys(completed), i);
  }

  /** The sum of the counts of keys `ks`. */
  function SumCounts(ts: seq<PlannerTask>, ks: seq<int>): int
  {
    if ks == [] then 0 else SumCounts(ts, ks[..|ks| - 1]) + CountOn(ts, ks[|ks| - 1])
  }

  lemma {:induction false} SumCountsStep(ts: seq<PlannerTask>, t: PlannerTask, ks: seq<int>)
    requires forall a, b :: 0 <= a < b < |ks| ==> ks[a] != ks[b]
    ensures SumCounts(ts + [t], ks) == SumCounts(ts, ks) + (if Weekday(t) in ks then 1 else 0)
    decreases |ks|
  {
    if ks != [] {
      var init := ks[..|ks| - 1];
      assert (ts + [t])[..|ts + [t]| - 1] == ts;
      SumCountsStep(ts, t, init);
      assert Weekday(t) in ks <==> Weekday(t) in init || Weekday(t) == ks[|ks| - 1];
      if Weekday(t) == ks[|ks| - 1] {
        assert Weekday(t) !in init;
      }
    }
  }

  /** Every completed task lands in exactly one bucket: the counts sum to their number. */
  lemma {:induction false} BucketsSumToCompleted(completed: seq<PlannerTask>)
    ensures SumCounts(completed, DayKeys(completed)) == |completed|
    decreases |completed|
  {
    if completed != [] {
      var init := completed[..|completed| - 1];
      var t := completed[|completed| - 1];
      assert completed == init + [t];
      BucketsSumToCompleted(init);
      var ks := DayKeys(init);
      SumCountsStep(init, t, ks);
      if Weekday(t) !in ks {
        DayKeysExactlyCounted(init);
        assert CountOn(init, Weekday(t)) == 0;
        assert DayKeys(completed)[..|DayKeys(completed)| - 1] == ks;
      }
    }
  }

  /** `getMostProductiveDay`: count completed tasks per weekday in a dictionary, then
      pick the entry with the largest count. */
  method GetMostProductiveDay(completed: seq<PlannerTask>) returns (r: ProductiveDay)
    ensures r == MostProductive(completed)
  {
    var entries, dayCount := CountPerDay(completed);
    if |entries| == 0 {
      return NoData;
    }
    var best := entries[0];
    var bestCount := dayCount[best];
    assert [best] == entries[..1];
    for j := 1 to |entries|
      invariant best == Busiest(completed, entries[..j])
      invariant best in dayCount && bestCount == CountOn(completed, best)
    {
      BusiestStep(completed, entries, j);
      var b := entries[j];
      assert b in entries;
      var count := dayCount[b];
      if !(bestCount > count) {
        best, bestCount := b, count;
      }
    }
    assert entries[..|entries|] == entries;
    r := Day(best, bestCount);
  }

  /** `entries` and `dayCount` hold the weekday counts of `ts`: the keys in insertion
      order, each mapped to its number of tasks. */
  ghost predicate Tally(ts: seq<PlannerTask>, entries: seq<int>, dayCount: map<int, nat>)
  {
    && entries == DayKeys(ts)
    && (forall w :: w in dayCount <==> w in entries)
    && (forall w :: w in dayCount ==> dayCount[w] == CountOn(ts, w))
  }

  /** One `forEach` step: `dayCount[dayName] = (dayCount[dayName] || 0) + 1`. */
  lemma TallyStep(ts: seq<PlannerTask>, t: PlannerTask, entries: seq<int>, dayCount: map<int, nat>)
    requires Tally(ts, entries, dayCount)
    ensures var w := Weekday(t);
            Tally(ts + [t],
                  if w in dayCount then entries else entries + [w],
                  dayCount[w := (if w in dayCount then dayCount[w] else 0) + 1])
  {
    var w := Weekday(t);
    var entries' := if w in dayCount then entries else entries + [w];
    var dayCount' := dayCount[w := (if w in dayCount then dayCount[w] else 0) + 1];
    DayKeysSnoc(ts, t);
    if w !in dayCount {
      DayKeysExactlyCounted(ts);
    }
    forall v ensures v in dayCount' <==> v in entries' {
      assert v in entries' <==> v in entries || v == w;
    }
    forall v | v in dayCount' ensures dayCount'[v] == CountOn(ts + [t], v) {
      CountOnSnoc(ts, t, v);
    }
  }

  /** The `forEach` that fills `dayCount`; `entries` lists its keys in insertion order. */
  method CountPerDay(completed: seq<PlannerTask>) returns (entries: seq<int>, dayCount: map<int, nat>)
    ensures Tally(completed, entries, dayCount)
  {
    dayCount := map[];
    entries := [];
    for i := 0 to |completed|
      invariant Tally(completed[..i], entries, dayCount)
    {
      assert completed[..i + 1] == completed[..i] + [completed[i]];
      TallyStep(completed[..i], completed[i], entries, dayCount);
      var w := Weekday(completed[i]);
      var seen := if w in dayCount then dayCount[w] else 0;
      if w !in dayCount {
        entries := entries + [w];
      }
      dayCount := dayCount[w := seen + 1];
    }
    assert completed[..|completed|] == completed;
  }

  lemma BusiestStep(ts: seq<PlannerTask>, ks: seq<int>, j: int)
    requires 0 < j < |ks|
    ensures var a := Busiest(ts, ks[..j]);
            Busiest(ts, ks[..j + 1]) == if CountOn(ts, a) > CountOn(ts, ks[j]) then a else ks[j]
  {
    assert ks[..j + 1][..j] == ks[..j];
  }

  lemma CountOnSnoc(ts: seq<PlannerTask>, t: PlannerTask, w: int)
    ensures CountOn(ts + [t], w) == CountOn(ts, w) + (if Weekday(t) == w then 1 else 0)
  {
    assert (ts + [t])[..|ts|] == ts;
  }

  lemma DayKeysSnoc(ts: seq<PlannerTask>, t: PlannerTask)
    ensures DayKeys(ts + [t]) == if Weekday(t) in DayKeys(ts) then DayKeys(ts) else DayKeys(ts) + [Weekday(t)]
  {
    assert (ts + [t])[..|ts|] == ts;
  }
}
