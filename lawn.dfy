/**
 * The activity heatmap ("lawn") of project/utils.py: the per-day count of
 * completed todos, a Sunday-to-Saturday grid over one calendar year with an
 * intensity level per day, and the number of grid weeks per month label.
 */
module Lawn {
  import opened Calendar
  import opened Wrappers
  import opened Models

  // ---- The per-day count query ----

  /** The caller's todos whose `completed_at` falls on day d. */
  function CompletedOn(todos: map<int, Todo>, uid: int, d: int): set<int> {
    set id | id in todos && todos[id].userId == uid && todos[id].completedAt.Some?
                         && todos[id].completedAt.value.day == d
  }

  function CountOn(todos: map<int, Todo>, uid: int, d: int): nat {
    |CompletedOn(todos, uid, d)|
  }

  /** Every day on which at least one of the caller's todos was completed. */
  function CompletionDays(todos: map<int, Todo>, uid: int): set<Day> {
    set id | id in todos && todos[id].userId == uid && todos[id].completedAt.Some?
           :: todos[id].completedAt.value.day
  }

  lemma CountOnPositive(todos: map<int, Todo>, uid: int, d: Day)
    ensures CountOn(todos, uid, d) > 0 <==> d in CompletionDays(todos, uid)
  {
    if d in CompletionDays(todos, uid) {
      var id :| id in todos && todos[id].userId == uid && todos[id].completedAt.Some?
                && todos[id].completedAt.value.day == d;
      assert id in CompletedOn(todos, uid, d);
    } else {
      assert forall id :: id !in CompletedOn(todos, uid, d);
      assert CompletedOn(todos, uid, d) == {};
    }
  }

  /**
   * `completion_counts`: the grouped query over the caller's completed todos
   * with a completion date in [from, to]; days without completions are absent.
   */
  function CompletionCounts(todos: map<int, Todo>, uid: int, from: int, to: int): (m: map<Day, nat>)
    ensures forall d: Day :: d in m <==> from <= d <= to && CountOn(todos, uid, d) > 0
    ensures forall d :: d in m ==> m[d] == CountOn(todos, uid, d)
  {
    forall d: Day ensures CountOn(todos, uid, d) > 0 <==> d in CompletionDays(todos, uid) {
      CountOnPositive(todos, uid, d);
    }
    map d | d in CompletionDays(todos, uid) && from <= d <= to :: CountOn(todos, uid, d)
  }

  /** `completion_counts.get(day_cursor, 0)` is the day's count inside [from, to] and 0 outside it. */
  lemma CountLookup(todos: map<int, Todo>, uid: int, from: int, to: int, counts: map<Day, nat>, d: Day)
    requires forall d: Day :: d in counts <==> from <= d <= to && CountOn(todos, uid, d) > 0
    requires forall d :: d in counts ==> counts[d] == CountOn(todos, uid, d)
    ensures (if d in counts then counts[d] else 0) == (if from <= d <= to then CountOn(todos, uid, d) else 0)
  {
  }

  // ---- Intensity levels ----

  /** The counts at which the level steps up. */
  const Thresholds: seq<nat> := [1, 3, 5, 10]

  /** The level of a day: 0 for no completions, then one step per threshold reached: the level exceeds i exactly when the count reaches the i-th threshold. */
  function Level(count: nat): (l: int)
    ensures 0 <= l <= 4
    ensures forall i :: 0 <= i < |Thresholds| ==> (l > i <==> count >= Thresholds[i])
  {
    if count >= 10 then 4 else if count >= 5 then 3 else if count >= 3 then 2 else if count > 0 then 1 else 0
  }

  lemma LevelMonotone(a: nat, b: nat)
    requires a <= b
    ensures Level(a) <= Level(b)
  {
  }

  // ---- The grid ----

  /** January 1 of year y. */
  function FirstDay(y: int): (d: Day)
    requires MinYear <= y <= MaxYear
    ensures d == ToOrdinal(Ymd(y, 1, 1))
  {
    DaysBeforeYearBounds(1, y);
    DaysBeforeYearBounds(y, MaxYear + 1);
    DaysBeforeLastYear();
    DaysBeforeYear(y) + 1
  }

  /** December 31 of year y. */
  function LastDay(y: int): (d: Day)
    requires MinYear <= y <= MaxYear
    ensures d == ToOrdinal(Ymd(y, 12, 31))
  {
    DaysBeforeYearBounds(1, y + 1);
    DaysBeforeYearBounds(y + 1, MaxYear + 1);
    DaysBeforeLastYear();
    DaysBeforeDecember(y);
    DaysBeforeYearStep(y);
    DaysBeforeYear(y + 1)
  }

  /** `start_of_grid`: the Sunday on or before `start`. */
  function GridStart(start: int): (g: int)
    ensures Weekday(g) == 6
    ensures g <= start < g + 7
  {
    start - (Weekday(start) + 1) % 7
  }

  /**
   * `end_of_grid`: `end` moved by `5 - weekday` days. That is the Saturday
   * on or after `end`, except when `end` is a Sunday: then it is the day before.
   */
  function GridEnd(end: int): (g: int)
    ensures Weekday(g) == 5
    ensures Weekday(end) != 6 ==> end <= g < end + 7
    ensures Weekday(end) == 6 ==> g == end - 1
  {
    end + (5 - Weekday(end))
  }

  /** The grid of year y starts and ends inside the dates Python can represent, with room for the final `+= 1`. */
  predicate GridFits(y: int)
    requires MinYear <= y <= MaxYear
  {
    GridStart(FirstDay(y)) >= 1 && GridEnd(LastDay(y)) < MaxOrdinal
  }

  datatype Cell = Cell(date: Day, count: nat, level: int)

  /** The cell the grid of [jan1, dec31] holds for day d: counts are only looked up inside the year. */
  function GridCell(todos: map<int, Todo>, uid: int, jan1: int, dec31: int, d: Day): Cell {
    var count := if jan1 <= d <= dec31 then CountOn(todos, uid, d) else 0;
    Cell(d, count, Level(count))
  }

  lemma WeekdayOffset(g: int, c: int)
    requires Weekday(g) == 6
    ensures Weekday(c) == (c - g + 6) % 7
  {
  }

  // ---- Month spans ----

  /** One entry of `month_weeks`: a month label and how many weeks carry it. */
  datatype MonthSpan = MonthSpan(month: int, weeks: nat)

  /** `setdefault(m, 0)` then `+= 1` on an ordered dictionary held as a list of entries. */
  function Bump(spans: seq<MonthSpan>, m: int): seq<MonthSpan> {
    if spans == [] then [MonthSpan(m, 1)]
    else if spans[0].month == m then [MonthSpan(m, spans[0].weeks + 1)] + spans[1..]
    else [spans[0]] + Bump(spans[1..], m)
  }

  /** The ordered dictionary after bumping each label in turn. */
  function Tally(labels: seq<int>): seq<MonthSpan> {
    if labels == [] then [] else Bump(Tally(labels[..|labels| - 1]), labels[|labels| - 1])
  }

  function Keys(spans: seq<MonthSpan>): (ks: seq<int>)
    ensures |ks| == |spans|
  {
    if spans == [] then [] else [spans[0].month] + Keys(spans[1..])
  }

  /** The week count recorded for m (0 when m is not a key). */
  function SpanOf(spans: seq<MonthSpan>, m: int): nat {
    if spans == [] then 0 else if spans[0].month == m then spans[0].weeks else SpanOf(spans[1..], m)
  }

  function Total(spans: seq<MonthSpan>): nat {
    if spans == [] then 0 else spans[0].weeks + Total(spans[1..])
  }

  predicate Distinct(xs: seq<int>) {
    forall i, j :: 0 <= i < j < |xs| ==> xs[i] != xs[j]
  }

  function Occurrences(xs: seq<int>, m: int): nat {
    if xs == [] then 0 else Occurrences(xs[..|xs| - 1], m) + (if xs[|xs| - 1] == m then 1 else 0)
  }

  /** The position where x first occurs in xs. */
  function FirstIndex(xs: seq<int>, x: int): (i: nat)
    requires x in xs
    ensures i < |xs| && xs[i] == x && x !in xs[..i]
  {
    if xs[0] == x then 0 else 1 + FirstIndex(xs[1..], x)
  }

  lemma {:induction false} BumpFacts(spans: seq<MonthSpan>, m: int)
    ensures Total(Bump(spans, m)) == Total(spans) + 1
    ensures forall x :: SpanOf(Bump(spans, m), x) == SpanOf(spans, x) + (if x == m then 1 else 0)
    ensures Keys(Bump(spans, m)) == if m in Keys(spans) then Keys(spans) else Keys(spans) + [m]
  {
    if spans != [] && spans[0].month != m {
      BumpFacts(spans[1..], m);
      var ks := Keys(spans);
      assert ks == [spans[0].month] + Keys(spans[1..]);
      assert m in ks <==> m in Keys(spans[1..]);
    }
  }

  lemma {:induction false} FirstIndexAppend(xs: seq<int>, y: int, x: int)
    requires x in xs
    ensures FirstIndex(xs + [y], x) == FirstIndex(xs, x)
  {
    if xs[0] != x {
      assert (xs + [y])[1..] == xs[1..] + [y];
      FirstIndexAppend(xs[1..], y, x);
    }
  }

  /**
   * What `month_weeks` holds after the loop over the week labels: every
   * label once, in the order of its first week, with the number of weeks
   * carrying it; a label that comes back later is added to its first entry.
   */
  lemma TallyFacts(labels: seq<int>)
    ensures Total(Tally(labels)) == |labels|
    ensures forall m :: SpanOf(Tally(labels), m) == Occurrences(labels, m)
    ensures forall m :: m in Keys(Tally(labels)) <==> m in labels
    ensures Distinct(Keys(Tally(labels)))
    ensures forall a, b :: 0 <= a < b < |Keys(Tally(labels))| ==>
      FirstIndex(labels, Keys(Tally(labels))[a]) < FirstIndex(labels, Keys(Tally(labels))[b])
  {
    TallyTotal(labels);
    TallySpans(labels);
    TallyKeys(labels);
    TallyOrder(labels);
  }

  lemma {:induction false} TallyTotal(labels: seq<int>)
    ensures Total(Tally(labels)) == |labels|
  {
    if labels != [] {
      var init, m := labels[..|labels| - 1], labels[|labels| - 1];
      TallyTotal(init);
      BumpFacts(Tally(init), m);
    }
  }

  lemma {:induction false} TallySpans(labels: seq<int>)
    ensures forall m :: SpanOf(Tally(labels), m) == Occurrences(labels, m)
  {
    if labels != [] {
      var init, m := labels[..|labels| - 1], labels[|labels| - 1];
      TallySpans(init);
      BumpFacts(Tally(init), m);
    }
  }

  lemma {:induction false} TallyKeys(labels: seq<int>)
    ensures forall m :: m in Keys(Tally(labels)) <==> m in labels
    ensures Distinct(Keys(Tally(labels)))
  {
    if labels != [] {
      var init, m := labels[..|labels| - 1], labels[|labels| - 1];
      assert labels == init + [m];
      TallyKeys(init);
      BumpFacts(Tally(init), m);
    }
  }

  lemma {:induction false} TallyOrder(labels: seq<int>)
    requires forall m :: m in Keys(Tally(labels)) <==> m in labels
    ensures forall a, b :: 0 <= a < b < |Keys(Tally(labels))| ==>
      FirstIndex(labels, Keys(Tally(labels))[a]) < FirstIndex(labels, Keys(Tally(labels))[b])
  {
    if labels != [] {
      var init, m := labels[..|labels| - 1], labels[|labels| - 1];
      assert labels == init + [m];
      TallyKeys(init);
      TallyOrder(init);
      var before := Tally(init);
      BumpFacts(before, m);
      var kb, ks := Keys(before), Keys(Tally(labels));
      assert ks == if m in init then kb else kb + [m];
      forall a, b | 0 <= a < b < |ks|
        ensures FirstIndex(labels, ks[a]) < FirstIndex(labels, ks[b])
      {
        assert ks[a] == kb[a] && kb[a] in init;
        FirstIndexAppend(init, m, ks[a]);
        if b < |kb| {
          assert ks[b] == kb[b] && kb[b] in init;
          FirstIndexAppend(init, m, ks[b]);
        } else {
          assert ks[b] == m && m !in init;
          FirstIndexLast(init, m);
        }
      }
    }
  }

  lemma FirstIndexLast(xs: seq<int>, x: int)
    requires x !in xs
    ensures FirstIndex(xs + [x], x) == |xs|
  {
    var i := FirstIndex(xs + [x], x);
    assert (xs + [x])[..|xs|] == xs;
  }

  /** Tallying one more label bumps its entry. */
  lemma TallySnoc(labels: seq<int>, k: int)
    requires 0 <= k < |labels|
    ensures Tally(labels[..k + 1]) == Bump(Tally(labels[..k]), labels[k])
  {
    assert labels[..k + 1][..k] == labels[..k];
  }

  /** The label of a week: the month of its fourth day, or of its first day when it is shorter. */
  function WeekMonth(week: seq<Cell>): int
    requires |week| > 0
  {
    if |week| > 3 then MonthOf(week[3].date) else MonthOf(week[0].date)
  }

  function WeekLabels(weeks: seq<seq<Cell>>): seq<int>
    requires forall k :: 0 <= k < |weeks| ==> |weeks[k]| > 0
  {
    seq(|weeks|, k requires 0 <= k < |weeks| => WeekMonth(weeks[k]))
  }

  // ---- get_lawn_data ----

  datatype LawnData = LawnData(weeks: seq<seq<Cell>>, monthWeeks: seq<MonthSpan>, today: Day)

  /** ValueError from `date(year, 1, 1)`, or OverflowError from date arithmetic leaving the representable range. */
  datatype LawnError = YearOutOfRange | DateOverflow

  function ChosenYear(year: Option<int>, today: Day): int {
    if year.Some? then year.value else YearOf(today)
  }

  /** The weeks of a grid from gs to ge: seven cells each, one per consecutive day. */
  predicate IsGrid(weeks: seq<seq<Cell>>, todos: map<int, Todo>, uid: int, jan1: int, dec31: int, gs: int, ge: int)
  {
    && 7 * |weeks| == ge - gs + 1
    && (forall k :: 0 <= k < |weeks| ==> |weeks[k]| == 7)
    && (forall k, j :: 0 <= k < |weeks| && 0 <= j < 7 ==>
          weeks[k][j].date == gs + 7 * k + j && weeks[k][j] == GridCell(todos, uid, jan1, dec31, weeks[k][j].date))
  }

  /** The weeks and the unfinished week of a grid from gs so far: one cell per consecutive day. */
  predicate GridSoFar(weeks: seq<seq<Cell>>, week: seq<Cell>, todos: map<int, Todo>, uid: int, jan1: int, dec31: int, gs: int)
  {
    && (forall k :: 0 <= k < |weeks| ==> |weeks[k]| == 7)
    && (forall k, j :: 0 <= k < |weeks| && 0 <= j < 7 ==>
          weeks[k][j].date == gs + 7 * k + j && weeks[k][j] == GridCell(todos, uid, jan1, dec31, weeks[k][j].date))
    && (forall j :: 0 <= j < |week| ==>
          week[j].date == gs + 7 * |weeks| + j && week[j] == GridCell(todos, uid, jan1, dec31, week[j].date))
  }

  /**
   * The loop of `get_lawn_data` from `start_of_grid` to `end_of_grid`: a
   * cell per day with the count looked up in `counts`, and the week closed
   * after each Saturday. Nothing is left over: the grid ends on a Saturday.
   */
  method FillGrid(todos: map<int, Todo>, uid: int, jan1: int, dec31: int, counts: map<Day, nat>, gs: int, ge: int)
    returns (weeks: seq<seq<Cell>>)
    requires forall d: Day :: d in counts <==> jan1 <= d <= dec31 && CountOn(todos, uid, d) > 0
    requires forall d :: d in counts ==> counts[d] == CountOn(todos, uid, d)
    requires 1 <= gs <= ge < MaxOrdinal && Weekday(gs) == 6 && Weekday(ge) == 5
    ensures IsGrid(weeks, todos, uid, jan1, dec31, gs, ge)
    ensures forall k, j :: 0 <= k < |weeks| && 0 <= j < |weeks[k]| ==> Weekday(weeks[k][j].date) == (j + 6) % 7
  {
    weeks := [];
    var week: seq<Cell> := [];
    var cursor := gs;
    while cursor <= ge
      invariant gs <= cursor <= ge + 1
      invariant cursor - gs == 7 * |weeks| + |week| && |week| < 7
      invariant GridSoFar(weeks, week, todos, uid, jan1, dec31, gs)
    {
      var count := if cursor in counts then counts[cursor] else 0;
      CountLookup(todos, uid, jan1, dec31, counts, cursor);
      weeks, week := VisitDay(weeks, week, cursor, count, todos, uid, jan1, dec31, gs);
      cursor := cursor + 1;
    }
    WeekdayOffset(gs, ge);
    forall k, j | 0 <= k < |weeks| && 0 <= j < |weeks[k]|
      ensures Weekday(weeks[k][j].date) == (j + 6) % 7
    {
      WeekdayOffset(gs, weeks[k][j].date);
    }
  }

  /** The loop body for `day_cursor` once its count is looked up: the cell appended, and the week closed on a Saturday. */
  method VisitDay(weeks0: seq<seq<Cell>>, week0: seq<Cell>, cursor: Day, count: nat,
                  todos: map<int, Todo>, uid: int, jan1: int, dec31: int, gs: int)
    returns (weeks: seq<seq<Cell>>, week: seq<Cell>)
    requires 1 <= gs <= cursor && Weekday(gs) == 6
    requires count == if jan1 <= cursor <= dec31 then CountOn(todos, uid, cursor) else 0
    requires cursor - gs == 7 * |weeks0| + |week0| && |week0| < 7
    requires GridSoFar(weeks0, week0, todos, uid, jan1, dec31, gs)
    ensures cursor + 1 - gs == 7 * |weeks| + |week| && |week| < 7
    ensures GridSoFar(weeks, week, todos, uid, jan1, dec31, gs)
  {
    weeks := weeks0;
    var cell := Cell(cursor, count, Level(count));
    GridAppend(weeks, week0, cell, todos, uid, jan1, dec31, gs);
    week := week0 + [cell];
    WeekdayOffset(gs, cursor);
    if Weekday(cursor) == 5 {
      GridClose(weeks, week, todos, uid, jan1, dec31, gs);
      weeks := weeks + [week];
      week := [];
    }
  }

  lemma GridAppend(weeks: seq<seq<Cell>>, week: seq<Cell>, cell: Cell, todos: map<int, Todo>, uid: int, jan1: int, dec31: int, gs: int)
    requires GridSoFar(weeks, week, todos, uid, jan1, dec31, gs)
    requires 1 <= gs + 7 * |weeks| + |week| <= MaxOrdinal
    requires cell == GridCell(todos, uid, jan1, dec31, gs + 7 * |weeks| + |week|)
    ensures GridSoFar(weeks, week + [cell], todos, uid, jan1, dec31, gs)
  {
    var w := week + [cell];
    forall j | 0 <= j < |w|
      ensures w[j].date == gs + 7 * |weeks| + j && w[j] == GridCell(todos, uid, jan1, dec31, w[j].date)
    {
      if j < |week| {
        assert w[j] == week[j];
      }
    }
  }

  lemma GridClose(weeks: seq<seq<Cell>>, week: seq<Cell>, todos: map<int, Todo>, uid: int, jan1: int, dec31: int, gs: int)
    requires GridSoFar(weeks, week, todos, uid, jan1, dec31, gs) && |week| == 7
    ensures GridSoFar(weeks + [week], [], todos, uid, jan1, dec31, gs)
  {
    var ws: seq<seq<Cell>> := weeks + [week];
    forall k, j | 0 <= k < |ws| && 0 <= j < 7
      ensures ws[k][j].date == gs + 7 * k + j && ws[k][j] == GridCell(todos, uid, jan1, dec31, ws[k][j].date)
    {
      if k < |weeks| {
        assert ws[k] == weeks[k];
      }
    }
  }

  /** The loop that builds `month_weeks`: the week labels tallied in order. */
  method MonthWeeks(weeks: seq<seq<Cell>>) returns (spans: seq<MonthSpan>)
    requires forall k :: 0 <= k < |weeks| ==> |weeks[k]| > 0
    ensures spans == Tally(WeekLabels(weeks))
    ensures Total(spans) == |weeks| && Distinct(Keys(spans))
    ensures forall m :: SpanOf(spans, m) == Occurrences(WeekLabels(weeks), m)
  {
    ghost var labels := WeekLabels(weeks);
    spans := [];
    var k := 0;
    while k < |weeks|
      invariant 0 <= k <= |weeks|
      invariant spans == Tally(labels[..k])
    {
      var m := WeekMonth(weeks[k]);
      TallySnoc(labels, k);
      spans := Bump(spans, m);
      k := k + 1;
    }
    assert labels[..k] == labels;
    TallyFacts(labels);
  }

  /** What `get_lawn_data` returns for a year whose grid fits in the date range. */
  ghost predicate IsLawnOf(data: LawnData, todos: map<int, Todo>, uid: int, y: int, today: Day)
    requires MinYear <= y <= MaxYear
  {
    var jan1, dec31 := FirstDay(y), LastDay(y);
    && data.today == today
    && IsGrid(data.weeks, todos, uid, jan1, dec31, GridStart(jan1), GridEnd(dec31))
    && (forall k, j :: 0 <= k < |data.weeks| && 0 <= j < 7 ==> Weekday(data.weeks[k][j].date) == (j + 6) % 7)
    && data.monthWeeks == Tally(WeekLabels(data.weeks))
    && Total(data.monthWeeks) == |data.weeks|
    && Distinct(Keys(data.monthWeeks))
    && (forall m :: SpanOf(data.monthWeeks, m) == Occurrences(WeekLabels(data.weeks), m))
  }

  /**
   * `get_lawn_data(year)` with `date.today()` as `today` and the todo table
   * and `current_user.id` as `todos` and `uid`.
   */
  method GetLawnData(todos: map<int, Todo>, uid: int, year: Option<int>, today: Day)
    returns (r: Result<LawnData, LawnError>)
    ensures var y := ChosenYear(year, today);
      && (r == Err(YearOutOfRange) <==> !(MinYear <= y <= MaxYear))
      && (r == Err(DateOverflow) <==> MinYear <= y <= MaxYear && !GridFits(y))
    ensures r.Ok? ==>
      var y := ChosenYear(year, today);
      MinYear <= y <= MaxYear && GridFits(y) && IsLawnOf(r.value, todos, uid, y, today)
  {
    var y := if year.Some? then year.value else YearOf(today);
    if !(MinYear <= y <= MaxYear) {
      return Err(YearOutOfRange);
    }
    var jan1, dec31 := FirstDay(y), LastDay(y);
    var gs, ge := GridStart(jan1), GridEnd(dec31);
    if gs < 1 || ge >= MaxOrdinal {
      return Err(DateOverflow);
    }
    var data := YearLawn(todos, uid, y, today, jan1, dec31, gs, ge);
    r := Ok(data);
  }

  /** The count query, the grid loop and the `month_weeks` loop for a year whose grid fits. */
  method YearLawn(todos: map<int, Todo>, uid: int, y: int, today: Day, jan1: Day, dec31: Day, gs: int, ge: int)
    returns (data: LawnData)
    requires MinYear <= y <= MaxYear && jan1 == FirstDay(y) && dec31 == LastDay(y)
    requires gs == GridStart(jan1) && ge == GridEnd(dec31) && 1 <= gs && ge < MaxOrdinal
    ensures IsLawnOf(data, todos, uid, y, today)
  {
    var counts := CompletionCounts(todos, uid, jan1, dec31);
    var weeks := FillGrid(todos, uid, jan1, dec31, counts, gs, ge);
    var spans := MonthWeeks(weeks);
    data := LawnData(weeks, spans, today);
  }

  /**
   * The labels of `month_weeks`: every week of a fitting grid has seven days, its label is the
   * month of its day at index 3, and the keys are exactly the months of those days.
   */
  lemma LawnKeysAreMonths(data: LawnData, todos: map<int, Todo>, uid: int, y: int, today: Day)
    requires MinYear <= y <= MaxYear && IsLawnOf(data, todos, uid, y, today)
    ensures forall k :: 0 <= k < |data.weeks| ==>
      && |data.weeks[k]| == 7
      && data.weeks[k][3].date == GridStart(FirstDay(y)) + 7 * k + 3
      && WeekLabels(data.weeks)[k] == MonthOf(data.weeks[k][3].date)
    ensures forall m :: m in Keys(data.monthWeeks) <==>
      exists k :: 0 <= k < |data.weeks| && m == MonthOf(data.weeks[k][3].date)
  {
    var labels := WeekLabels(data.weeks);
    TallyKeys(labels);
    forall m | m in Keys(data.monthWeeks)
      ensures exists k :: 0 <= k < |data.weeks| && m == MonthOf(data.weeks[k][3].date)
    {
      var k :| 0 <= k < |labels| && labels[k] == m;
      assert m == MonthOf(data.weeks[k][3].date);
    }
    forall m, k | 0 <= k < |data.weeks| && m == MonthOf(data.weeks[k][3].date)
      ensures m in Keys(data.monthWeeks)
    {
      assert labels[k] == m;
    }
  }

  // ---- Calendar facts about particular years ----

  /** 2024 starts on a Monday: its grid runs from Sunday 2023-12-31 to Saturday 2025-01-04. */
  lemma Grid2024()
    ensures Weekday(FirstDay(2024)) == 0
    ensures GridStart(FirstDay(2024)) == ToOrdinal(Ymd(2023, 12, 31))
    ensures GridEnd(LastDay(2024)) == ToOrdinal(Ymd(2025, 1, 4))
  {
  }

  /** 2023 ends on a Sunday, so its grid stops at Saturday 2023-12-30 and leaves December 31 out. */
  lemma Grid2023DropsLastDay()
    ensures Weekday(LastDay(2023)) == 6
    ensures GridEnd(LastDay(2023)) == LastDay(2023) - 1 == ToOrdinal(Ymd(2023, 12, 30))
  {
  }

  /** Only the grids of the first and the last representable year leave the date range. */
  lemma GridFitsExactly(y: int)
    requires MinYear <= y <= MaxYear
    ensures GridFits(y) <==> MinYear < y < MaxYear
  {
    if y == MinYear {
      FirstYearOverflows();
    } else if y == MaxYear {
      LastYearOverflows();
    } else {
      DaysBeforeYearBounds(2, y);
      DaysBeforeYearBounds(y + 1, MaxYear);
      DaysBeforeLastYear();
    }
  }

  /** 0001-01-01 is a Monday, so the Sunday before it is day 0. */
  lemma FirstYearOverflows()
    ensures GridStart(FirstDay(1)) == 0
  {
  }

  /** 9999-12-31 is a Friday, so the Saturday after it is past the last date. */
  lemma LastYearOverflows()
    ensures GridEnd(LastDay(MaxYear)) == MaxOrdinal + 1
  {
    DaysBeforeLastYear();
    assert LastDay(MaxYear) == MaxOrdinal;
  }

  /** A day within the first 31 of a year is in January. */
  lemma InJanuary(y: int, n: Day)
    requires MinYear <= y <= MaxYear && FirstDay(y) <= n < FirstDay(y) + 31
    ensures MonthOf(n) == 1
  {
    var d := Ymd(y, 1, n - FirstDay(y) + 1);
    assert DaysInMonth(y, 1) == 31 && DaysBeforeMonth(y, 1) == 0;
    assert ValidYmd(d) && ToOrdinal(d) == n;
    ToFromOrdinal(d);
  }

  /** A day within the last 31 before a year is in December. */
  lemma InDecember(y: int, n: Day)
    requires MinYear < y <= MaxYear && FirstDay(y) - 31 <= n < FirstDay(y)
    ensures MonthOf(n) == 12
  {
    DaysBeforeYearStep(y - 1);
    DaysBeforeDecember(y - 1);
    var d := Ymd(y - 1, 12, n - FirstDay(y) + 32);
    assert DaysInMonth(y - 1, 12) == 31;
    assert ToOrdinal(d) == n;
    ToFromOrdinal(d);
  }

  /**
   * The first grid week is labelled by its fourth day: it is January's when
   * the year starts on a Sunday, Monday, Tuesday or Wednesday, and the
   * previous December's otherwise.
   */
  lemma FirstWeekLabel(y: int)
    requires MinYear < y < MaxYear
    ensures GridStart(FirstDay(y)) + 3 >= 1
    ensures Weekday(FirstDay(y)) in {6, 0, 1, 2} ==> MonthOf(GridStart(FirstDay(y)) + 3) == 1
    ensures Weekday(FirstDay(y)) in {3, 4, 5} ==> MonthOf(GridStart(FirstDay(y)) + 3) == 12
  {
    LaterYearStart(y);
    FourthDayInYear(FirstDay(y));
    if GridStart(FirstDay(y)) + 3 >= FirstDay(y) {
      FirstWeekInJanuary(y);
    } else {
      FirstWeekInDecember(y);
    }
  }

  lemma FirstWeekInJanuary(y: int)
    requires MinYear < y < MaxYear && GridStart(FirstDay(y)) + 3 >= FirstDay(y)
    ensures MonthOf(GridStart(FirstDay(y)) + 3) == 1
  {
    var jan1 := FirstDay(y);
    var n := GridStart(jan1) + 3;
    assert jan1 <= n <= jan1 + 3;
    InJanuary(y, n);
  }

  lemma FirstWeekInDecember(y: int)
    requires MinYear < y < MaxYear && GridStart(FirstDay(y)) + 3 < FirstDay(y)
    ensures MonthOf(GridStart(FirstDay(y)) + 3) == 12
  {
    LaterYearStart(y);
    InDecember(y, GridStart(FirstDay(y)) + 3);
  }

  lemma FourthDayInYear(jan1: int)
    ensures GridStart(jan1) + 3 >= jan1 <==> Weekday(jan1) in {6, 0, 1, 2}
  {
  }

  lemma LaterYearStart(y: int)
    requires MinYear < y <= MaxYear
    ensures FirstDay(y) >= 366
  {
    assert DaysBeforeYear(2) == 365;
    DaysBeforeYearBounds(2, y);
  }
}
