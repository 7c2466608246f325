/**
 * The older heatmap of the `lawn` route in app.py: a rolling window of the
 * last 365 days up to today, weeks closed on Sundays, and a month label on
 * the first cell and on the first day of every month. The route walks with a
 * `date` object, so the cursor here is a calendar date stepped by NextDay.
 */
module LegacyLawn {
  import opened Calendar
  import opened Wrappers
  import opened Models
  import opened Lawn

  /** A cell of this grid; `monthLabel` is the labelled month, None for the empty label. */
  datatype LabelledCell = LabelledCell(date: Ymd, count: nat, level: int, monthLabel: Option<int>)

  /**
   * The cell of date d in the grid whose first date is `first`, with counts
   * looked up in the ordinals [from, to]: the first cell and every first of a
   * month name their month.
   */
  function LabelledCellAt(todos: map<int, Todo>, uid: int, from: int, to: int, first: Ymd, d: Ymd): LabelledCell
    requires ValidYmd(d)
  {
    var n := ToOrdinal(d);
    var count := if from <= n <= to then CountOn(todos, uid, n) else 0;
    LabelledCell(d, count, Level(count), if d == first || d.day == 1 then Some(d.month) else None)
  }

  /** The window is representable: its first day, the Sunday before it, and the day after today all exist. */
  predicate WindowFits(today: Day) {
    today - 365 >= 1 && GridStart(today - 365) >= 1 && today < MaxOrdinal
  }

  /** Week k > 0 of a grid from ordinal gs holds cell j (0 for Monday) for day gs + 7k - 6 + j. */
  predicate CellsFrom(cells: seq<LabelledCell>, todos: map<int, Todo>, uid: int, from: int, to: int, first: Ymd, gs: int, k: int)
  {
    forall j :: 0 <= j < |cells| ==>
      && ValidYmd(cells[j].date)
      && ToOrdinal(cells[j].date) == gs + 7 * k - 6 + j
      && cells[j] == LabelledCellAt(todos, uid, from, to, first, cells[j].date)
  }

  /**
   * The weeks closed so far: the first holds the grid's Sunday alone, and
   * each later one the seven days from a Monday to a Sunday.
   */
  predicate ClosedWeeks(weeks: seq<seq<LabelledCell>>, todos: map<int, Todo>, uid: int, from: int, to: int, first: Ymd, gs: int)
    requires ValidYmd(first)
  {
    && |weeks| > 0 && weeks[0] == [LabelledCellAt(todos, uid, from, to, first, first)]
    && (forall k :: 0 < k < |weeks| ==> |weeks[k]| == 7 && CellsFrom(weeks[k], todos, uid, from, to, first, gs, k))
  }

  /**
   * The weeks of this grid: its cells day by day from `first` (ordinal gs)
   * through ordinal `to`; the first week holds `first` alone, each later week
   * runs Monday to Sunday, and the last one stops at `to`.
   */
  predicate IsLabelledGrid(weeks: seq<seq<LabelledCell>>, todos: map<int, Todo>, uid: int, from: int, to: int, first: Ymd, gs: int)
    requires ValidYmd(first)
  {
    && |weeks| > 0 && weeks[0] == [LabelledCellAt(todos, uid, from, to, first, first)]
    && (forall k :: 0 < k < |weeks| - 1 ==> |weeks[k]| == 7)
    && (forall k :: 0 < k < |weeks| ==> CellsFrom(weeks[k], todos, uid, from, to, first, gs, k))
    && (|weeks| == 1 ==> to == gs)
    && (|weeks| > 1 ==> 1 <= |weeks[|weeks| - 1]| <= 7 && gs + 7 * (|weeks| - 1) - 6 + |weeks[|weeks| - 1]| - 1 == to)
  }

  /**
   * The loop of `lawn()`: a labelled cell per day from `start_of_grid`
   * through today with the count looked up in `counts`, the week closed
   * after each Sunday, and the unfinished last week kept. None stands for
   * the OverflowError of stepping past the last date.
   */
  method FillLabelledGrid(todos: map<int, Todo>, uid: int, from: int, to: int, counts: map<Day, nat>, first: Ymd, gs: Day)
    returns (r: Option<seq<seq<LabelledCell>>>)
    requires forall d: Day :: d in counts <==> from <= d <= to && CountOn(todos, uid, d) > 0
    requires forall d :: d in counts ==> counts[d] == CountOn(todos, uid, d)
    requires ValidYmd(first) && ToOrdinal(first) == gs
    requires gs <= to <= MaxOrdinal && Weekday(gs) == 6
    ensures r.Some? <==> to < MaxOrdinal
    ensures r.Some? ==> IsLabelledGrid(r.value, todos, uid, from, to, first, gs)
    ensures r.Some? ==> forall k, j :: 0 < k < |r.value| && 0 <= j < |r.value[k]| ==> Weekday(ToOrdinal(r.value[k][j].date)) == j
  {
    var weeks: seq<seq<LabelledCell>> := [];
    var week: seq<LabelledCell> := [];
    var currentMonth := -1;
    var cursor := first;
    var day: int := gs;
    while day <= to
      invariant ValidYmd(cursor) && day == ToOrdinal(cursor) && gs <= day <= to + 1
      invariant day == gs ==> cursor == first && weeks == [] && week == [] && currentMonth == -1
      invariant day > gs ==> (cursor.day == 1 <==> currentMonth != cursor.month)
      invariant day > gs ==>
        && ClosedWeeks(weeks, todos, uid, from, to, first, gs)
        && day - gs == 7 * |weeks| - 6 + |week| && |week| < 7
      invariant CellsFrom(week, todos, uid, from, to, first, gs, |weeks|)
      decreases 1 + to - day
    {
      var count := if day in counts then counts[day] else 0;
      CountLookup(todos, uid, from, to, counts, day);
      weeks, week, currentMonth := VisitDay(weeks, week, currentMonth, cursor, day, count, todos, uid, from, to, first, gs);
      if cursor == Ymd(MaxYear, 12, 31) {
        // `day_cursor += timedelta(days=1)` leaves the date range.
        LastDate();
        return None;
      }
      NextDayOrdinal(cursor);
      NextDayMonth(cursor);
      cursor := NextDay(cursor);
      day := day + 1;
    }
    OrdinalWithinYear(cursor);
    weeks := CloseGrid(weeks, week, todos, uid, from, to, first, gs);
    return Some(weeks);
  }

  /**
   * The rest of the loop body for `day_cursor`, once its count is looked
   * up: its month label and level, the cell appended to the current week, and the week closed
   * when the day is a Sunday.
   */
  method VisitDay(weeks0: seq<seq<LabelledCell>>, week0: seq<LabelledCell>, month0: int, cursor: Ymd, day: int, count: nat,
                  todos: map<int, Todo>, uid: int, from: int, to: int, first: Ymd, gs: Day)
    returns (weeks: seq<seq<LabelledCell>>, week: seq<LabelledCell>, currentMonth: int)
    requires count == if from <= day <= to then CountOn(todos, uid, day) else 0
    requires ValidYmd(first) && ToOrdinal(first) == gs && Weekday(gs) == 6
    requires ValidYmd(cursor) && day == ToOrdinal(cursor) && gs <= day
    requires day == gs ==> cursor == first && weeks0 == [] && week0 == [] && month0 == -1
    requires day > gs ==> (cursor.day == 1 <==> month0 != cursor.month)
    requires day > gs ==>
      && ClosedWeeks(weeks0, todos, uid, from, to, first, gs)
      && day - gs == 7 * |weeks0| - 6 + |week0| && |week0| < 7
    requires CellsFrom(week0, todos, uid, from, to, first, gs, |weeks0|)
    ensures currentMonth == cursor.month
    ensures ClosedWeeks(weeks, todos, uid, from, to, first, gs)
    ensures day + 1 - gs == 7 * |weeks| - 6 + |week| && |week| < 7
    ensures CellsFrom(week, todos, uid, from, to, first, gs, |weeks|)
  {
    var monthLabel;
    monthLabel, currentMonth := MonthLabel(cursor, |weeks0| == 0 && |week0| == 0, month0);
    var cell := LabelledCell(cursor, count, Level(count), monthLabel);
    assert cell == LabelledCellAt(todos, uid, from, to, first, cursor);
    week := week0 + [cell];
    weeks := weeks0;
    if day > gs {
      AppendCell(week0, cell, todos, uid, from, to, first, gs, |weeks0|);
      WeekPosition(gs, day, |weeks|, |week| - 1);
    }
    if Weekday(day) == 6 {
      if day > gs {
        CloseWeek(weeks, week, todos, uid, from, to, first, gs);
      }
      weeks := weeks + [week];
      week := [];
    }
  }

  /**
   * The month label test of the loop: the first cell, or a first of a month
   * whose month differs from the last labelled one, gets the month.
   */
  method MonthLabel(cursor: Ymd, isFirst: bool, month0: int) returns (monthLabel: Option<int>, currentMonth: int)
    requires 1 <= cursor.month <= 12
    requires isFirst ==> month0 == -1
    requires !isFirst ==> (cursor.day == 1 <==> month0 != cursor.month)
    ensures monthLabel == if isFirst || cursor.day == 1 then Some(cursor.month) else None
    ensures currentMonth == cursor.month
  {
    monthLabel, currentMonth := None, month0;
    if cursor.day == 1 || isFirst {
      if cursor.month != currentMonth {
        monthLabel := Some(cursor.month);
        currentMonth := cursor.month;
      }
    }
  }

  lemma AppendCell(week: seq<LabelledCell>, cell: LabelledCell, todos: map<int, Todo>, uid: int, from: int, to: int, first: Ymd, gs: int, k: int)
    requires CellsFrom(week, todos, uid, from, to, first, gs, k)
    requires ValidYmd(cell.date) && ToOrdinal(cell.date) == gs + 7 * k - 6 + |week|
    requires cell == LabelledCellAt(todos, uid, from, to, first, cell.date)
    ensures CellsFrom(week + [cell], todos, uid, from, to, first, gs, k)
  {
  }

  lemma CloseWeek(weeks: seq<seq<LabelledCell>>, week: seq<LabelledCell>, todos: map<int, Todo>, uid: int, from: int, to: int, first: Ymd, gs: int)
    requires ValidYmd(first) && ClosedWeeks(weeks, todos, uid, from, to, first, gs)
    requires |week| == 7 && CellsFrom(week, todos, uid, from, to, first, gs, |weeks|)
    ensures ClosedWeeks(weeks + [week], todos, uid, from, to, first, gs)
  {
    var ws := weeks + [week];
    forall k | 0 < k < |ws|
      ensures |ws[k]| == 7 && CellsFrom(ws[k], todos, uid, from, to, first, gs, k)
    {
      if k < |weeks| {
        assert ws[k] == weeks[k];
      }
    }
  }

  /** `if current_week: weeks.append(current_week)` after the loop, and what the weeks then hold. */
  method CloseGrid(closed: seq<seq<LabelledCell>>, week: seq<LabelledCell>, todos: map<int, Todo>, uid: int, from: int, to: int, first: Ymd, gs: int)
    returns (weeks: seq<seq<LabelledCell>>)
    requires ValidYmd(first) && Weekday(gs) == 6 && gs <= to
    requires ClosedWeeks(closed, todos, uid, from, to, first, gs) && CellsFrom(week, todos, uid, from, to, first, gs, |closed|)
    requires to + 1 - gs == 7 * |closed| - 6 + |week| && |week| < 7
    ensures weeks == if week == [] then closed else closed + [week]
    ensures IsLabelledGrid(weeks, todos, uid, from, to, first, gs)
    ensures forall k, j :: 0 < k < |weeks| && 0 <= j < |weeks[k]| ==> Weekday(ToOrdinal(weeks[k][j].date)) == j
  {
    weeks := closed;
    if week != [] {
      weeks := weeks + [week];
    }
    forall k, j | 0 < k < |weeks| && 0 <= j < |weeks[k]|
      ensures Weekday(ToOrdinal(weeks[k][j].date)) == j
    {
      assert CellsFrom(weeks[k], todos, uid, from, to, first, gs, k);
      WeekPosition(gs, ToOrdinal(weeks[k][j].date), k, j);
    }
  }

  /**
   * `lawn()` with `date.today()` as `today` and the todo table and
   * `current_user.id` as `todos` and `uid`. The window starts 365 days
   * before today and the grid at the Sunday on or before that.
   */
  method LegacyLawnGrid(todos: map<int, Todo>, uid: int, today: Day)
    returns (r: Result<seq<seq<LabelledCell>>, LawnError>)
    ensures r.Ok? <==> WindowFits(today)
    ensures r.Err? ==> r.error == DateOverflow
    ensures r.Ok? ==>
      var gs := GridStart(today - 365);
      && 1 <= gs
      && IsLabelledGrid(r.value, todos, uid, today - 365, today, FromOrdinal(gs), gs)
      && (forall k, j :: 0 < k < |r.value| && 0 <= j < |r.value[k]| ==> Weekday(ToOrdinal(r.value[k][j].date)) == j)
  {
    var end: int := today;
    if today - 365 < 1 {
      return Err(DateOverflow);
    }
    var from := today - 365;
    var counts := CompletionCounts(todos, uid, from, end);
    var gs := GridStart(from);
    if gs < 1 {
      return Err(DateOverflow);
    }
    var first := FromOrdinal(gs);
    FromToOrdinal(gs);
    var weeks := FillLabelledGrid(todos, uid, from, end, counts, first, gs);
    if weeks.None? {
      return Err(DateOverflow);
    }
    return Ok(weeks.value);
  }

  /** Day `7k - 6 + b` of a grid starting on a Sunday has weekday b, for k > 0. */
  lemma WeekPosition(gs: int, d: int, k: int, b: int)
    requires Weekday(gs) == 6 && k > 0 && 0 <= b < 7 && d - gs == 7 * k - 6 + b
    ensures Weekday(d) == b
  {
    WeekdayOffset(gs, d);
    assert d - gs + 6 == 7 * k + b;
  }

  /** A label names the month of the day's ordinal, as the calendar reckons it. */
  lemma LabelIsMonth(todos: map<int, Todo>, uid: int, from: int, to: int, first: Ymd, d: Ymd)
    requires ValidYmd(d)
    ensures 1 <= ToOrdinal(d) <= MaxOrdinal
    ensures var c := LabelledCellAt(todos, uid, from, to, first, d);
      c.monthLabel.Some? ==> c.monthLabel.value == MonthOf(ToOrdinal(d))
  {
    ToFromOrdinal(d);
  }

  /** Every day after the grid's first one, through `to`, has a cell in a later week of the grid. */
  lemma LabelledGridCovers(weeks: seq<seq<LabelledCell>>, todos: map<int, Todo>, uid: int, from: int, to: int, first: Ymd, gs: int, n: int)
    requires ValidYmd(first) && IsLabelledGrid(weeks, todos, uid, from, to, first, gs)
    requires gs < n <= to
    ensures exists k, j :: 0 < k < |weeks| && 0 <= j < |weeks[k]| && ToOrdinal(weeks[k][j].date) == n
  {
    var k, j := (n - gs + 6) / 7, (n - gs + 6) % 7;
    assert k < |weeks| && j < |weeks[k]|;
    assert CellsFrom(weeks[k], todos, uid, from, to, first, gs, k);
    assert ToOrdinal(weeks[k][j].date) == n;
  }
  /** The month before month m (December before January). */
  predicate PrecedingMonth(a: int, m: int) {
    if m == 1 then a == 12 else a == m - 1
  }

  /**
   * Walking from c towards a first of a month q without passing another first
   * of a month stays in the month before q's.
   */
  lemma {:induction false} MonthBeforeFirst(c: Ymd, q: Ymd)
    requires ValidYmd(c) && ValidYmd(q) && q.day == 1
    requires ToOrdinal(c) < ToOrdinal(q)
    requires forall d :: ValidYmd(d) && ToOrdinal(c) < ToOrdinal(d) < ToOrdinal(q) ==> d.day != 1
    ensures PrecedingMonth(c.month, q.month)
    decreases ToOrdinal(q) - ToOrdinal(c)
  {
    ToFromOrdinal(q);
    LastDate();
    NextDayOrdinal(c);
    var next := NextDay(c);
    if ToOrdinal(next) == ToOrdinal(q) {
      ToFromOrdinal(next);
      assert next == q;
    } else {
      assert next.day != 1;
      MonthBeforeFirst(next, q);
    }
  }

  /**
   * Two labelled dates of the grid with no labelled date between them name
   * different months: the later one is a first of a month, and the earlier one
   * lies in the month before it.
   */
  lemma LabelsChangeMonth(todos: map<int, Todo>, uid: int, from: int, to: int, first: Ymd, p: Ymd, q: Ymd)
    requires ValidYmd(first) && ValidYmd(p) && ValidYmd(q)
    requires ToOrdinal(first) <= ToOrdinal(p) < ToOrdinal(q)
    requires LabelledCellAt(todos, uid, from, to, first, p).monthLabel.Some?
    requires LabelledCellAt(todos, uid, from, to, first, q).monthLabel.Some?
    requires forall d :: ValidYmd(d) && ToOrdinal(p) < ToOrdinal(d) < ToOrdinal(q) ==>
      LabelledCellAt(todos, uid, from, to, first, d).monthLabel.None?
    ensures LabelledCellAt(todos, uid, from, to, first, p).monthLabel != LabelledCellAt(todos, uid, from, to, first, q).monthLabel
  {
    assert q != first;
    forall d | ValidYmd(d) && ToOrdinal(p) < ToOrdinal(d) < ToOrdinal(q)
      ensures d.day != 1
    {
      assert LabelledCellAt(todos, uid, from, to, first, d).monthLabel.None?;
    }
    MonthBeforeFirst(p, q);
  }

  /**
   * On the grid itself: a labelled cell's month differs from that of the
   * labelled cell before it, the last one labelled before it in day order.
   */
  lemma GridLabelsChangeMonth(weeks: seq<seq<LabelledCell>>, todos: map<int, Todo>, uid: int, from: int, to: int,
                              first: Ymd, gs: int, k1: int, j1: int, k2: int, j2: int)
    requires ValidYmd(first) && ToOrdinal(first) == gs && IsLabelledGrid(weeks, todos, uid, from, to, first, gs)
    requires 0 <= k1 < |weeks| && 0 <= j1 < |weeks[k1]| && 0 <= k2 < |weeks| && 0 <= j2 < |weeks[k2]|
    requires ValidYmd(weeks[k1][j1].date) && ValidYmd(weeks[k2][j2].date)
    requires ToOrdinal(weeks[k1][j1].date) < ToOrdinal(weeks[k2][j2].date)
    requires weeks[k1][j1].monthLabel.Some? && weeks[k2][j2].monthLabel.Some?
    requires forall k, j ::
      (&& 0 <= k < |weeks| && 0 <= j < |weeks[k]| && ValidYmd(weeks[k][j].date)
       && ToOrdinal(weeks[k1][j1].date) < ToOrdinal(weeks[k][j].date) < ToOrdinal(weeks[k2][j2].date))
      ==> weeks[k][j].monthLabel.None?
    ensures weeks[k1][j1].monthLabel != weeks[k2][j2].monthLabel
  {
    var c1, c2 := weeks[k1][j1], weeks[k2][j2];
    CellIsAt(weeks, todos, uid, from, to, first, gs, k1, j1);
    CellIsAt(weeks, todos, uid, from, to, first, gs, k2, j2);
    forall d | ValidYmd(d) && ToOrdinal(c1.date) < ToOrdinal(d) < ToOrdinal(c2.date)
      ensures LabelledCellAt(todos, uid, from, to, first, d).monthLabel.None?
    {
      var n := ToOrdinal(d);
      LabelledGridCovers(weeks, todos, uid, from, to, first, gs, n);
      var k, j :| 0 < k < |weeks| && 0 <= j < |weeks[k]| && ToOrdinal(weeks[k][j].date) == n;
      CellIsAt(weeks, todos, uid, from, to, first, gs, k, j);
      ToFromOrdinal(d);
      ToFromOrdinal(weeks[k][j].date);
      assert weeks[k][j].date == d;
    }
    LabelsChangeMonth(todos, uid, from, to, first, c1.date, c2.date);
  }

  /** Every cell of the grid is the cell of its own date, a day from gs through `to`. */
  lemma CellIsAt(weeks: seq<seq<LabelledCell>>, todos: map<int, Todo>, uid: int, from: int, to: int,
                 first: Ymd, gs: int, k: int, j: int)
    requires ValidYmd(first) && ToOrdinal(first) == gs && IsLabelledGrid(weeks, todos, uid, from, to, first, gs)
    requires 0 <= k < |weeks| && 0 <= j < |weeks[k]|
    ensures ValidYmd(weeks[k][j].date) && gs <= ToOrdinal(weeks[k][j].date) <= to
    ensures weeks[k][j] == LabelledCellAt(todos, uid, from, to, first, weeks[k][j].date)
  {
    if k > 0 {
      assert CellsFrom(weeks[k], todos, uid, from, to, first, gs, k);
      if k < |weeks| - 1 {
        assert |weeks[k]| == 7;
      }
    }
  }
}
