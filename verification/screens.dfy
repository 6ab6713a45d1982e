/**
  The three calendar and journal screens: the daily screen, the monthly
  grid and the journal. Each render first switches the screen object to
  its own state; the geometry in `screen` is the one the screen object
  reports for that state.
 */
module Screens {
  import opened Wrappers
  import opened Text
  import opened Canvas
  import opened Model
  import opened Geometry
  import opened Lines
  import opened Cell
  import opened Chrome

  /**
    What rendering a screen leaves: the screen object as the render left
    it, its writes, and the input half-delay it sets in tenths of a second
    (none when the pane is too small to draw in).
   */
  datatype Painted = Painted(screen: Screen, draws: seq<Draw>, delay: Option<int>)

  /** A pane too small to draw anything in. */
  predicate TooSmall(screen: Screen) {
    screen.xMax < 6 || screen.yMax < 3
  }

  function MonthTable(cfg: Config, texts: Texts): seq<string> {
    if cfg.usePersianCalendar then texts.monthsPersian else texts.months
  }

  /** `month_names[month-1]`: month 0 names the table's last entry, and an index outside the table raises. */
  function MonthName(cfg: Config, texts: Texts, month: int): Option<string> {
    PyIndex(MonthTable(cfg, texts), month - 1)
  }

  /** The today icon when the focused date is today, else nothing. */
  function TodayMark(cfg: Config, screen: Screen): string {
    if screen.date == screen.today then cfg.todayIcon else ""
  }

  /** The daily screen's title before the today mark: month, day and year. */
  function DateHead(screen: Screen, month: string): string {
    month + " " + IntToString(screen.date.day) + ", " + IntToString(screen.date.year)
  }

  /** The daily screen's title: month, day, year, a space and the today mark. */
  function DateTitle(cfg: Config, screen: Screen, month: string): string {
    DateHead(screen, month) + " " + TodayMark(cfg, screen)
  }

  /** The title opens with the month's name and a space, then the day's number. */
  lemma {:induction false} DateHeadShape(screen: Screen, month: string)
    ensures var h := DateHead(screen, month);
            && month + " " <= h
            && |h| > |month| + 1 && IsDigit(h[|month| + 1]) == (screen.date.day >= 0)
  {
    var day := IntToString(screen.date.day);
    var rest := day + ", " + IntToString(screen.date.year);
    Regroup4(month + " ", day, ", ", IntToString(screen.date.year));
    assert DateHead(screen, month) == (month + " ") + rest;
    assert rest[0] == day[0];
    NatToStringDigits(if screen.date.day >= 0 then screen.date.day else -screen.date.day);
  }

  /**
    The daily title starts with the month's name and a space, shows the
    day's digits next, and ends with a space and the today mark (so with a
    trailing space on any other day).
   */
  lemma {:induction false} DateTitleShape(cfg: Config, screen: Screen, month: string)
    ensures var t, mark := DateTitle(cfg, screen, month), TodayMark(cfg, screen);
            && month + " " <= t
            && |t| > |month| + 1 && IsDigit(t[|month| + 1]) == (screen.date.day >= 0)
            && |t| >= |mark| + 1 && t[|t| - |mark| - 1..] == " " + mark
            && (screen.date != screen.today ==> t[|t| - 1] == ' ')
  {
    var h, mark := DateHead(screen, month), TodayMark(cfg, screen);
    DateHeadShape(screen, month);
    Regroup3(h, " ", mark);
    var t := h + (" " + mark);
    assert t[..|h|] == h;
    assert t[|h|..] == " " + mark;
  }

  // ---------------------------------------------------------------------
  // Daily screen

  /** The daily screen waits up to 25.5 seconds for a key before redrawing. */
  const DailyDelay := 255

  /**
    `DailyScreenView.render` with the view placed at (`y`, `x`), `items` the
    focused day's items, `forecast` and `clock` the header's weather and
    time: the header with the date title, then the day's cell two rows
    down, numbered from one. An out-of-range month raises.
   */
  function DailyScreenView(cfg: Config, texts: Texts, screen: Screen, y: int, x: int, forecast: string, clock: string, items: DayItems): Result<Painted, string> {
    var s := screen.(state := Calendar);
    if TooSmall(s) then Ok(Painted(s, [], None))
    else
      match MonthName(cfg, texts, s.date.month)
      case None => Err("IndexError: month name")
      case Some(m) =>
        Ok(Painted(s, HeaderView(cfg, s, DateTitle(cfg, s, m), forecast, clock) + DailyView(CellAt(cfg, s, y + 2, x, 0), texts, items), Some(DailyDelay)))
  }

  /**
    The daily screen leaves the screen in the calendar state; it fails
    exactly when the pane is large enough and the month has no name; a too
    small pane gets nothing.
   */
  lemma {:induction false} DailyScreenOutcome(cfg: Config, texts: Texts, screen: Screen, y: int, x: int, forecast: string, clock: string, items: DayItems)
    ensures var r := DailyScreenView(cfg, texts, screen, y, x, forecast, clock, items);
            && (r.Err? <==> !TooSmall(screen) && MonthName(cfg, texts, screen.date.month).None?)
            && (r.Ok? ==> r.value.screen == screen.(state := Calendar))
            && (r.Ok? && TooSmall(screen) ==> r.value.draws == [] && r.value.delay == None)
            && (r.Ok? && !TooSmall(screen) ==> r.value.delay == Some(DailyDelay))
  {
  }

  /** A daily screen that draws is the header followed by the day's cell. */
  lemma {:induction false} DailyScreenDraws(cfg: Config, texts: Texts, screen: Screen, y: int, x: int, forecast: string, clock: string, items: DayItems)
    requires !TooSmall(screen) && MonthName(cfg, texts, screen.date.month).Some?
    ensures var s := screen.(state := Calendar);
            && DailyScreenView(cfg, texts, screen, y, x, forecast, clock, items).Ok?
            && DailyScreenView(cfg, texts, screen, y, x, forecast, clock, items).value.draws
               == HeaderView(cfg, s, DateTitle(cfg, s, MonthName(cfg, texts, screen.date.month).value), forecast, clock)
                  + DailyView(CellAt(cfg, s, y + 2, x, 0), texts, items)
  {
  }

  /** A header followed by a cell: the title comes first, and the cell's numbers are the only ones. */
  lemma {:induction false} HeaderThenCell(cfg: Config, s: Screen, title: string, forecast: string, clock: string, c: CellAt, texts: Texts, items: DayItems)
    ensures var draws := HeaderView(cfg, s, title, forecast, clock) + DailyView(c, texts, items);
            && |draws| > 0 && draws[0] == TitleView(cfg, s, title)
            && WithRole(draws, Today) == WithRole(DailyView(c, texts, items), Today)
  {
    var header := HeaderView(cfg, s, title, forecast, clock);
    var cell := DailyView(c, texts, items);
    HeaderParts(cfg, s, title, forecast, clock);
    HeaderNotNumbered(cfg, s, title, forecast, clock);
    WithRoleAppend(header, cell, Today);
    EmptyAppend(WithRole(header, Today), WithRole(cell, Today));
    ConsAppend(header, cell);
  }

  /**
    On the daily screen the header is complete (never the split journal's
    title alone) and starts with the date title at the pane's left edge,
    and the only selection numbers are `1..n` for the `n` visible plain
    user events, on their rows two below the view's top.
   */
  lemma {:induction false} DailyScreenNumbering(cfg: Config, texts: Texts, screen: Screen, y: int, x: int, forecast: string, clock: string, items: DayItems)
    requires !TooSmall(screen) && MonthName(cfg, texts, screen.date.month).Some?
    ensures DailyScreenView(cfg, texts, screen, y, x, forecast, clock, items).Ok?
    ensures var r, s := DailyScreenView(cfg, texts, screen, y, x, forecast, clock, items).value, screen.(state := Calendar);
            && !TitleOnly(s)
            && |r.draws| > 0 && r.draws[0] == TitleView(cfg, s, DateTitle(cfg, s, MonthName(cfg, texts, screen.date.month).value))
            && WithRole(r.draws, Today)
               == if screen.selectionMode then CellNumbers(CellAt(cfg, s, y + 2, x, 0), 0, Min(|items.user|, CellHeight(screen.yMax) - 1)) else []
  {
    var s := screen.(state := Calendar);
    DailyScreenDraws(cfg, texts, screen, y, x, forecast, clock, items);
    var title := DateTitle(cfg, s, MonthName(cfg, texts, screen.date.month).value);
    var c := CellAt(cfg, s, y + 2, x, 0);
    var draws := DailyScreenView(cfg, texts, screen, y, x, forecast, clock, items).value.draws;
    HeaderThenCell(cfg, s, title, forecast, clock, c, texts, items);
    assert c.screen.selectionMode == screen.selectionMode && c.screen.yMax == screen.yMax;
    var n := Min(|items.user|, CellHeight(screen.yMax) - 1);
    CellNumbering(c, texts, items);
    assert WithRole(draws, Today) == if screen.selectionMode then CellNumbers(c, 0, n) else [];
  }

  // ---------------------------------------------------------------------
  // Monthly screen: the grid of day cells

  /** A day of the month in the grid: its week row, its column and the day number. */
  datatype GridCell = GridCell(row: nat, col: nat, day: int)

  /** The days of one week from column `col` on, skipping the zeros that pad the month. */
  function WeekCells(week: seq<int>, row: nat, col: nat): seq<GridCell>
    decreases |week| - col
  {
    if col >= |week| then []
    else (if week[col] != 0 then [GridCell(row, col, week[col])] else []) + WeekCells(week, row, col + 1)
  }

  /** The loop over `enumerate(dates)` and `enumerate(week)`: the days of the weeks from row `row` on. */
  function MonthCells(weeks: seq<seq<int>>, row: nat): seq<GridCell>
    decreases |weeks| - row
  {
    if row >= |weeks| then [] else WeekCells(weeks[row], row, 0) + MonthCells(weeks, row + 1)
  }

  /** `g` names a non-padding entry of the calendar's weeks. */
  predicate InGrid(weeks: seq<seq<int>>, g: GridCell) {
    g.row < |weeks| && g.col < |weeks[g.row]| && weeks[g.row][g.col] == g.day && g.day != 0
  }

  /** `a` comes before `b` reading the grid row by row. */
  predicate Before(a: GridCell, b: GridCell) {
    a.row < b.row || (a.row == b.row && a.col < b.col)
  }

  predicate RowMajor(cells: seq<GridCell>) {
    forall i, j | 0 <= i < j < |cells| :: Before(cells[i], cells[j])
  }

  lemma {:induction false} WeekCellsIff(week: seq<int>, row: nat, col: nat, g: GridCell)
    ensures g in WeekCells(week, row, col) <==> g.row == row && col <= g.col < |week| && week[g.col] == g.day && g.day != 0
    decreases |week| - col
  {
    if col < |week| {
      WeekCellsIff(week, row, col + 1, g);
    }
  }

  /** The grid visits exactly the month's days: every non-zero entry once its row is reached, and nothing else. */
  lemma {:induction false} MonthCellsIff(weeks: seq<seq<int>>, row: nat, g: GridCell)
    ensures g in MonthCells(weeks, row) <==> row <= g.row && InGrid(weeks, g)
    decreases |weeks| - row
  {
    if row < |weeks| {
      WeekCellsIff(weeks[row], row, 0, g);
      MonthCellsIff(weeks, row + 1, g);
    }
  }

  lemma {:induction false} RowMajorAppend(a: seq<GridCell>, b: seq<GridCell>)
    requires RowMajor(a) && RowMajor(b)
    requires forall i, j | 0 <= i < |a| && 0 <= j < |b| :: Before(a[i], b[j])
    ensures RowMajor(a + b)
  {
    forall i, j | 0 <= i < j < |a + b| ensures Before((a + b)[i], (a + b)[j]) {
      if j < |a| {
      } else if i < |a| {
        assert Before(a[i], b[j - |a|]);
      } else {
        assert Before(b[i - |a|], b[j - |a|]);
      }
    }
  }

  /** The days of a week come in column order. */
  lemma {:induction false} WeekCellsOrdered(week: seq<int>, row: nat, col: nat)
    ensures RowMajor(WeekCells(week, row, col))
    decreases |week| - col
  {
    if col < |week| {
      var head := if week[col] != 0 then [GridCell(row, col, week[col])] else [];
      var tail := WeekCells(week, row, col + 1);
      WeekCellsOrdered(week, row, col + 1);
      forall i, j | 0 <= i < |head| && 0 <= j < |tail| ensures Before(head[i], tail[j]) {
        WeekCellsIff(week, row, col + 1, tail[j]);
      }
      RowMajorAppend(head, tail);
    }
  }

  /** The grid is visited row by row, left to right: each day once, in reading order. */
  lemma {:induction false} MonthCellsOrdered(weeks: seq<seq<int>>, row: nat)
    ensures RowMajor(MonthCells(weeks, row))
    decreases |weeks| - row
  {
    if row < |weeks| {
      var head := WeekCells(weeks[row], row, 0);
      var tail := MonthCells(weeks, row + 1);
      WeekCellsOrdered(weeks[row], row, 0);
      MonthCellsOrdered(weeks, row + 1);
      forall i, j | 0 <= i < |head| && 0 <= j < |tail| ensures Before(head[i], tail[j]) {
        WeekCellsIff(weeks[row], row, 0, head[i]);
        MonthCellsIff(weeks, row + 1, tail[j]);
      }
      RowMajorAppend(head, tail);
    }
  }

  /** The focused month's date with day `day`. */
  function DayDate(screen: Screen, day: int): Date {
    Date(screen.date.year, screen.date.month, day)
  }

  /** The screen object once the loop has set its day to `day`. */
  function CellScreen(screen: Screen, day: int): Screen {
    screen.(date := DayDate(screen, day))
  }

  /** The user events of the day in cell `g`, as filtered by the screen's date. */
  function CellItems(screen: Screen, agenda: Date -> DayItems, g: GridCell): DayItems {
    agenda(DayDate(screen, g.day))
  }

  /** The row of the day number of the cells in grid row `row`: two header rows, then `yc` rows per week. */
  function CellTop(yc: int, row: int): int {
    2 + row * yc
  }

  lemma {:induction false} NextCellTop(yc: int, row: int)
    ensures CellTop(yc, row + 1) == CellTop(yc, row) + yc
  {
  }

  /** The column of the cells in grid column `col`. */
  function CellLeft(xc: int, col: int): int {
    col * xc
  }

  /** The day number of cell `g`, in the cell's top-left corner. */
  function CellNumber(cfg: Config, screen: Screen, g: GridCell): Draw {
    DayNumberView(cfg, CellScreen(screen, g.day), CellTop(CellHeight(screen.yMax), g.row), CellLeft(CellWidth(screen.xMax), g.col),
                  g.day, DayInWeek(g.col, cfg.startWeekDay), CellWidth(screen.xMax))
  }

  /** Where cell `g` lists its events: one row below its number, numbered after `offset` earlier events. */
  function CellEvents(cfg: Config, screen: Screen, g: GridCell, offset: nat): CellAt {
    CellAt(cfg, CellScreen(screen, g.day), CellTop(CellHeight(screen.yMax), g.row) + 1, CellLeft(CellWidth(screen.xMax), g.col), offset)
  }

  /** One iteration of the grid loop: the day number, then the day's events. */
  function CellDraws(cfg: Config, texts: Texts, screen: Screen, g: GridCell, items: DayItems, offset: nat): seq<Draw> {
    [CellNumber(cfg, screen, g)] + DailyView(CellEvents(cfg, screen, g, offset), texts, items)
  }

  /**
    A loop over grid cells that threads a running count: each cell is drawn
    with the count so far, which then grows by the cell's `count`.
   */
  function Threaded(draw: (GridCell, nat) -> seq<Draw>, count: GridCell -> nat, cells: seq<GridCell>, offset: nat): seq<Draw>
    decreases |cells|
  {
    if |cells| == 0 then [] else draw(cells[0], offset) + Threaded(draw, count, cells[1..], offset + count(cells[0]))
  }

  /** The sum of `count` over `cells`. */
  function CountBefore(count: GridCell -> nat, cells: seq<GridCell>): nat
    decreases |cells|
  {
    if |cells| == 0 then 0 else CountBefore(count, cells[..|cells| - 1]) + count(cells[|cells| - 1])
  }

  /** Cell `k` drawn on its own, with the count of all cells before it. */
  function AtIndex(draw: (GridCell, nat) -> seq<Draw>, count: GridCell -> nat, cells: seq<GridCell>, offset: nat): nat -> seq<Draw> {
    (k: nat) => if k < |cells| then draw(cells[k], offset + CountBefore(count, cells[..k])) else []
  }

  lemma {:induction false} ThreadedFrom(draw: (GridCell, nat) -> seq<Draw>, count: GridCell -> nat, cells: seq<GridCell>, offset: nat, i: nat)
    requires i <= |cells|
    ensures Threaded(draw, count, cells[i..], offset + CountBefore(count, cells[..i])) == Concat(AtIndex(draw, count, cells, offset), i, |cells|)
    decreases |cells| - i
  {
    if i < |cells| {
      var t := cells[i..];
      ThreadedFrom(draw, count, cells, offset, i + 1);
      assert t[0] == cells[i] && t[1..] == cells[i + 1..];
      assert cells[..i + 1][..i] == cells[..i];
    } else {
      assert cells[i..] == [];
    }
  }

  /** The threaded loop is the concatenation of the cells drawn independently, each with the count of the cells before it. */
  lemma {:induction false} ThreadedIsConcat(draw: (GridCell, nat) -> seq<Draw>, count: GridCell -> nat, cells: seq<GridCell>)
    ensures Threaded(draw, count, cells, 0) == Concat(AtIndex(draw, count, cells, 0), 0, |cells|)
  {
    ThreadedFrom(draw, count, cells, 0, 0);
    assert cells[0..] == cells;
  }

  /** The number of user events on the day of cell `g`, hidden ones included. */
  function UserEvents(screen: Screen, agenda: Date -> DayItems): GridCell -> nat {
    g => |CellItems(screen, agenda, g).user|
  }

  function CellWriter(cfg: Config, texts: Texts, screen: Screen, agenda: Date -> DayItems): (GridCell, nat) -> seq<Draw> {
    (g: GridCell, offset: nat) => CellDraws(cfg, texts, screen, g, CellItems(screen, agenda, g), offset)
  }

  /** The grid loop, carrying `num_events_this_month` forward by each day's user events. */
  function GridDraws(cfg: Config, texts: Texts, screen: Screen, cells: seq<GridCell>, agenda: Date -> DayItems): seq<Draw> {
    Threaded(CellWriter(cfg, texts, screen, agenda), UserEvents(screen, agenda), cells, 0)
  }

  /** The number of user events on the days of `cells`. */
  function UserCount(screen: Screen, agenda: Date -> DayItems, cells: seq<GridCell>): nat {
    CountBefore(UserEvents(screen, agenda), cells)
  }

  /** Cell `k` of the month drawn on its own. */
  function CellAtIndex(cfg: Config, texts: Texts, screen: Screen, cells: seq<GridCell>, agenda: Date -> DayItems): nat -> seq<Draw> {
    AtIndex(CellWriter(cfg, texts, screen, agenda), UserEvents(screen, agenda), cells, 0)
  }

  /**
    The loop is the concatenation of the cells drawn independently, cell
    `k` numbering its events after every user event of the earlier days,
    whether or not those were visible in their cells.
   */
  lemma {:induction false} GridIsLoop(cfg: Config, texts: Texts, screen: Screen, cells: seq<GridCell>, agenda: Date -> DayItems)
    ensures GridDraws(cfg, texts, screen, cells, agenda) == Concat(CellAtIndex(cfg, texts, screen, cells, agenda), 0, |cells|)
    ensures forall k: nat | k < |cells| ::
              CellAtIndex(cfg, texts, screen, cells, agenda)(k)
              == CellDraws(cfg, texts, screen, cells[k], CellItems(screen, agenda, cells[k]), UserCount(screen, agenda, cells[..k]))
  {
    ThreadedIsConcat(CellWriter(cfg, texts, screen, agenda), UserEvents(screen, agenda), cells);
  }

  /** In a cell, only today's number and the selection numbers of the day's visible user events take the numbering style. */
  lemma {:induction false} CellNumberStyle(cfg: Config, texts: Texts, screen: Screen, g: GridCell, items: DayItems, offset: nat)
    ensures WithRole(CellDraws(cfg, texts, screen, g, items, offset), Today)
         == (if IsToday(CellScreen(screen, g.day), g.day) then [CellNumber(cfg, screen, g)] else [])
            + (if screen.selectionMode then CellNumbers(CellEvents(cfg, screen, g, offset), 0, Min(|items.user|, CellHeight(screen.yMax) - 1)) else [])
  {
    var number, c := CellNumber(cfg, screen, g), CellEvents(cfg, screen, g, offset);
    var body := DailyView(c, texts, items);
    var numbered := if screen.selectionMode then CellNumbers(c, 0, Min(|items.user|, CellHeight(screen.yMax) - 1)) else [];
    assert WithRole(body, Today) == numbered by {
      assert c.screen.selectionMode == screen.selectionMode && c.screen.yMax == screen.yMax;
      CellNumbering(c, texts, items);
    }
    assert WithRole([number], Today) == if IsToday(CellScreen(screen, g.day), g.day) then [number] else [] by {
      assert [number][1..] == [];
    }
    assert CellDraws(cfg, texts, screen, g, items, offset) == [number] + body;
    WithRoleAppend([number], body, Today);
  }

  /** With cells of at least two rows, everything a cell draws stays in its band of rows, below the grid row's top border. */
  lemma {:induction false} CellBand(cfg: Config, texts: Texts, screen: Screen, g: GridCell, items: DayItems, offset: nat)
    requires CellHeight(screen.yMax) >= 2
    ensures var yc := CellHeight(screen.yMax);
            RowsWithin(CellDraws(cfg, texts, screen, g, items, offset), CellTop(yc, g.row), CellTop(yc, g.row + 1))
  {
    var yc := CellHeight(screen.yMax);
    var number, c := CellNumber(cfg, screen, g), CellEvents(cfg, screen, g, offset);
    var body := DailyView(c, texts, items);
    CellRows(c, texts, items);
    NextCellTop(yc, g.row);
    assert c.screen.yMax == screen.yMax;
    assert RowsWithin(body, CellTop(yc, g.row), CellTop(yc, g.row + 1)) by {
      forall i | 0 <= i < |body| ensures CellTop(yc, g.row) <= body[i].row < CellTop(yc, g.row + 1) {
        assert body[i].row in DrawRows(body);
      }
    }
    assert RowsWithin([number], CellTop(yc, g.row), CellTop(yc, g.row + 1));
    RowsWithinAppend([number], body, CellTop(yc, g.row), CellTop(yc, g.row + 1));
  }

  /**
    A day's number sits under its weekday's name and takes the weekend
    style exactly when the name does, unless the day is today.
   */
  lemma {:induction false} DayNumberUnderName(cfg: Config, texts: Texts, screen: Screen, g: GridCell)
    requires 1 <= cfg.startWeekDay <= 7 && |DayNameTable(cfg, texts)| == 7 && g.col < 7
    ensures DaysNameView(cfg, texts, screen, 1, 0).Ok?
    ensures var d, name := CellNumber(cfg, screen, g), DaysNameView(cfg, texts, screen, 1, 0).value[g.col];
            && d.col == name.col
            && (d.role == Weekends <==> name.role == WeekendNames && !IsToday(CellScreen(screen, g.day), g.day))
  {
    DaysNameLayout(cfg, texts, screen, 1, 0);
  }

  // ---------------------------------------------------------------------
  // Monthly screen

  /** The monthly screen's title: the month's name and the year. */
  function MonthTitle(screen: Screen, month: string): string {
    month + " " + IntToString(screen.date.year)
  }

  /** The monthly screen waits up to ten seconds for a key before redrawing. */
  const MonthlyDelay := 100

  /** The screen object after the grid loop: its day is the last day drawn. */
  function AfterGrid(screen: Screen, cells: seq<GridCell>): Screen {
    if |cells| == 0 then screen else CellScreen(screen, cells[|cells| - 1].day)
  }

  /** The grid loop moves the focus within the month to its last day and changes nothing else. */
  lemma {:induction false} AfterGridFocus(screen: Screen, cells: seq<GridCell>)
    ensures var t := AfterGrid(screen, cells);
            && t.(date := screen.date) == screen
            && t.date.year == screen.date.year && t.date.month == screen.date.month
            && t.date.day == if |cells| == 0 then screen.date.day else cells[|cells| - 1].day
  {
  }

  /**
    `MonthlyScreenView.render` for the weeks of the focused month (`weeks`,
    zero-padded as the calendar library returns them) and the events of
    each date (`agenda`): the header with month and year, the weekday
    names on row 1, the grid of day cells, and the borders last. An
    out-of-range month or weekday name raises.
   */
  function MonthlyScreenView(cfg: Config, texts: Texts, screen: Screen, weeks: seq<seq<int>>, agenda: Date -> DayItems, forecast: string, clock: string): Result<Painted, string> {
    var s := screen.(state := Calendar);
    if TooSmall(s) then Ok(Painted(s, [], None))
    else
      match MonthName(cfg, texts, s.date.month)
      case None => Err("IndexError: month name")
      case Some(m) =>
        match DaysNameView(cfg, texts, s, 1, 0)
        case Err(e) => Err(e)
        case Ok(names) => Ok(Painted(AfterGrid(s, MonthCells(weeks, 0)), MonthlyDraws(cfg, texts, s, m, names, weeks, agenda, forecast, clock), Some(MonthlyDelay)))
  }

  /** What the monthly screen draws once its month and weekday names are known. */
  function MonthlyDraws(cfg: Config, texts: Texts, s: Screen, month: string, names: seq<Draw>, weeks: seq<seq<int>>, agenda: Date -> DayItems, forecast: string, clock: string): seq<Draw> {
    HeaderView(cfg, s, MonthTitle(s, month), forecast, clock) + names + GridDraws(cfg, texts, s, MonthCells(weeks, 0), agenda)
      + (if cfg.showCalendarBorders then CalendarBorderView(AfterGrid(s, MonthCells(weeks, 0))) else [])
  }

  /**
    The monthly screen fails exactly when the pane is large enough and the
    month or a weekday has no name. Otherwise it leaves the screen in the
    calendar state, focused on the last day of the grid (the focused day
    unchanged when the grid is empty), and keeps everything else.
   */
  lemma {:induction false} MonthlyScreenOutcome(cfg: Config, texts: Texts, screen: Screen, weeks: seq<seq<int>>, agenda: Date -> DayItems, forecast: string, clock: string)
    ensures var r, cells := MonthlyScreenView(cfg, texts, screen, weeks, agenda, forecast, clock), MonthCells(weeks, 0);
            && (r.Err? <==> !TooSmall(screen) && (MonthName(cfg, texts, screen.date.month).None? || !NamesInRange(cfg, texts)))
            && (r.Ok? && TooSmall(screen) ==> r.value == Painted(screen.(state := Calendar), [], None))
            && (r.Ok? && !TooSmall(screen) ==>
                  && r.value.delay == Some(MonthlyDelay)
                  && r.value.screen.(date := screen.date) == screen.(state := Calendar)
                  && r.value.screen.date.year == screen.date.year && r.value.screen.date.month == screen.date.month
                  && r.value.screen.date.day == if |cells| == 0 then screen.date.day else cells[|cells| - 1].day)
  {
    var s := screen.(state := Calendar);
    if !TooSmall(screen) && MonthName(cfg, texts, screen.date.month).Some? && NamesInRange(cfg, texts) {
      AfterGridFocus(s, MonthCells(weeks, 0));
      assert MonthlyScreenView(cfg, texts, screen, weeks, agenda, forecast, clock).value.screen == AfterGrid(s, MonthCells(weeks, 0));
    }
  }

  /** A monthly screen that draws: header, names, grid and, when enabled, borders, in that order. */
  lemma {:induction false} MonthlyScreenDraws(cfg: Config, texts: Texts, screen: Screen, weeks: seq<seq<int>>, agenda: Date -> DayItems, forecast: string, clock: string)
    requires !TooSmall(screen) && MonthName(cfg, texts, screen.date.month).Some? && NamesInRange(cfg, texts)
    ensures var s := screen.(state := Calendar);
            var r := MonthlyScreenView(cfg, texts, screen, weeks, agenda, forecast, clock);
            && r.Ok?
            && r.value.draws == MonthlyDraws(cfg, texts, s, MonthName(cfg, texts, screen.date.month).value, DaysNameView(cfg, texts, s, 1, 0).value, weeks, agenda, forecast, clock)
  {
  }

  /**
    A bordered monthly screen six columns wide passes the too-small test,
    but its cells have no width: when it draws, the terminal raises.
   */
  lemma {:induction false} ThinMonthlyRaises(cfg: Config, texts: Texts, screen: Screen, weeks: seq<seq<int>>, agenda: Date -> DayItems, forecast: string, clock: string, rows: int, cols: int)
    requires screen.xMax == 6 && 3 <= screen.yMax <= rows && cols > 0 && cfg.showCalendarBorders
    requires MonthlyScreenView(cfg, texts, screen, weeks, agenda, forecast, clock).Ok?
    ensures Screenshot(rows, cols, MonthlyScreenView(cfg, texts, screen, weeks, agenda, forecast, clock).value.draws).Err?
  {
    var s := screen.(state := Calendar);
    MonthlyScreenOutcome(cfg, texts, screen, weeks, agenda, forecast, clock);
    MonthlyScreenDraws(cfg, texts, screen, weeks, agenda, forecast, clock);
    var m := MonthName(cfg, texts, screen.date.month).value;
    var grid := AfterGrid(s, MonthCells(weeks, 0));
    AfterGridFocus(s, MonthCells(weeks, 0));
    var head := HeaderView(cfg, s, MonthTitle(s, m), forecast, clock) + DaysNameView(cfg, texts, s, 1, 0).value
                + GridDraws(cfg, texts, s, MonthCells(weeks, 0), agenda);
    assert MonthlyScreenView(cfg, texts, screen, weeks, agenda, forecast, clock).value.draws == head + CalendarBorderView(grid);
    assert BandRow(CellHeight(grid.yMax), 6) < rows;
    ThinGridRaises(grid, rows, cols);
    RaisesWithin(rows, cols, head, CalendarBorderView(grid));
  }

  /** The last line of a cell in grid row `r`: the row of its hidden-events sign. */
  function CellLastLine(yc: int, r: int): int {
    CellTop(yc, r) + 1 + yc - 2
  }

  lemma {:induction false} LastLineIsBand(yc: int, r: int)
    ensures CellLastLine(yc, r) == BandRow(yc, r + 1)
  {
  }

  /** The border pass, drawn after `front`, shows a horizontal line at band `r` whatever `front` holds. */
  lemma {:induction false} BorderOverFront(front: seq<Draw>, s: Screen, last: Screen, r: nat, col: nat)
    requires Roomy(s) && 1 <= r <= 6 && col < s.xMax && OffLines(s, col)
    requires last.xMax == s.xMax && last.yMax == s.yMax
    ensures LastCover(front + CalendarBorderView(last), (BandRow(CellHeight(s.yMax), r), col))
            == Some(Glyph('\U{2500}', CalendarBorder, false, false))
  {
    assert OffLines(last, col) by { assert CellWidth(last.xMax) == CellWidth(s.xMax); }
    BorderHorizontal(last, r, col);
    LastCoverAfter(front, CalendarBorderView(last), (BandRow(CellHeight(s.yMax), r), col), Glyph('\U{2500}', CalendarBorder, false, false));
  }

  /**
    With borders on, the last line of every cell of the monthly grid is
    overdrawn by a horizontal border: what ends up at any column off the
    vertical lines is a border glyph, not the cell's own text.
   */
  lemma {:induction false} BordersHideCellBottom(cfg: Config, texts: Texts, s: Screen, month: string, names: seq<Draw>, weeks: seq<seq<int>>, agenda: Date -> DayItems, forecast: string, clock: string, r: nat, col: nat)
    requires cfg.showCalendarBorders && Roomy(s) && r < 6 && col < s.xMax && OffLines(s, col)
    ensures var yc := CellHeight(s.yMax);
            && CellLastLine(yc, r) == BandRow(yc, r + 1)
            && LastCover(MonthlyDraws(cfg, texts, s, month, names, weeks, agenda, forecast, clock), (CellLastLine(yc, r), col))
               == Some(Glyph('\U{2500}', CalendarBorder, false, false))
  {
    LastLineIsBand(CellHeight(s.yMax), r);
    var last := AfterGrid(s, MonthCells(weeks, 0));
    AfterGridFocus(s, MonthCells(weeks, 0));
    var front := HeaderView(cfg, s, MonthTitle(s, month), forecast, clock) + names + GridDraws(cfg, texts, s, MonthCells(weeks, 0), agenda);
    assert MonthlyDraws(cfg, texts, s, month, names, weeks, agenda, forecast, clock) == front + CalendarBorderView(last);
    BorderOverFront(front, s, last, r + 1, col);
  }

  // ---------------------------------------------------------------------
  // Journal screen

  /** The loop of `calculate_refresh_rate`: some task's timer is counting. */
  predicate AnyCounting(tasks: seq<Task>)
    decreases |tasks|
  {
    |tasks| > 0 && (tasks[0].timer.isCounting || AnyCounting(tasks[1..]))
  }

  lemma {:induction false} AnyCountingIff(tasks: seq<Task>)
    ensures AnyCounting(tasks) <==> exists i | 0 <= i < |tasks| :: tasks[i].timer.isCounting
    decreases |tasks|
  {
    if |tasks| > 0 {
      AnyCountingIff(tasks[1..]);
      if exists i | 0 <= i < |tasks| :: tasks[i].timer.isCounting {
        var i :| 0 <= i < |tasks| && tasks[i].timer.isCounting;
        if i > 0 {
          assert tasks[1..][i - 1].timer.isCounting;
        }
      }
    }
  }

  /** The journal's refresh state: the view's half-delay in tenths of a second and the screen's refresh flag. */
  datatype Refresh = Refresh(time: int, now: bool)

  /** The half-delay the journal starts with. */
  const InitialRefreshTime := 100

  /** `calculate_refresh_rate`: a counting timer switches to the configured interval and clears the refresh flag. */
  function CalculateRefreshRate(cfg: Config, tasks: seq<Task>, r: Refresh): Refresh {
    if AnyCounting(tasks) then Refresh(cfg.refreshInterval * 10, false) else r
  }

  /**
    With a counting timer the journal refreshes at the configured interval
    and no longer forces a refresh; otherwise nothing changes. Either way a
    second call changes nothing more: the rate never returns to its
    initial value while the view lives.
   */
  lemma {:induction false} RefreshRateRules(cfg: Config, tasks: seq<Task>, r: Refresh)
    ensures var r' := CalculateRefreshRate(cfg, tasks, r);
            && ((exists i | 0 <= i < |tasks| :: tasks[i].timer.isCounting) ==> r' == Refresh(cfg.refreshInterval * 10, false))
            && ((forall i | 0 <= i < |tasks| :: !tasks[i].timer.isCounting) ==> r' == r)
            && CalculateRefreshRate(cfg, tasks, r') == r'
  {
    AnyCountingIff(tasks);
  }

  /** What the journal's render leaves: the painted screen and the refresh state. */
  datatype JournalPainted = JournalPainted(painted: Painted, refresh: Refresh)

  /**
    `JournalScreenView.render`: the journal state; on a pane large enough,
    the refresh rate, the header with the journal title and the task list
    two rows down at the pane's left edge.
   */
  function JournalScreenView(cfg: Config, texts: Texts, screen: Screen, r: Refresh, tasks: seq<Task>, forecast: string, clock: string): JournalPainted {
    var s := screen.(state := Journal);
    if TooSmall(s) then JournalPainted(Painted(s, [], None), r)
    else
      var r' := CalculateRefreshRate(cfg, tasks, r);
      JournalPainted(Painted(s, HeaderView(cfg, s, cfg.journalHeader, forecast, clock) + JournalView(cfg, texts, s, 2, s.xMin, tasks), Some(r'.time)), r')
  }

  /**
    The journal screen leaves the screen in the journal state. On a split
    screen its header is the title alone, so the task list starts at the
    second write; the only selection numbers are `1..n` for the `n` tasks,
    on rows `2..n+1` at the pane's left edge.
   */
  lemma {:induction false} JournalScreenLayout(cfg: Config, texts: Texts, screen: Screen, r: Refresh, tasks: seq<Task>, forecast: string, clock: string)
    requires !TooSmall(screen)
    ensures var out, s := JournalScreenView(cfg, texts, screen, r, tasks, forecast, clock), screen.(state := Journal);
            && out.painted.screen == s
            && out.refresh == CalculateRefreshRate(cfg, tasks, r)
            && out.painted.delay == Some(out.refresh.time)
            && |out.painted.draws| > 0 && out.painted.draws[0] == TitleView(cfg, s, cfg.journalHeader)
            && (screen.split ==> out.painted.draws[1..] == JournalView(cfg, texts, s, 2, screen.xMin, tasks))
            && WithRole(out.painted.draws, Today) == if screen.selectionMode then ListNumbers(2, screen.xMin, 0, |tasks|) else []
  {
    var s := screen.(state := Journal);
    var header := HeaderView(cfg, s, cfg.journalHeader, forecast, clock);
    var body := JournalView(cfg, texts, s, 2, s.xMin, tasks);
    var r' := CalculateRefreshRate(cfg, tasks, r);
    assert JournalScreenView(cfg, texts, screen, r, tasks, forecast, clock) == JournalPainted(Painted(s, header + body, Some(r'.time)), r');
    HeaderParts(cfg, s, cfg.journalHeader, forecast, clock);
    HeaderNotNumbered(cfg, s, cfg.journalHeader, forecast, clock);
    JournalNumbering(cfg, texts, s, 2, s.xMin, tasks);
    WithRoleAppend(header, body, Today);
    EmptyAppend(WithRole(header, Today), WithRole(body, Today));
    ConsAppend(header, body);
    if screen.split {
      assert header[1..] == [];
      EmptyAppend(header[1..], body);
    }
  }

  /** A pane too small for the journal gets nothing, and the refresh state is left as it was. */
  lemma {:induction false} JournalTooSmall(cfg: Config, texts: Texts, screen: Screen, r: Refresh, tasks: seq<Task>, forecast: string, clock: string)
    requires TooSmall(screen)
    ensures JournalScreenView(cfg, texts, screen, r, tasks, forecast, clock) == JournalPainted(Painted(screen.(state := Journal), [], None), r)
  {
  }
}
