/**
  The screen chrome: the weekday names above the grid, the title, the
  header with weather and clock, the key-binding footer, the separator of
  the split screen and the borders of the monthly grid.
 */
module Chrome {
  import opened Wrappers
  import opened Text
  import opened Canvas
  import opened Model
  import opened Geometry

  // ---------------------------------------------------------------------
  // Weekday names

  /** Characters kept of a weekday name: two in a narrow pane, ten otherwise. */
  function NameWidth(xMax: int): int {
    if xMax < 80 then 2 else 10
  }

  function DayNameTable(cfg: Config, texts: Texts): seq<string> {
    if cfg.usePersianCalendar then texts.daysPersian else texts.days
  }

  /** The write of grid column `i`: the rotated weekday's name, cut, styled as a weekend or a weekday. */
  function DayNameWrites(cfg: Config, texts: Texts, screen: Screen, y: int, x: int): nat -> seq<Draw> {
    (i: nat) =>
      var d := DayInWeek(i, cfg.startWeekDay);
      match PyIndex(DayNameTable(cfg, texts), d)
      case None => []
      case Some(name) =>
        var text := Take(name, NameWidth(screen.xMax));
        if !IsWeekend(cfg, d) then [Draw(y, x + i * CellWidth(screen.xMax), text, DayNames, cfg.dayNames.bold, cfg.dayNames.underline)]
        else [Draw(y, x + i * CellWidth(screen.xMax), text, WeekendNames, cfg.weekendNames.bold, cfg.weekendNames.underline)]
  }

  /** The seven rotated indices all fall inside the name table (Python indexing). */
  predicate NamesInRange(cfg: Config, texts: Texts) {
    forall i | 0 <= i < 7 :: PyIndex(DayNameTable(cfg, texts), DayInWeek(i, cfg.startWeekDay)).Some?
  }

  /** `DaysNameView.render`: the seven names; an index outside the table raises. */
  function DaysNameView(cfg: Config, texts: Texts, screen: Screen, y: int, x: int): Result<seq<Draw>, string> {
    if NamesInRange(cfg, texts) then Ok(Concat(DayNameWrites(cfg, texts, screen, y, x), 0, 7))
    else Err("IndexError: day name")
  }

  /** With a week start in 1..7 and a full table, every index is in range. */
  lemma {:induction false} NamesInRangeForValidStart(cfg: Config, texts: Texts)
    requires 1 <= cfg.startWeekDay <= 7 && |DayNameTable(cfg, texts)| == 7
    ensures NamesInRange(cfg, texts)
  {
  }

  /** Column `i`'s write, for an in-range index. */
  lemma {:induction false} DayNameWriteAt(cfg: Config, texts: Texts, screen: Screen, y: int, x: int, i: nat)
    requires 1 <= cfg.startWeekDay <= 7 && |DayNameTable(cfg, texts)| == 7 && i < 7
    ensures var w, d := DayNameWrites(cfg, texts, screen, y, x)(i), DayInWeek(i, cfg.startWeekDay);
            && |w| == 1
            && w[0].row == y && w[0].col == x + i * CellWidth(screen.xMax)
            && w[0].text == Take(DayNameTable(cfg, texts)[d], NameWidth(screen.xMax))
            && w[0].role in {DayNames, WeekendNames}
            && (w[0].role == WeekendNames <==> IsWeekend(cfg, d))
  {
  }

  /** Every column of the loop makes exactly one write. */
  lemma {:induction false} DayNamesSingles(cfg: Config, texts: Texts, screen: Screen, y: int, x: int)
    requires 1 <= cfg.startWeekDay <= 7 && |DayNameTable(cfg, texts)| == 7
    ensures AllSingles(DayNameWrites(cfg, texts, screen, y, x), 0, 7)
  {
    forall k: nat | k < 7 ensures |DayNameWrites(cfg, texts, screen, y, x)(k)| == 1 {
      DayNameWriteAt(cfg, texts, screen, y, x, k);
    }
  }

  /** The `i`-th write of the names row, for a week start in 1..7. */
  lemma {:induction false} DaysNameColumn(cfg: Config, texts: Texts, screen: Screen, y: int, x: int, i: nat)
    requires 1 <= cfg.startWeekDay <= 7 && |DayNameTable(cfg, texts)| == 7 && i < 7
    ensures DaysNameView(cfg, texts, screen, y, x).Ok?
    ensures var r, d := DaysNameView(cfg, texts, screen, y, x).value, DayInWeek(i, cfg.startWeekDay);
            && |r| == 7
            && r[i].row == y && r[i].col == x + i * CellWidth(screen.xMax)
            && r[i].text == Take(DayNameTable(cfg, texts)[d], NameWidth(screen.xMax))
            && r[i].role in {DayNames, WeekendNames}
            && (r[i].role == WeekendNames <==> IsWeekend(cfg, d))
  {
    var views := DayNameWrites(cfg, texts, screen, y, x);
    NamesInRangeForValidStart(cfg, texts);
    DayNamesSingles(cfg, texts, screen, y, x);
    ConcatSingles(views, 0, 7);
    DayNameWriteAt(cfg, texts, screen, y, x, i);
  }

  /** The text and style of the `i`-th write of the names row. */
  lemma {:induction false} DaysNameText(cfg: Config, texts: Texts, screen: Screen, y: int, x: int, i: nat)
    requires 1 <= cfg.startWeekDay <= 7 && |DayNameTable(cfg, texts)| == 7 && i < 7
    ensures var r, d := DaysNameView(cfg, texts, screen, y, x).value, DayInWeek(i, cfg.startWeekDay);
            && |r| == 7
            && r[i].text == Take(DayNameTable(cfg, texts)[d], NameWidth(screen.xMax))
            && (r[i].role == WeekendNames <==> IsWeekend(cfg, d))
  {
    DaysNameColumn(cfg, texts, screen, y, x, i);
  }

  /**
    With a week start in 1..7, the names are drawn one per column, `x_cell`
    apart on row `y`, column `i` showing the rotated weekday's name cut to
    the name width and styled as a weekend exactly when that weekday is one.
   */
  lemma {:induction false} DaysNameLayout(cfg: Config, texts: Texts, screen: Screen, y: int, x: int)
    requires 1 <= cfg.startWeekDay <= 7 && |DayNameTable(cfg, texts)| == 7
    ensures DaysNameView(cfg, texts, screen, y, x).Ok?
    ensures var r := DaysNameView(cfg, texts, screen, y, x).value;
            && |r| == 7
            && forall i: nat | i < 7 ::
                 && r[i].row == y && r[i].col == x + i * CellWidth(screen.xMax)
                 && r[i].text == Take(DayNameTable(cfg, texts)[DayInWeek(i, cfg.startWeekDay)], NameWidth(screen.xMax))
                 && r[i].role in {DayNames, WeekendNames}
                 && (r[i].role == WeekendNames <==> IsWeekend(cfg, DayInWeek(i, cfg.startWeekDay)))
  {
    DaysNameColumn(cfg, texts, screen, y, x, 0);
    forall i: nat | i < 7
      ensures var r := DaysNameView(cfg, texts, screen, y, x).value;
              && r[i].row == y && r[i].col == x + i * CellWidth(screen.xMax)
              && r[i].text == Take(DayNameTable(cfg, texts)[DayInWeek(i, cfg.startWeekDay)], NameWidth(screen.xMax))
              && r[i].role in {DayNames, WeekendNames}
              && (r[i].role == WeekendNames <==> IsWeekend(cfg, DayInWeek(i, cfg.startWeekDay)))
    {
      DaysNameColumn(cfg, texts, screen, y, x, i);
    }
  }

  /** Every weekday's name appears, cut, in the column `ColumnOf` gives it, styled by whether it is a weekend. */
  lemma {:induction false} DaysNameEachOnce(cfg: Config, texts: Texts, screen: Screen, y: int, x: int)
    requires 1 <= cfg.startWeekDay <= 7 && |DayNameTable(cfg, texts)| == 7
    ensures var r := DaysNameView(cfg, texts, screen, y, x).value;
            && |r| == 7
            && forall d | 0 <= d < 7 ::
                 && 0 <= ColumnOf(d, cfg.startWeekDay) < 7
                 && r[ColumnOf(d, cfg.startWeekDay)].text == Take(DayNameTable(cfg, texts)[d], NameWidth(screen.xMax))
                 && (r[ColumnOf(d, cfg.startWeekDay)].role == WeekendNames <==> IsWeekend(cfg, d))
  {
    DaysNameColumn(cfg, texts, screen, y, x, 0);
    forall d | 0 <= d < 7
      ensures var r := DaysNameView(cfg, texts, screen, y, x).value;
              && 0 <= ColumnOf(d, cfg.startWeekDay) < 7
              && r[ColumnOf(d, cfg.startWeekDay)].text == Take(DayNameTable(cfg, texts)[d], NameWidth(screen.xMax))
              && (r[ColumnOf(d, cfg.startWeekDay)].role == WeekendNames <==> IsWeekend(cfg, d))
    {
      DaysNameOfDay(cfg, texts, screen, y, x, d);
    }
  }

  lemma {:induction false} DaysNameOfDay(cfg: Config, texts: Texts, screen: Screen, y: int, x: int, d: int)
    requires 1 <= cfg.startWeekDay <= 7 && |DayNameTable(cfg, texts)| == 7 && 0 <= d < 7
    ensures var r, c := DaysNameView(cfg, texts, screen, y, x).value, ColumnOf(d, cfg.startWeekDay);
            && 0 <= c < 7 && |r| == 7
            && r[c].text == Take(DayNameTable(cfg, texts)[d], NameWidth(screen.xMax))
            && (r[c].role == WeekendNames <==> IsWeekend(cfg, d))
  {
    var c := ColumnOf(d, cfg.startWeekDay);
    DayInWeekOfColumn(d, cfg.startWeekDay);
    var i: nat := c;
    assert DayInWeek(i, cfg.startWeekDay) == d;
    DaysNameText(cfg, texts, screen, y, x, i);
  }

  // ---------------------------------------------------------------------
  // Title and header

  /** `TitleView.render`: the title at the pane's left edge, in the active-pane style only for the active pane of a split screen. */
  function TitleView(cfg: Config, screen: Screen, title: string): (r: Draw)
    ensures r.row == 0 && r.col == screen.xMin && r.text == title
    ensures r.role == ActivePane <==> screen.activePane && screen.split
    ensures r.role in {ActivePane, CalendarHeader}
  {
    if screen.activePane && screen.split then Draw(0, screen.xMin, title, ActivePane, cfg.activePane.bold, cfg.activePane.underline)
    else Draw(0, screen.xMin, title, CalendarHeader, cfg.title.bold, cfg.title.underline)
  }

  /** The forecast fits beside the title. */
  predicate WeatherFits(screen: Screen, title: string, forecast: string) {
    |forecast| < screen.xMax - |title|
  }

  /** The test the header applies before the clock: the forecast's length against what title and clock leave. */
  predicate ClockFits(screen: Screen, title: string, forecast: string, clock: string) {
    |forecast| < screen.xMax - |title| - |clock|
  }

  /** The weather write: right-aligned, ending one column before the pane's right edge. */
  function WeatherWrite(screen: Screen, forecast: string): Draw {
    Plain(0, screen.xMax - |forecast| - 1, forecast, Weather)
  }

  /** The clock write, near the middle of the pane. */
  function ClockWrite(screen: Screen, clock: string): Draw {
    Plain(0, screen.xMax / 2 - 2, clock, Time)
  }

  /** In a split screen the journal pane's header is the title alone. */
  predicate TitleOnly(screen: Screen) {
    screen.state == Journal && screen.split
  }

  /**
    `HeaderView.render`: the title; then, unless this is the journal pane of
    a split screen, the weather and the clock (`clock` is the formatted
    local time) when enabled and the fit tests pass.
   */
  function HeaderView(cfg: Config, screen: Screen, title: string, forecast: string, clock: string): seq<Draw> {
    [TitleView(cfg, screen, title)]
      + if TitleOnly(screen) then []
        else
          (if cfg.showWeather && WeatherFits(screen, title, forecast) then [WeatherWrite(screen, forecast)] else [])
          + (if cfg.showCurrentTime && ClockFits(screen, title, forecast, clock) then [ClockWrite(screen, clock)] else [])
  }

  /**
    The header is the title first; the weather is drawn exactly when it is
    enabled, fits and the pane is not the split journal's; likewise the
    clock. A drawn forecast ends one column before the pane's right edge and
    starts at or right of column `len(title)`.
   */
  lemma {:induction false} HeaderParts(cfg: Config, screen: Screen, title: string, forecast: string, clock: string)
    ensures var r := HeaderView(cfg, screen, title, forecast, clock);
            && |r| >= 1 && r[0] == TitleView(cfg, screen, title)
            && (TitleOnly(screen) ==> |r| == 1)
            && (WeatherWrite(screen, forecast) in r <==> !TitleOnly(screen) && cfg.showWeather && WeatherFits(screen, title, forecast))
            && (ClockWrite(screen, clock) in r <==> !TitleOnly(screen) && cfg.showCurrentTime && ClockFits(screen, title, forecast, clock))
    ensures var w := WeatherWrite(screen, forecast);
            WeatherFits(screen, title, forecast) ==> w.col + |w.text| == screen.xMax - 1 && w.col >= |title|
  {
    var t := TitleView(cfg, screen, title);
    var w, c := WeatherWrite(screen, forecast), ClockWrite(screen, clock);
    assert t != w && t != c && w != c by {
      assert t.role != w.role && t.role != c.role && w.role != c.role;
    }
  }

  /** No header write is in the numbering role, so selection numbers never come from the header. */
  lemma {:induction false} HeaderNotNumbered(cfg: Config, screen: Screen, title: string, forecast: string, clock: string)
    ensures WithRole(HeaderView(cfg, screen, title, forecast, clock), Today) == []
  {
    var r := HeaderView(cfg, screen, title, forecast, clock);
    HeaderParts(cfg, screen, title, forecast, clock);
    forall i | 0 <= i < |r| ensures r[i].role != Today {
      assert r[i] in r;
      assert r[i] == TitleView(cfg, screen, title) || r[i] == WeatherWrite(screen, forecast) || r[i] == ClockWrite(screen, clock);
    }
    WithRoleNone(r, Today);
  }

  /** Whenever the clock passes its test the weather passes its own: the clock never shows without room for the forecast. */
  lemma {:induction false} ClockImpliesWeatherFits(screen: Screen, title: string, forecast: string, clock: string)
    ensures ClockFits(screen, title, forecast, clock) ==> WeatherFits(screen, title, forecast)
  {
  }

  /**
    The two fit tests compare lengths only, not positions: in a 40-column
    pane with a 10-character title, a 20-character forecast and a
    5-character clock both are drawn, and the clock, drawn last, covers
    column 19, where the forecast starts.
   */
  lemma {:induction false} ClockMayCoverWeather(cfg: Config, screen: Screen, title: string, forecast: string, clock: string)
    requires screen.xMax == 40 && |title| == 10 && |forecast| == 20 && |clock| == 5
    requires cfg.showWeather && cfg.showCurrentTime && !TitleOnly(screen)
    ensures var r := HeaderView(cfg, screen, title, forecast, clock);
            && |r| == 3 && r[1] == WeatherWrite(screen, forecast) && r[2] == ClockWrite(screen, clock)
            && Covers(r[1], (0, 19)) && Covers(r[2], (0, 19))
            && LastCover(r, (0, 19)) == Some(GlyphAt(r[2], (0, 19)))
  {
    var r := HeaderView(cfg, screen, title, forecast, clock);
    assert r == [TitleView(cfg, screen, title)] + [WeatherWrite(screen, forecast)] + [ClockWrite(screen, clock)];
    LastCoverSingle(r[2], (0, 19));
    LastCoverAppend(r[..2], [r[2]], (0, 19));
    assert r[..2] + [r[2]] == r;
  }

  // ---------------------------------------------------------------------
  // Footer

  /**
    `FooterView.render`: with key bindings shown, the last row of the pane
    blanked over `width` columns (`clear_line`, whose width is a parameter
    here), then the hint of the current screen on that row. The hint is only
    bound for the calendar and journal screens; any other state raises.
   */
  function FooterView(cfg: Config, texts: Texts, screen: Screen, width: int): Result<seq<Draw>, string> {
    if !cfg.showKeybindings then Ok([])
    else
      match screen.state
      case Calendar =>
        Ok([ClearLine(screen.yMax - 1, width),
            Plain(screen.yMax - 1, 0, if screen.calState == Monthly then texts.calendarHint else texts.calendarHintDaily, Hints)])
      case Journal => Ok([ClearLine(screen.yMax - 1, width), Plain(screen.yMax - 1, 0, texts.journalHint, Hints)])
      case _ => Err("UnboundLocalError: hint")
  }

  /** `clear_line`: blanks over `width` columns of row `y`. */
  function ClearLine(y: int, width: int): Draw {
    Plain(y, 0, Spaces(width), Empty)
  }

  /** The hint of each screen. */
  function HintFor(texts: Texts, state: AppState, calState: CalState): string {
    if state == Journal then texts.journalHint
    else if calState == Monthly then texts.calendarHint
    else texts.calendarHintDaily
  }

  /**
    The footer fails exactly when key bindings are shown on a screen other
    than the calendar or the journal; otherwise it is nothing, or the
    blanked last row and the screen's hint on it.
   */
  lemma {:induction false} FooterCases(cfg: Config, texts: Texts, screen: Screen, width: int)
    ensures var r := FooterView(cfg, texts, screen, width);
            r.Err? <==> cfg.showKeybindings && screen.state !in {Calendar, Journal}
    ensures var r := FooterView(cfg, texts, screen, width);
            r.Ok? && cfg.showKeybindings ==>
              r.value == [Plain(screen.yMax - 1, 0, Spaces(width), Empty), Plain(screen.yMax - 1, 0, HintFor(texts, screen.state, screen.calState), Hints)]
    ensures !cfg.showKeybindings ==> FooterView(cfg, texts, screen, width) == Ok([])
  {
  }

  /**
    What a shown footer leaves on its row: the hint over its own columns,
    blanks over the rest of the first `width` columns, and whatever was
    there before beyond both. So a separator glyph drawn earlier on the last
    row, inside those columns, is hidden.
   */
  lemma {:induction false} FooterRow(cfg: Config, texts: Texts, screen: Screen, width: int, before: seq<Draw>, c: int)
    requires cfg.showKeybindings && screen.state in {Calendar, Journal}
    ensures var hint := HintFor(texts, screen.state, screen.calState);
            var p := (screen.yMax - 1, c);
            var after := before + FooterView(cfg, texts, screen, width).value;
            && (0 <= c < |hint| ==> LastCover(after, p) == Some(Glyph(hint[c], Hints, false, false)))
            && (|hint| <= c && 0 <= c < width ==> LastCover(after, p) == Some(Glyph(' ', Empty, false, false)))
            && (c < 0 || (c >= |hint| && c >= width) ==> LastCover(after, p) == LastCover(before, p))
  {
    var hint := HintFor(texts, screen.state, screen.calState);
    var p := (screen.yMax - 1, c);
    var blank, line := ClearLine(screen.yMax - 1, width), Plain(screen.yMax - 1, 0, hint, Hints);
    FooterCases(cfg, texts, screen, width);
    assert FooterView(cfg, texts, screen, width).value == [blank] + [line];
    assert before + [blank] + [line] == before + FooterView(cfg, texts, screen, width).value;
    LastCoverSingle(line, p);
    LastCoverSingle(blank, p);
    LastCoverAppend(before, [blank], p);
    LastCoverAppend(before + [blank], [line], p);
    SpacesAreBlank(width);
  }

  // ---------------------------------------------------------------------
  // Separator

  /** Row `r*y_cell+1`: the horizontal border below week row `r-1`. */
  function BandRow(yc: int, r: int): int {
    r * yc + 1
  }

  /** Column `c*x_cell-1`: the vertical border left of grid column `c`. */
  function LineCol(xc: int, c: int): int {
    c * xc - 1
  }

  /** The separator's column: the terminal width minus the journal pane's. */
  function SeparatorCol(screen: Screen, cols: int): int {
    cols - screen.journalPaneWidth
  }

  /** The separator's rows: down to the grid's bottom border when borders are shown, else the pane's height. */
  function SeparatorHeight(cfg: Config, screen: Screen): int {
    if cfg.showCalendarBorders then 6 * CellHeight(screen.yMax) + 2 else screen.yMax
  }

  function SeparatorLine(cfg: Config, screen: Screen, cols: int): nat -> seq<Draw> {
    (row: nat) => [Plain(row, SeparatorCol(screen, cols), cfg.separatorIcon, Separator)]
  }

  function SeparatorJoins(screen: Screen, cols: int): nat -> seq<Draw> {
    (r: nat) => [Plain(BandRow(CellHeight(screen.yMax), r), SeparatorCol(screen, cols), "\U{2524}", CalendarBorder)]
  }

  /** Borders are drawn with the monthly grid: the separator then joins them. */
  predicate JoinsBorders(cfg: Config, screen: Screen) {
    cfg.showCalendarBorders && screen.calState == Monthly
  }

  /** Later border rows lie strictly below row `r`'s. */
  lemma {:induction false} LaterBandsDiffer(yc: int, r: int)
    requires yc >= 1
    ensures forall j | r < j :: BandRow(yc, r) < BandRow(yc, j)
  {
    forall j | r < j ensures BandRow(yc, r) < BandRow(yc, j) {
      BandRowsIncrease(yc, r, j);
    }
  }

  /** Distinct vertical borders are distinct screen columns when cells have at least one column. */
  lemma {:induction false} LineColsIncrease(xc: int, c: int, j: int)
    requires xc >= 1 && c < j
    ensures LineCol(xc, c) < LineCol(xc, j)
  {
    assert j * xc - c * xc == (j - c) * xc;
  }

  /** Later vertical borders lie strictly right of column `c`'s. */
  lemma {:induction false} LaterLinesDiffer(xc: int, c: int)
    requires xc >= 1
    ensures forall j | c < j :: LineCol(xc, c) < LineCol(xc, j)
  {
    forall j | c < j ensures LineCol(xc, c) < LineCol(xc, j) {
      LineColsIncrease(xc, c, j);
    }
  }

  /**
    `SeparatorView.render` (`cols` is the terminal's width): the separator
    icon on each row, then, next to a bordered monthly grid, a junction on
    each horizontal border and a corner on the bottom one.
   */
  function SeparatorView(cfg: Config, screen: Screen, cols: int): seq<Draw> {
    var yc, xs := CellHeight(screen.yMax), SeparatorCol(screen, cols);
    Concat(SeparatorLine(cfg, screen, cols), 0, SeparatorHeight(cfg, screen))
      + if JoinsBorders(cfg, screen) then
          Concat(SeparatorJoins(screen, cols), 1, 7) + [Plain(BandRow(yc, 6), xs, "\U{2518}", CalendarBorder)]
        else []
  }

  /** Distinct border rows are distinct screen rows when cells have at least one row. */
  lemma {:induction false} BandRowsIncrease(yc: int, r: int, j: int)
    requires yc >= 1 && r < j
    ensures BandRow(yc, r) < BandRow(yc, j)
  {
    assert j * yc - r * yc == (j - r) * yc;
  }

  /**
    Next to a bordered monthly grid with cells of at least one row, the
    separator's cell on the bottom border shows the corner and on each of
    the five inner borders the junction; every other separator row shows
    the separator icon's first character.
   */
  lemma {:induction false} SeparatorJunctions(cfg: Config, screen: Screen, cols: int, r: nat, row: int)
    requires JoinsBorders(cfg, screen) && CellHeight(screen.yMax) >= 1
    ensures var sep, yc, xs := SeparatorView(cfg, screen, cols), CellHeight(screen.yMax), SeparatorCol(screen, cols);
            LastCover(sep, (BandRow(yc, 6), xs)) == Some(Glyph('\U{2518}', CalendarBorder, false, false))
    ensures var sep, yc, xs := SeparatorView(cfg, screen, cols), CellHeight(screen.yMax), SeparatorCol(screen, cols);
            1 <= r <= 5 ==> LastCover(sep, (BandRow(yc, r), xs)) == Some(Glyph('\U{2524}', CalendarBorder, false, false))
    ensures var sep, yc, xs := SeparatorView(cfg, screen, cols), CellHeight(screen.yMax), SeparatorCol(screen, cols);
            |cfg.separatorIcon| > 0 && 0 <= row < BandRow(yc, 6) + 1 && (forall j | 1 <= j <= 6 :: row != BandRow(yc, j)) ==>
              LastCover(sep, (row, xs)) == Some(Glyph(cfg.separatorIcon[0], Separator, false, false))
  {
    var yc, xs := CellHeight(screen.yMax), SeparatorCol(screen, cols);
    var line, joins := Concat(SeparatorLine(cfg, screen, cols), 0, SeparatorHeight(cfg, screen)), Concat(SeparatorJoins(screen, cols), 1, 7);
    var corner := Plain(BandRow(yc, 6), xs, "\U{2518}", CalendarBorder);
    assert SeparatorView(cfg, screen, cols) == line + (joins + [corner]);
    SeparatorCorner(cfg, screen, cols, line, joins, corner);
    if 1 <= r <= 5 {
      SeparatorJoin(cfg, screen, cols, r, line, joins, corner);
    }
    if |cfg.separatorIcon| > 0 && 0 <= row < BandRow(yc, 6) + 1 && (forall j | 1 <= j <= 6 :: row != BandRow(yc, j)) {
      SeparatorPlain(cfg, screen, cols, row, line, joins, corner);
    }
  }

  lemma {:induction false} SeparatorCorner(cfg: Config, screen: Screen, cols: int, line: seq<Draw>, joins: seq<Draw>, corner: Draw)
    requires JoinsBorders(cfg, screen) && CellHeight(screen.yMax) >= 1
    requires corner == Plain(BandRow(CellHeight(screen.yMax), 6), SeparatorCol(screen, cols), "\U{2518}", CalendarBorder)
    ensures LastCover(line + (joins + [corner]), (corner.row, corner.col)) == Some(Glyph('\U{2518}', CalendarBorder, false, false))
  {
    var p := (corner.row, corner.col);
    LastCoverSingle(corner, p);
    LastCoverAppend(joins, [corner], p);
    LastCoverAppend(line, joins + [corner], p);
  }

  lemma {:induction false} SeparatorJoin(cfg: Config, screen: Screen, cols: int, r: nat, line: seq<Draw>, joins: seq<Draw>, corner: Draw)
    requires JoinsBorders(cfg, screen) && CellHeight(screen.yMax) >= 1 && 1 <= r <= 5
    requires joins == Concat(SeparatorJoins(screen, cols), 1, 7)
    requires corner == Plain(BandRow(CellHeight(screen.yMax), 6), SeparatorCol(screen, cols), "\U{2518}", CalendarBorder)
    ensures var p := (BandRow(CellHeight(screen.yMax), r), SeparatorCol(screen, cols));
            LastCover(line + (joins + [corner]), p) == Some(Glyph('\U{2524}', CalendarBorder, false, false))
  {
    var yc := CellHeight(screen.yMax);
    var p := (BandRow(yc, r), SeparatorCol(screen, cols));
    LaterBandsDiffer(yc, r);
    LastCoverSingle(corner, p);
    SinglesLastCover(SeparatorJoins(screen, cols), 1, 7, r, p);
    LastCoverAppend(joins, [corner], p);
    LastCoverAppend(line, joins + [corner], p);
  }

  lemma {:induction false} SeparatorPlain(cfg: Config, screen: Screen, cols: int, row: int, line: seq<Draw>, joins: seq<Draw>, corner: Draw)
    requires JoinsBorders(cfg, screen) && CellHeight(screen.yMax) >= 1 && |cfg.separatorIcon| > 0
    requires 0 <= row < BandRow(CellHeight(screen.yMax), 6) + 1
    requires forall j | 1 <= j <= 6 :: row != BandRow(CellHeight(screen.yMax), j)
    requires line == Concat(SeparatorLine(cfg, screen, cols), 0, SeparatorHeight(cfg, screen))
    requires joins == Concat(SeparatorJoins(screen, cols), 1, 7)
    requires corner == Plain(BandRow(CellHeight(screen.yMax), 6), SeparatorCol(screen, cols), "\U{2518}", CalendarBorder)
    ensures LastCover(line + (joins + [corner]), (row, SeparatorCol(screen, cols))) == Some(Glyph(cfg.separatorIcon[0], Separator, false, false))
  {
    var p := (row, SeparatorCol(screen, cols));
    var views := SeparatorLine(cfg, screen, cols);
    LastCoverSingle(corner, p);
    assert forall j: nat | 1 <= j < 7 :: !Covers(SeparatorJoins(screen, cols)(j)[0], p);
    SinglesNoCover(SeparatorJoins(screen, cols), 1, 7, p);
    LastCoverAppend(joins, [corner], p);
    var k: nat := row;
    assert forall j: nat | k < j < SeparatorHeight(cfg, screen) :: !Covers(views(j)[0], p);
    SinglesLastCover(views, 0, SeparatorHeight(cfg, screen), k, p);
    LastCoverAppend(line, joins + [corner], p);
  }

  // ---------------------------------------------------------------------
  // Borders of the monthly grid

  /** Vertical border `c`, one write per row of the grid's six weeks. */
  function VerticalCells(screen: Screen): nat -> nat -> seq<Draw> {
    (c: nat) => (k: nat) => [VerticalWrite(screen, c, k)]
  }

  /** Row `k` of vertical border `c`, counted from the first week's top row. */
  function VerticalWrite(screen: Screen, c: nat, k: nat): Draw {
    Plain(k + 2, LineCol(CellWidth(screen.xMax), c), "\U{2502}", CalendarBorder)
  }

  /** Horizontal border `r`, one write per column of the pane. */
  function HorizontalCells(screen: Screen): nat -> nat -> seq<Draw> {
    (r: nat) => (col: nat) => [Plain(BandRow(CellHeight(screen.yMax), r), col, "\U{2500}", CalendarBorder)]
  }

  /** The crossings of horizontal border `r` with the vertical ones. */
  function CrossCells(screen: Screen): nat -> nat -> seq<Draw> {
    (r: nat) => (c: nat) => [Plain(BandRow(CellHeight(screen.yMax), r), LineCol(CellWidth(screen.xMax), c), "\U{253C}", CalendarBorder)]
  }

  /** The joins of the vertical borders with the bottom one. */
  function BottomJoins(screen: Screen): nat -> seq<Draw> {
    (c: nat) => [Plain(BandRow(CellHeight(screen.yMax), 6), LineCol(CellWidth(screen.xMax), c), "\U{2534}", CalendarBorder)]
  }

  function Verticals(screen: Screen): seq<Draw> {
    Grid(VerticalCells(screen), 1, 7, 0, 6 * CellHeight(screen.yMax))
  }

  function Horizontals(screen: Screen): seq<Draw> {
    Grid(HorizontalCells(screen), 1, 7, 0, screen.xMax)
  }

  function Crosses(screen: Screen): seq<Draw> {
    Grid(CrossCells(screen), 1, 6, 1, 7)
  }

  function Bottom(screen: Screen): seq<Draw> {
    Concat(BottomJoins(screen), 1, 7)
  }

  /**
    `CalenarBoarderView.render`: six vertical borders between the seven
    columns, six horizontal borders below the six weeks, then the crossings
    and the joins with the bottom border, in that order.
   */
  function CalendarBorderView(screen: Screen): seq<Draw> {
    Verticals(screen) + Horizontals(screen) + Crosses(screen) + Bottom(screen)
  }

  /**
    In a pane narrower than seven columns the cells have no width, so the
    first vertical border sits at column -1; when the bottom border's row is
    on the terminal, its first join is a misplaced write and drawing the
    borders raises.
   */
  lemma {:induction false} ThinGridRaises(screen: Screen, rows: int, cols: int)
    requires 0 <= screen.xMax < 7 && screen.yMax >= 3 && cols > 0
    requires BandRow(CellHeight(screen.yMax), 6) < rows
    ensures Screenshot(rows, cols, CalendarBorderView(screen)).Err?
  {
    var join := Plain(BandRow(CellHeight(screen.yMax), 6), -1, "\U{2534}", CalendarBorder);
    var rest := Concat(BottomJoins(screen), 2, 7);
    assert BottomJoins(screen)(1) == [join];
    assert Bottom(screen) == [join] + rest;
    var a := Verticals(screen) + Horizontals(screen) + Crosses(screen);
    assert CalendarBorderView(screen) == a + [join] + rest;
    MisplacedRaises(rows, cols, a, join, rest);
  }

  /** A grid of at least seven columns and nine rows: every cell has room. */
  predicate Roomy(screen: Screen) {
    screen.xMax >= 7 && screen.yMax >= 9
  }

  /** Row `row` is none of the six horizontal borders. */
  predicate OffBands(screen: Screen, row: int) {
    forall r | 1 <= r <= 6 :: row != BandRow(CellHeight(screen.yMax), r)
  }

  /** Column `col` is none of the six vertical borders. */
  predicate OffLines(screen: Screen, col: int) {
    forall c | 1 <= c <= 6 :: col != LineCol(CellWidth(screen.xMax), c)
  }

  lemma {:induction false} BorderSingles(screen: Screen)
    ensures GridSingles(VerticalCells(screen), 1, 7, 0, 6 * CellHeight(screen.yMax))
    ensures GridSingles(HorizontalCells(screen), 1, 7, 0, screen.xMax)
    ensures GridSingles(CrossCells(screen), 1, 6, 1, 7)
    ensures AllSingles(BottomJoins(screen), 1, 7)
  {
  }

  /** No vertical border write covers a point off their columns or outside the weeks' rows. */
  lemma {:induction false} VerticalCellsMiss(screen: Screen, p: Point)
    requires OffLines(screen, p.1) || p.0 < 2 || p.0 >= 6 * CellHeight(screen.yMax) + 2
    ensures forall a: nat, b: nat | 1 <= a < 7 && 0 <= b < 6 * CellHeight(screen.yMax) :: !Covers(VerticalCells(screen)(a)(b)[0], p)
  {
    forall a: nat, b: nat | 1 <= a < 7 && 0 <= b < 6 * CellHeight(screen.yMax)
      ensures !Covers(VerticalCells(screen)(a)(b)[0], p)
    {
      var d := VerticalCells(screen)(a)(b)[0];
      assert d.row == b + 2 && d.col == LineCol(CellWidth(screen.xMax), a) && |d.text| == 1;
    }
  }

  /** No horizontal border write covers a point off their rows. */
  lemma {:induction false} HorizontalCellsMiss(screen: Screen, p: Point)
    requires OffBands(screen, p.0)
    ensures forall a: nat, b: nat | 1 <= a < 7 && 0 <= b < screen.xMax :: !Covers(HorizontalCells(screen)(a)(b)[0], p)
  {
    forall a: nat, b: nat | 1 <= a < 7 && 0 <= b < screen.xMax
      ensures !Covers(HorizontalCells(screen)(a)(b)[0], p)
    {
      assert HorizontalCells(screen)(a)(b)[0].row == BandRow(CellHeight(screen.yMax), a);
    }
  }

  /** No crossing covers a point off the horizontal or the vertical borders. */
  lemma {:induction false} CrossCellsMiss(screen: Screen, p: Point)
    requires OffBands(screen, p.0) || OffLines(screen, p.1)
    ensures forall a: nat, b: nat | 1 <= a < 6 && 1 <= b < 7 :: !Covers(CrossCells(screen)(a)(b)[0], p)
  {
    forall a: nat, b: nat | 1 <= a < 6 && 1 <= b < 7
      ensures !Covers(CrossCells(screen)(a)(b)[0], p)
    {
      var d := CrossCells(screen)(a)(b)[0];
      assert d.row == BandRow(CellHeight(screen.yMax), a) && d.col == LineCol(CellWidth(screen.xMax), b) && |d.text| == 1;
    }
  }

  /** No bottom join covers a point off the horizontal or the vertical borders. */
  lemma {:induction false} BottomJoinsMiss(screen: Screen, p: Point)
    requires OffBands(screen, p.0) || OffLines(screen, p.1)
    ensures forall c: nat | 1 <= c < 7 :: !Covers(BottomJoins(screen)(c)[0], p)
  {
    forall c: nat | 1 <= c < 7 ensures !Covers(BottomJoins(screen)(c)[0], p) {
      var d := BottomJoins(screen)(c)[0];
      assert d.row == BandRow(CellHeight(screen.yMax), 6) && d.col == LineCol(CellWidth(screen.xMax), c) && |d.text| == 1;
    }
  }

  lemma {:induction false} VerticalsMiss(screen: Screen, p: Point)
    requires OffLines(screen, p.1) || p.0 < 2 || p.0 >= 6 * CellHeight(screen.yMax) + 2
    ensures LastCover(Verticals(screen), p) == None
  {
    BorderSingles(screen);
    VerticalCellsMiss(screen, p);
    GridNoCover(VerticalCells(screen), 1, 7, 0, 6 * CellHeight(screen.yMax), p);
  }

  lemma {:induction false} HorizontalsMiss(screen: Screen, p: Point)
    requires OffBands(screen, p.0)
    ensures LastCover(Horizontals(screen), p) == None
  {
    BorderSingles(screen);
    HorizontalCellsMiss(screen, p);
    GridNoCover(HorizontalCells(screen), 1, 7, 0, screen.xMax, p);
  }

  lemma {:induction false} CrossesMiss(screen: Screen, p: Point)
    requires OffBands(screen, p.0) || OffLines(screen, p.1)
    ensures LastCover(Crosses(screen), p) == None
  {
    BorderSingles(screen);
    CrossCellsMiss(screen, p);
    GridNoCover(CrossCells(screen), 1, 6, 1, 7, p);
  }

  lemma {:induction false} BottomMiss(screen: Screen, p: Point)
    requires OffBands(screen, p.0) || OffLines(screen, p.1)
    ensures LastCover(Bottom(screen), p) == None
  {
    BorderSingles(screen);
    BottomJoinsMiss(screen, p);
    SinglesNoCover(BottomJoins(screen), 1, 7, p);
  }

  /** Border row `r` (below 6) is not the bottom one. */
  lemma {:induction false} InnerBandOffBottom(screen: Screen, r: int, p: Point)
    requires Roomy(screen) && r < 6 && p.0 == BandRow(CellHeight(screen.yMax), r)
    ensures forall c: nat | 1 <= c < 7 :: !Covers(BottomJoins(screen)(c)[0], p)
  {
    CellsNotEmpty(screen.yMax, screen.xMax);
    BandRowsIncrease(CellHeight(screen.yMax), r, 6);
    forall c: nat | 1 <= c < 7 ensures !Covers(BottomJoins(screen)(c)[0], p) {
      assert BottomJoins(screen)(c)[0].row == BandRow(CellHeight(screen.yMax), 6);
    }
  }

  /** The crossings after crossing (`r`, `c`) in loop order lie elsewhere. */
  lemma {:induction false} LaterCrossesMiss(screen: Screen, r: nat, c: nat, p: Point)
    requires Roomy(screen) && p == (BandRow(CellHeight(screen.yMax), r), LineCol(CellWidth(screen.xMax), c))
    ensures forall a: nat, b: nat | r < a < 6 && 1 <= b < 7 :: !Covers(CrossCells(screen)(a)(b)[0], p)
    ensures forall b: nat | c < b < 7 :: !Covers(CrossCells(screen)(r)(b)[0], p)
  {
    CellsNotEmpty(screen.yMax, screen.xMax);
    LaterBandsDiffer(CellHeight(screen.yMax), r);
    LaterLinesDiffer(CellWidth(screen.xMax), c);
    forall a: nat, b: nat | r < a < 6 && 1 <= b < 7 ensures !Covers(CrossCells(screen)(a)(b)[0], p) {
      assert CrossCells(screen)(a)(b)[0].row == BandRow(CellHeight(screen.yMax), a);
    }
    forall b: nat | c < b < 7 ensures !Covers(CrossCells(screen)(r)(b)[0], p) {
      assert CrossCells(screen)(r)(b)[0].col == LineCol(CellWidth(screen.xMax), b);
    }
  }

  /** The joins after join `c` lie elsewhere. */
  lemma {:induction false} LaterBottomJoinsMiss(screen: Screen, c: nat, p: Point)
    requires Roomy(screen) && p == (BandRow(CellHeight(screen.yMax), 6), LineCol(CellWidth(screen.xMax), c))
    ensures forall b: nat | c < b < 7 :: !Covers(BottomJoins(screen)(b)[0], p)
  {
    CellsNotEmpty(screen.yMax, screen.xMax);
    LaterLinesDiffer(CellWidth(screen.xMax), c);
    forall b: nat | c < b < 7 ensures !Covers(BottomJoins(screen)(b)[0], p) {
      assert BottomJoins(screen)(b)[0].col == LineCol(CellWidth(screen.xMax), b);
    }
  }

  /** The horizontal writes after (`r`, `col`) in loop order lie elsewhere. */
  lemma {:induction false} LaterHorizontalsMiss(screen: Screen, r: nat, col: nat, p: Point)
    requires Roomy(screen) && p == (BandRow(CellHeight(screen.yMax), r), col)
    ensures forall a: nat, b: nat | r < a < 7 && 0 <= b < screen.xMax :: !Covers(HorizontalCells(screen)(a)(b)[0], p)
    ensures forall b: nat | col < b < screen.xMax :: !Covers(HorizontalCells(screen)(r)(b)[0], p)
  {
    CellsNotEmpty(screen.yMax, screen.xMax);
    LaterBandsDiffer(CellHeight(screen.yMax), r);
    forall a: nat, b: nat | r < a < 7 && 0 <= b < screen.xMax ensures !Covers(HorizontalCells(screen)(a)(b)[0], p) {
      assert HorizontalCells(screen)(a)(b)[0].row == BandRow(CellHeight(screen.yMax), a);
    }
    forall b: nat | col < b < screen.xMax ensures !Covers(HorizontalCells(screen)(r)(b)[0], p) {
      assert HorizontalCells(screen)(r)(b)[0].col == b;
    }
  }

  /** The vertical writes after (`c`, `k`) in loop order lie elsewhere. */
  lemma {:induction false} LaterVerticalsMiss(screen: Screen, c: nat, k: nat, p: Point)
    requires Roomy(screen) && p == (k + 2, LineCol(CellWidth(screen.xMax), c))
    ensures forall a: nat, b: nat | c < a < 7 && 0 <= b < 6 * CellHeight(screen.yMax) :: !Covers(VerticalCells(screen)(a)(b)[0], p)
    ensures forall b: nat | k < b < 6 * CellHeight(screen.yMax) :: !Covers(VerticalCells(screen)(c)(b)[0], p)
  {
    CellsNotEmpty(screen.yMax, screen.xMax);
    LaterLinesDiffer(CellWidth(screen.xMax), c);
    forall a: nat, b: nat | c < a < 7 && 0 <= b < 6 * CellHeight(screen.yMax) ensures !Covers(VerticalCells(screen)(a)(b)[0], p) {
      assert VerticalCells(screen)(a)(b)[0].col == LineCol(CellWidth(screen.xMax), a);
    }
    forall b: nat | k < b < 6 * CellHeight(screen.yMax) ensures !Covers(VerticalCells(screen)(c)(b)[0], p) {
      assert VerticalCells(screen)(c)(b)[0].row == b + 2;
    }
  }

  /** What the border shows at `p` once the later parts are known to leave it alone. */
  lemma {:induction false} BorderFromBottom(screen: Screen, p: Point)
    requires LastCover(Bottom(screen), p).Some?
    ensures LastCover(CalendarBorderView(screen), p) == LastCover(Bottom(screen), p)
  {
    LastCoverAppend(Verticals(screen) + Horizontals(screen) + Crosses(screen), Bottom(screen), p);
  }

  lemma {:induction false} BorderFromCrosses(screen: Screen, p: Point)
    requires LastCover(Bottom(screen), p) == None
    ensures LastCover(CalendarBorderView(screen), p) == LastCover(Verticals(screen) + Horizontals(screen) + Crosses(screen), p)
    ensures LastCover(Crosses(screen), p).Some? ==> LastCover(CalendarBorderView(screen), p) == LastCover(Crosses(screen), p)
  {
    LastCoverAppend(Verticals(screen) + Horizontals(screen) + Crosses(screen), Bottom(screen), p);
    LastCoverAppend(Verticals(screen) + Horizontals(screen), Crosses(screen), p);
  }

  lemma {:induction false} BorderFromHorizontals(screen: Screen, p: Point)
    requires LastCover(Bottom(screen), p) == None && LastCover(Crosses(screen), p) == None
    ensures LastCover(CalendarBorderView(screen), p) == LastCover(Verticals(screen) + Horizontals(screen), p)
    ensures LastCover(Horizontals(screen), p).Some? ==> LastCover(CalendarBorderView(screen), p) == LastCover(Horizontals(screen), p)
  {
    BorderFromCrosses(screen, p);
    LastCoverAppend(Verticals(screen) + Horizontals(screen), Crosses(screen), p);
    LastCoverAppend(Verticals(screen), Horizontals(screen), p);
  }

  lemma {:induction false} BorderFromVerticals(screen: Screen, p: Point)
    requires LastCover(Bottom(screen), p) == None && LastCover(Crosses(screen), p) == None && LastCover(Horizontals(screen), p) == None
    ensures LastCover(CalendarBorderView(screen), p) == LastCover(Verticals(screen), p)
  {
    BorderFromHorizontals(screen, p);
    LastCoverAppend(Verticals(screen), Horizontals(screen), p);
  }

  /** Crossing (`r`, `c`) is the last crossing write at its point. */
  lemma {:induction false} CrossesAt(screen: Screen, r: nat, c: nat, p: Point)
    requires Roomy(screen) && 1 <= r <= 5 && 1 <= c <= 6
    requires p == (BandRow(CellHeight(screen.yMax), r), LineCol(CellWidth(screen.xMax), c))
    ensures LastCover(Crosses(screen), p) == Some(Glyph('\U{253C}', CalendarBorder, false, false))
  {
    BorderSingles(screen);
    LaterCrossesMiss(screen, r, c, p);
    GridLastCover(CrossCells(screen), 1, 6, 1, 7, r, c, p);
  }

  lemma {:induction false} BottomAt(screen: Screen, c: nat, p: Point)
    requires Roomy(screen) && 1 <= c <= 6
    requires p == (BandRow(CellHeight(screen.yMax), 6), LineCol(CellWidth(screen.xMax), c))
    ensures LastCover(Bottom(screen), p) == Some(Glyph('\U{2534}', CalendarBorder, false, false))
  {
    BorderSingles(screen);
    LaterBottomJoinsMiss(screen, c, p);
    SinglesLastCover(BottomJoins(screen), 1, 7, c, p);
  }

  lemma {:induction false} HorizontalsAt(screen: Screen, r: nat, col: nat, p: Point)
    requires Roomy(screen) && 1 <= r <= 6 && col < screen.xMax
    requires p == (BandRow(CellHeight(screen.yMax), r), col)
    ensures LastCover(Horizontals(screen), p) == Some(Glyph('\U{2500}', CalendarBorder, false, false))
  {
    BorderSingles(screen);
    LaterHorizontalsMiss(screen, r, col, p);
    GridLastCover(HorizontalCells(screen), 1, 7, 0, screen.xMax, r, col, p);
  }

  lemma {:induction false} VerticalsAt(screen: Screen, c: nat, k: nat, p: Point)
    requires Roomy(screen) && 1 <= c <= 6 && k < 6 * CellHeight(screen.yMax)
    requires p == (k + 2, LineCol(CellWidth(screen.xMax), c))
    ensures LastCover(Verticals(screen), p) == Some(Glyph('\U{2502}', CalendarBorder, false, false))
  {
    BorderSingles(screen);
    LaterVerticalsMiss(screen, c, k, p);
    GridLastCover(VerticalCells(screen), 1, 7, 0, 6 * CellHeight(screen.yMax), c, k, p);
  }

  /** Inner crossings show a cross. */
  lemma {:induction false} BorderCross(screen: Screen, r: nat, c: nat)
    requires Roomy(screen) && 1 <= r <= 5 && 1 <= c <= 6
    ensures var p := (BandRow(CellHeight(screen.yMax), r), LineCol(CellWidth(screen.xMax), c));
            LastCover(CalendarBorderView(screen), p) == Some(Glyph('\U{253C}', CalendarBorder, false, false))
  {
    var p := (BandRow(CellHeight(screen.yMax), r), LineCol(CellWidth(screen.xMax), c));
    BorderSingles(screen);
    InnerBandOffBottom(screen, r, p);
    SinglesNoCover(BottomJoins(screen), 1, 7, p);
    CrossesAt(screen, r, c, p);
    BorderFromCrosses(screen, p);
  }

  /** Where the vertical borders meet the bottom one, a join. */
  lemma {:induction false} BorderBottomJoin(screen: Screen, c: nat)
    requires Roomy(screen) && 1 <= c <= 6
    ensures var p := (BandRow(CellHeight(screen.yMax), 6), LineCol(CellWidth(screen.xMax), c));
            LastCover(CalendarBorderView(screen), p) == Some(Glyph('\U{2534}', CalendarBorder, false, false))
  {
    var p := (BandRow(CellHeight(screen.yMax), 6), LineCol(CellWidth(screen.xMax), c));
    BottomAt(screen, c, p);
    BorderFromBottom(screen, p);
  }

  /** A horizontal border away from the vertical ones shows a horizontal line across the whole pane. */
  lemma {:induction false} BorderHorizontal(screen: Screen, r: nat, col: nat)
    requires Roomy(screen) && 1 <= r <= 6 && col < screen.xMax && OffLines(screen, col)
    ensures LastCover(CalendarBorderView(screen), (BandRow(CellHeight(screen.yMax), r), col)) == Some(Glyph('\U{2500}', CalendarBorder, false, false))
  {
    var p := (BandRow(CellHeight(screen.yMax), r), col);
    BottomMiss(screen, p);
    CrossesMiss(screen, p);
    HorizontalsAt(screen, r, col, p);
    BorderFromHorizontals(screen, p);
  }

  /** A vertical border away from the horizontal ones shows a vertical line over the six weeks. */
  lemma {:induction false} BorderVertical(screen: Screen, row: int, c: nat)
    requires Roomy(screen) && 1 <= c <= 6 && 2 <= row < 6 * CellHeight(screen.yMax) + 2 && OffBands(screen, row)
    ensures LastCover(CalendarBorderView(screen), (row, LineCol(CellWidth(screen.xMax), c))) == Some(Glyph('\U{2502}', CalendarBorder, false, false))
  {
    var p := (row, LineCol(CellWidth(screen.xMax), c));
    BottomMiss(screen, p);
    CrossesMiss(screen, p);
    HorizontalsMiss(screen, p);
    VerticalsAt(screen, c, row - 2, p);
    BorderFromVerticals(screen, p);
  }

  /** Off every horizontal border, and off the vertical ones or outside the weeks' rows, nothing is drawn. */
  lemma {:induction false} BorderElsewhere(screen: Screen, p: Point)
    requires OffBands(screen, p.0)
    requires OffLines(screen, p.1) || p.0 < 2 || p.0 >= 6 * CellHeight(screen.yMax) + 2
    ensures LastCover(CalendarBorderView(screen), p) == None
  {
    BottomMiss(screen, p);
    CrossesMiss(screen, p);
    HorizontalsMiss(screen, p);
    VerticalsMiss(screen, p);
    BorderFromVerticals(screen, p);
  }
}
