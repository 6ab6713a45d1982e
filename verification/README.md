# calcure layout and frame model

This Dafny project models the drawing core of calcure's terminal user
interface (`calcure/__main__.py`). That core is the views that turn tasks,
events and the screen state into curses writes, and the main loop that
orders those views into frames.

Every view is a pure function. It returns the ordered sequence of
`display_line(row, col, text, role, bold, underline)` calls it makes, as
`Canvas.Draw` records. The primitive `View.display_line` is
`Canvas.DisplayLine`: it drops a write that starts past the terminal's edge
and cuts any other so that it stops before the last column. The writes that
survive land on a character canvas (`Canvas.Screenshot`), where the last
write wins; a write that passes the edge test at a negative row or column
makes curses raise instead. `Canvas.LastCover` is the reference for what a position shows,
so the model can state overwrites: the clock over the weather, the borders
over a cell's last line, the separator's junctions.

The modules follow the file's structure:

- `Text` holds Python's slicing, indexing, `" " * n` and `str(n)`.
- `Geometry` holds the cell sizes and the weekday rotation.
- `Canvas` holds the primitive, the canvas and the loop combinators.
- `Lines` holds the task, timer, journal and event lines and the day number.
- `Cell` holds `DailyView`: the four loops over user events, repeated events, holidays and birthdays, the hidden-events sign and the selection numbers.
- `Chrome` holds the day names, title, header, footer, separator and calendar borders.
- `HelpScreen` holds the help screen and its placement.
- `Screens` holds the daily, monthly and journal screens.
- `Frame` holds the main loop.

The main loop's frame takes its views as a record of render functions
(`Frame.Views`). `Frame.Sound` names what the loop relies on from them. The
program's own views are `Frame.Calcure`, and they meet it
(`Frame.CalcureSound`). `Frame.Shown` then runs the frame's renders through
the terminal, where a refused write raises `curses.error`, and `Frame.Run`
runs shown frames until the exit state.

## Model

| member | source | states |
|---|---|---|
| Canvas.DisplayLine | calcure/__main__.py:75-93 | A write is dropped exactly when its row is at or past the terminal's height or its column at or past its width. Otherwise the same call goes out with its text cut to a prefix of length min(len, width − 1 − column). |
| Canvas.EmitFits | calcure/__main__.py:75-84 | Every write that reaches the terminal lies on a row inside it and ends before the last column. |
| Canvas.PaintAllIsLastCover | calcure/__main__.py:89-93 | Painting the writes character by character leaves at each position the character of the last write covering it: last write wins. |
| Canvas.ScreenshotAt | calcure/__main__.py:75-93 | The terminal raises exactly when some write that passes the edge test has a negative row or column. Otherwise a position with row in 0..rows−1 and column in 0..cols−2 shows what the last request covering it asked for, and any other position shows nothing. |
| Canvas.EmitAppend | calcure/__main__.py:75-84 | Clipping acts on each request on its own, so it splits over concatenation. |
| Text.Take | calcure/__main__.py:84 | Python `s[:n]`: the length is min(n, len) for n ≥ 0 and max(0, len + n) for a negative n. |
| Text.TakeIsPrefix | calcure/__main__.py:84 | What `s[:n]` keeps is a prefix of `s`, whatever the sign of `n`. |
| Text.PyIndex | calcure/__main__.py:565 | Python `s[k]`: it is defined exactly for −len ≤ k < len, and a negative index counts from the end. |
| Text.Spaces | calcure/__main__.py:325 | `" " * n` has length max(0, n): empty for n ≤ 0. |
| Text.NatToStringDigits | calcure/__main__.py:337 | `str(n)` is all decimal digits, and a single digit exactly for n < 10. |
| Geometry.CellHeight | calcure/__main__.py:323 | `(y_max − 3) // 6` is the largest band height whose six weeks fit below the header and names row. |
| Geometry.CellWidth | calcure/__main__.py:324 | `x_max // 7` is the largest column width whose seven days fit the width. |
| Geometry.DayInWeek | calcure/__main__.py:531-533 | The rotation `i + S − 1 − 7·((i + S − 1) > 6)` is `(i + S − 1) mod 7` for columns 0..6 and starts 1..7. |
| Geometry.RotationIsBijection | calcure/__main__.py:531-536 | For every week start 1..7, the rotation maps the seven columns one-to-one onto the seven weekdays, with `ColumnOf` as its inverse. |
| Geometry.ColumnOfDayInWeek | calcure/__main__.py:615 | `ColumnOf` undoes the rotation on each grid column. |
| Geometry.DayInWeekOfColumn | calcure/__main__.py:615 | The rotation undoes `ColumnOf` on each weekday. |
| Geometry.StartsGiveDistinctDays | calcure/__main__.py:531-533 | For a fixed column, the seven week starts put seven different weekdays there. |
| Geometry.CellsNotEmpty | calcure/__main__.py:600-601 | A pane of at least 7 columns and 9 rows has cells of at least one row and one column, and the six weeks and seven days fit. |
| Lines.KeywordIconLastMatch | calcure/__main__.py:118-124 | The icon is the one of the last keyword contained in the lower-cased name. With no match the default stays. |
| Lines.TaskIndentBySlices | calcure/__main__.py:132-138 | The indent is 4 when the name's first four characters are `----`, else 2 when its first two are `--`, else 0. |
| Lines.IndentFromDashes | calcure/__main__.py:132-138 | The same indent read off the number of leading dashes: 4 for four or more, 2 for two or three, 0 otherwise. |
| Lines.TaskIconChoice | calcure/__main__.py:118-130 | Done and important tasks get their status icons, whatever the keywords. Other tasks get the keyword icon when icons are on, else the to-do icon. |
| Lines.TaskInfoShape | calcure/__main__.py:99-148 | A masked task line starts with the to-do icon and a space, has one privacy icon's length per character of the un-indented name, and every later character is the privacy icon's character at that offset, so nothing of the name shows. An unmasked one is icon, space and the un-indented name. |
| Lines.MaskedTasksAlike | calcure/__main__.py:99-148 | Two masked tasks whose names have equal length after the indentation dashes produce the same line. |
| Lines.TimerView | calcure/__main__.py:154-182 | A timer writes one line exactly when it is started, at the given position. The line is in the running colour exactly when it counts, and is icon plus elapsed time, the bare time without icons. |
| Lines.TaskViewShape | calcure/__main__.py:144-151 | A task writes its line at the indented column, then its timer on the same row. From the pane's left edge the timer sits two columns after the line's end. |
| Lines.TaskViewUnnumbered | calcure/__main__.py:144-151 | A task and its timer never use the numbering colour, and stay on their row. |
| Lines.JournalNumbering | calcure/__main__.py:193-202 | The journal's numbering writes are exactly `1..n` on the task rows in selection mode, and none otherwise. A non-empty list stays on rows `y .. y + n − 1`. |
| Lines.RawInfoMasked | calcure/__main__.py:229-231 | A masked event line starts with the event icon and a space, has one privacy icon's length per name character, and every later character is the privacy icon's character at that offset, so nothing of the name shows. |
| Lines.MaskedLinesAlike | calcure/__main__.py:229-231 | Two masked events whose names have equal length produce the same line: masking hides everything but the length. |
| Lines.PrivacyRules | calcure/__main__.py:253-309 | A user event masks on its own privacy flag. A birthday ignores its own flag. A holiday is never masked. |
| Lines.FillKeepsLine | calcure/__main__.py:246-250 | Filling keeps the line and pads it with spaces to the distance from `x` to the pane's right edge. |
| Lines.EventTextShape | calcure/__main__.py:233-275 | Fill, cut, minimize gives the icon alone when cells are under 7 columns wide. Otherwise it gives exactly `x_max − x` characters, or at most a cell width minus one with the monthly cut rule on. Every character is the line's or a space. |
| Lines.EventRole | calcure/__main__.py:220-227 | No event line uses the numbering colour. |
| Lines.DayNumberView | calcure/__main__.py:377-398 | Today is checked before the weekend. The number's colour is today's exactly for the focused date and the weekend's exactly for a weekend that is not today. The text starts with the number, padded to the cell width. |
| Lines.DayNumberPadded | calcure/__main__.py:388-398 | Past the number and today's icon, the day's text is spaces. |
| Cell.HiddenSignShape | calcure/__main__.py:325 | The hidden-events sign is the hidden icon padded with spaces to max(cell width, icon length). |
| Cell.SignRole | calcure/__main__.py:332-371 | The sign is never in the numbering colour. |
| Cell.RenderAt | calcure/__main__.py:332-374 | Each call is written at the cell's x on its slot's row. Only the selection numbers take the numbering colour. |
| Cell.DailyIsFlat | calcure/__main__.py:332-374 | The four loops with their shared `index` are one loop over the reached items: user events, repeated events, holidays when enabled, birthdays when both are enabled. The placeholder follows when it shows. |
| Cell.FourLoopsAreFlat | calcure/__main__.py:332-371 | Running the loops one after another with the index carried over equals one flat loop over all four sources. |
| Cell.FlatRows | calcure/__main__.py:332-371 | The rows a run of items uses are the visible indexes below `y_cell − 1`, plus the sign row `y_cell − 2` exactly when some item overflows. |
| Cell.FlatSignLast | calcure/__main__.py:332-371 | When items overflow, the last call of the loop is the hidden-events sign in the last item's loop colour. |
| Cell.DailyRows | calcure/__main__.py:332-374 | With cells of two rows or more, every row used is in `0 .. y_cell − 2`. With n items reached, the rows used are exactly `0 .. min(n, y_cell − 1) − 1`. With a cell under two rows, the only row used lies above the cell. |
| Cell.CellRows | calcure/__main__.py:332-374 | The same statement in screen rows, about the writes the cell produces. |
| Cell.OverflowShowsSign | calcure/__main__.py:332-371 | When more items reach the loops than `y_cell − 1` rows hold, the cell's last write is the sign, at its x on row `y + y_cell − 2`. |
| Cell.FlatNumbersUser | calcure/__main__.py:332-340 | Visible user events in selection mode get numbers by index, and hidden ones none. |
| Cell.FlatNumbersOthers | calcure/__main__.py:342-371 | Repeated events, holidays and birthdays are never numbered. |
| Cell.CellNumbering | calcure/__main__.py:332-340 | A cell's numbering writes are exactly offset + k + 1 for its visible user events k in selection mode, and none otherwise. |
| Cell.PlaceholderOnlyWhenEmpty | calcure/__main__.py:373-374 | The placeholder shows only when no item reached the loops. A cell that reaches nothing draws the placeholder alone or nothing. |
| Chrome.DaysNameLayout | calcure/__main__.py:525-536 | For week starts 1..7 the names row is seven writes, one per cell column. Column `i` is weekday rotation(i)'s name cut to 2 or 10 characters, in the weekend-names colour exactly when that weekday is a weekend. |
| Chrome.DaysNameEachOnce | calcure/__main__.py:525-536 | Every weekday's name appears, cut, in the column `ColumnOf` gives it, styled by whether that weekday is a weekend. |
| Chrome.NamesInRangeForValidStart | calcure/__main__.py:531-534 | With a week start in 1..7 every rotated index is a valid position in the seven-name table. |
| Chrome.TitleView | calcure/__main__.py:409-414 | The title goes at row 0 and the pane's left edge. It is in the active-pane colour exactly for the active pane of a split screen. |
| Chrome.HeaderParts | calcure/__main__.py:426-445 | The title comes first. The journal in split mode gets the title alone. Otherwise the weather shows exactly when it is enabled and fits, ending just before the last column, and the clock shows exactly when it is enabled and passes its own room test. |
| Chrome.HeaderNotNumbered | calcure/__main__.py:426-445 | No header write is in the numbering colour. |
| Chrome.ClockImpliesWeatherFits | calcure/__main__.py:436-443 | The clock's room test is stricter than the weather's, so the clock never shows where the weather would not fit. |
| Chrome.ClockMayCoverWeather | calcure/__main__.py:436-445 | On a 40-column pane, a 10-character title and a 20-character forecast, the clock is drawn over the forecast. |
| Chrome.FooterCases | calcure/__main__.py:455-465 | With key hints off the footer draws nothing. Otherwise it blanks the pane's last row and then writes the state's hint there. It fails, where Python would find `hint` unbound, exactly for a state other than calendar and journal. |
| Chrome.FooterRow | calcure/__main__.py:455-465 | After a shown footer, its row shows the hint over the hint's columns and blanks over the rest of the cleared width, hiding anything drawn there before. Beyond both, earlier writes still show. |
| Chrome.SeparatorJunctions | calcure/__main__.py:475-486 | With borders on a monthly split screen, the separator column shows `┘` at the bottom band, `┤` at the five inner bands, and the separator icon on every other row down to the bottom band. |
| Chrome.BorderCross | calcure/__main__.py:496-515 | Inner crossings of the border grid show `┼`. |
| Chrome.BorderBottomJoin | calcure/__main__.py:496-515 | The vertical borders meet the bottom band in `┴`. |
| Chrome.ThinGridRaises | calcure/__main__.py:496-515 | In a pane narrower than seven columns the first vertical border falls at column −1, so drawing the borders raises once the bottom band's row is on the terminal. |
| Chrome.BorderHorizontal | calcure/__main__.py:496-515 | Each of the six bands shows `─` across the pane away from the vertical borders. |
| Chrome.BorderVertical | calcure/__main__.py:496-515 | Each vertical border shows `│` over the six weeks' rows away from the bands. |
| Chrome.BorderElsewhere | calcure/__main__.py:496-515 | Off every band, and off the vertical borders or outside the weeks' rows, the border pass draws nothing. |
| HelpScreen.Calibrate | calcure/__main__.py:673-689 | From 102 columns on, the right column is 45 to the right and 2 down, and the block is centred horizontally, vertically too above 20 rows. Narrower, nothing is shifted and the right column stacks below the left. |
| HelpScreen.KeyTableLayout | calcure/__main__.py:705-707 | A key table is its entries in order, entry `k` as `key description` on row `y + k`. |
| HelpScreen.NarrowHelpStacks | calcure/__main__.py:691-728 | On a narrow terminal the help screen writes strictly downwards, no row twice. |
| HelpScreen.WideHelpColumns | calcure/__main__.py:691-728 | On a wide terminal the help screen is the left column then the right one. Each goes downwards. The left column starts its writes in columns `gx .. gx+8` and the right in `gx+45 .. gx+53`, so the two never share a starting column. |
| Screens.DateTitleShape | calcure/__main__.py:563-566 | The daily title starts with the month's name, a space and the day's digits, and ends with a space and today's icon, the icon empty on any other day. |
| Screens.DailyScreenOutcome | calcure/__main__.py:556-576 | The daily screen always leaves the calendar state. It fails exactly when it is large enough and the month has no name. Too small, it draws nothing and sets no delay; otherwise it sets the 255 half-delay. |
| Screens.DailyScreenDraws | calcure/__main__.py:568-576 | A daily screen that draws is the header followed by the day's cell, two rows down, with offset 0. |
| Screens.DailyScreenNumbering | calcure/__main__.py:568-576 | The header is never reduced to the title alone. The numbering writes are exactly the cell's, numbered from 1. |
| Screens.MonthCellsIff | calcure/__main__.py:611-613 | The grid loop visits exactly the non-zero entries of the weeks. |
| Screens.MonthCellsOrdered | calcure/__main__.py:611-613 | The grid loop visits the days row by row, left to right. |
| Screens.GridIsLoop | calcure/__main__.py:610-624 | The grid is the concatenation of each day's writes. Day `k`'s offset is the number of user events on the days before it, hidden ones included. |
| Screens.CellNumberStyle | calcure/__main__.py:614-624 | In a grid cell only today's number and the selection numbers of the day's visible user events take the numbering colour. |
| Screens.CellBand | calcure/__main__.py:616-623 | With cells of at least two rows, a day's number and events stay in its week's band. |
| Screens.DayNumberUnderName | calcure/__main__.py:615-617 | A day's number sits in the column of its weekday's name. It takes the weekend colour exactly when the name does and the day is not today. |
| Screens.AfterGridFocus | calcure/__main__.py:620 | The grid loop moves the focused day to the month's last drawn day and changes nothing else. |
| Screens.MonthlyScreenOutcome | calcure/__main__.py:590-628 | The monthly screen always leaves the calendar state. It fails exactly when it is large enough and a month or weekday name is missing. Too small, it draws nothing; otherwise it sets the 100 half-delay and leaves the focus on the last day drawn. |
| Screens.MonthlyScreenDraws | calcure/__main__.py:603-628 | A monthly screen that draws is the header, the names row, the grid and, with borders on, the border pass, in that order. |
| Screens.ThinMonthlyRaises | calcure/__main__.py:590-628 | A bordered monthly screen six columns wide that draws makes the terminal raise. |
| Screens.BordersHideCellBottom | calcure/__main__.py:611-628 | With borders on, each cell's last line is a band row, and the border pass covers it with `─` away from the vertical borders. |
| Screens.AnyCountingIff | calcure/__main__.py:639-645 | The scan finds a counting timer exactly when some task's timer counts. |
| Screens.RefreshRateRules | calcure/__main__.py:639-645 | A counting timer sets the refresh to the configured interval × 10 with no refresh due. Otherwise the refresh is left alone, never reset to 100. Applying the rule twice changes nothing. |
| Screens.JournalScreenLayout | calcure/__main__.py:647-663 | A journal screen that draws leaves the journal state and uses the refresh rule as its half-delay. It draws the header title, then in split mode the task list at row 2. Its numbering writes are `1..n` in selection mode. |
| Screens.JournalTooSmall | calcure/__main__.py:647-651 | A pane too small for the journal gets nothing, and the refresh state is left as it was. |
| Frame.CalcureSound | calcure/__main__.py:545-663 | The program's views keep the flags the frame reads and leave their own state. The calendar fails only on a missing name, the journal only ever sets the configured interval, and a calendar or journal footer is its blanked row and hint. |
| Frame.HelpFrame | calcure/__main__.py:764-817 | A help frame never fails. It follows the loop's order and draws the help screen alone and inactive. |
| Frame.CalendarFrame | calcure/__main__.py:764-794 | Before curses sees its writes, a calendar frame fails only on a missing name. Otherwise it follows the loop's order: the inactive journal behind when split outside selection mode, then the active calendar, separator and footer. It ends in the calendar state with its flags and the hint in the footer. |
| Frame.JournalFrame | calcure/__main__.py:764-812 | Before curses sees its writes, a journal frame fails only when its background calendar meets a missing name. Otherwise it follows the loop's order, clearing for the background only when a refresh is due. It ends in the journal state. |
| Frame.FrameRefresh | calcure/__main__.py:764-820 | Before curses sees its writes, any frame fails only on a missing name, and either keeps the refresh rate or sets the configured interval. |
| Frame.ShownOutcome | calcure/__main__.py:764-840 | On the terminal a frame fails only on a missing name or with `curses.error`. A frame whose views go through fails exactly when one of its renders holds a write at a negative position, since nothing up to the entry point catches it. A shown frame is the composed one, with the refresh rate kept or set to the configured interval. |
| Frame.ThinMonthlyFrameRaises | calcure/__main__.py:590-628 | A lone bordered monthly calendar on a pane six columns wide passes the too-small test, and its views go through, yet the frame raises `curses.error`, because the borders write at column −1. |
| Frame.ChangeForcesRefresh | calcure/__main__.py:822-828 | After the controller, each changed list is saved, the events first, and a change makes a refresh due. Without one, the controller's flag stands. |
| Frame.ChangeRedrawsBackground | calcure/__main__.py:798-828 | A change on a split journal outside selection mode makes the next frame clear the terminal and redraw the calendar behind before anything else. |
| Frame.RunUntilExit | calcure/__main__.py:764 | The loop draws nothing once in the exit state. A run that stops before its turns run out has reached the exit state. |
| Frame.RunRefreshSticky | calcure/__main__.py:764-828 | A run fails only on a missing name or with `curses.error`, and that error ends it. Over any number of frames the refresh rate ends as it began or at the configured interval. |

## Left out

- Curses itself (`initscr`, colours, `addstr`, `clear`, `fill_background`, `getmaxyx`) is not modelled, except that `addstr` raises at a negative row or column. The terminal size is a parameter, writes are `Draw` records, and clearing and filling are frame steps without content.
- `curses.halfdelay` is modelled only as the delay value a screen returns (`Painted.delay`).
- `clear_line` comes from `calcure/dialogues.py`, which is not part of this model. It is taken to blank its row from column 0, over as many columns as the input `Frame.Env.clearWidth` says.
- The pane geometry of split mode comes from `calcure/screen.py`, which is not part of this model. It is the input `Frame.Env.geometry`.
- `Calendar.monthdayscalendar` and the Persian calendar are not part of this model. A month's weeks are an input, with 0 for an empty slot.
- `filter_events_that_day` and `RepeatedEvents` are not part of this model. Each date's filtered lists are an input (`Cell.DayItems`).
- Key controllers, the importer, loading and saving files, and fetching the weather are not modelled. A controller's effect is a `Frame.Decision` input, and saving is a frame step.
- The clock (`time.localtime`), the formatted timer time and the program version are string parameters.
- `str.lower()` is modelled on ASCII letters only. Display width is sequence length, so multi-codepoint icons count per code point.
- A Python exception is a `Result` error. The writes a view made before raising are not kept, and a run ends at the first error.
- A frame meets curses only once its views have gone through (`Frame.Shown`). When a view raises after an earlier render of the same frame already held a refused write, the model reports the view's error where the program raises `curses.error`. The frame fails either way.
- CalendarFrame: its failure clause covers the views' own errors only. `curses.error` from a refused write is added by `Frame.Shown` (`Frame.ShownOutcome`, `Frame.ThinMonthlyFrameRaises`).
- JournalFrame: its failure clause covers the views' own errors only. A split journal's monthly background on a pane six columns wide raises `curses.error` through `Frame.Shown` (`Frame.ShownOutcome`).
- FrameRefresh: its failure clause covers the views' own errors only. `Frame.ShownOutcome` states the frame's failures on the terminal.
- The loop's final `else: break` is not modelled: the loop condition excludes the exit state and the other three states are handled.
- `Frame.Run` runs over a finite list of turns and also stops when they run out. Whether the user eventually quits is outside the model.
- Selection numbers follow the code: the monthly offset advances by each day's full user-event count, hidden events included (`Screens.GridIsLoop`).
- The "nothing planned" placeholder follows the code's early returns: a cell never shows it while holidays or birthdays are switched off (`Cell.PlaceholderOnlyWhenEmpty`).
- The help screen's text lines are modelled for their rows and columns (`HelpScreen.WideHelpColumns`). No property states their exact row offsets.
