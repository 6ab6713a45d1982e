/**
  The entities the views read: tasks and events with their status, privacy
  and timer, the read-only configuration and translation tables, and the
  screen object's per-frame state.
 */
module Model {

  /** Status of a task or event. */
  datatype Status = Normal | Done | Important | Unimportant

  /** A task timer as the views see it; `passedTime` is its already formatted elapsed time. */
  datatype Timer = Timer(isStarted: bool, isCounting: bool, passedTime: string)

  datatype Task = Task(name: string, status: Status, privacy: bool, timer: Timer)

  /** A user event, repeated event, holiday or birthday, already filtered to one day. */
  datatype Event = Event(name: string, status: Status, privacy: bool)

  /** Which screen the application shows. */
  datatype AppState = Calendar | Journal | Help | Exit

  /** Which calendar the CALENDAR screen shows. */
  datatype CalState = Monthly | Daily

  datatype Date = Date(year: int, month: int, day: int)

  /** Bold and underline flags configured for one role. */
  datatype Style = Style(bold: bool, underline: bool)

  /** The configuration values the views read. */
  datatype Config = Config(
    displayIcons: bool,
    icons: seq<(string, string)>,    // keyword -> icon, in declaration order
    todoIcon: string, doneIcon: string, importantIcon: string,
    eventIcon: string, privacyIcon: string, birthdayIcon: string,
    holidayIcon: string, hiddenIcon: string, todayIcon: string,
    separatorIcon: string,
    cutTitles: bool, showCalendarBorders: bool,
    displayHolidays: bool, birthdaysFromAbook: bool,
    showNothingPlanned: bool, showWeather: bool,
    showCurrentTime: bool, showKeybindings: bool,
    startWeekDay: int, weekendDays: set<int>,
    usePersianCalendar: bool, journalHeader: string,
    refreshInterval: int,
    today: Style, weekends: Style, days: Style, activePane: Style,
    title: Style, dayNames: Style, weekendNames: Style)

  /** Weekday `d` (0-based, as the name tables count) is configured as a weekend day (1-based). */
  predicate IsWeekend(cfg: Config, d: int) {
    d + 1 in cfg.weekendDays
  }

  /** Translation strings and tables. */
  datatype Texts = Texts(
    days: seq<string>, daysPersian: seq<string>,
    months: seq<string>, monthsPersian: seq<string>,
    nothingPlanned: string,
    calendarHint: string, calendarHintDaily: string, journalHint: string,
    keysGeneral: seq<(string, string)>, keysCalendar: seq<(string, string)>,
    keysTodo: seq<(string, string)>,
    titleKeysGeneral: string, titleKeysCalendar: string, titleKeysJournal: string,
    appName: string, msgVim: string, msgInfo: string, msgSite: string)
  {
    /** Every weekday and month has a name. */
    predicate Complete() {
      |days| == 7 && |daysPersian| == 7 && |months| == 12 && |monthsPersian| == 12
    }
  }

  /**
    The screen object as one view sees it: the pane geometry it reports, the
    mode flags, and the date in focus. `yMax`/`xMax`/`xMin` are the pane's,
    which in split mode differ from the terminal's size.
   */
  datatype Screen = Screen(
    yMax: int, xMax: int, xMin: int, journalPaneWidth: int,
    split: bool, activePane: bool, state: AppState, calState: CalState,
    selectionMode: bool, privacy: bool,
    date: Date, today: Date)
}
