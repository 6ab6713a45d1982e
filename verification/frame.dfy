/**
  The main loop of the program: each frame clears or keeps the terminal,
  renders the background pane, the active pane, the separator and the
  footer in a fixed order, hands over to the screen's key controller, and
  saves changed data. Curses output is an operation log; the controllers
  and loaders, which live outside the rendering code, are inputs.
 */
module Frame {
  import opened Wrappers
  import opened Model
  import opened Canvas
  import opened Geometry
  import opened Cell
  import opened Chrome
  import opened HelpScreen
  import opened Screens

  /** What the screen object reports as the geometry of one pane. */
  datatype Pane = Pane(yMax: int, xMax: int, xMin: int)

  /**
    The fixed surroundings of a run: the configuration and texts, the
    program's version, the terminal's size in `rows` x `cols`, the number of
    columns the footer's `clear_line` blanks, and the pane the screen object
    reports for a state and split flag.
   */
  datatype Env = Env(cfg: Config, texts: Texts, version: string, rows: int, cols: int, clearWidth: int, geometry: (AppState, bool) -> Pane)

  /**
    What one frame draws from: the calendar's weeks of each (year, month),
    the events of each date, the tasks, the weather line and the clock.
   */
  datatype Data = Data(weeks: (int, int) -> seq<seq<int>>, agenda: Date -> DayItems, tasks: seq<Task>, forecast: string, clock: string)

  /** The state carried from frame to frame: the screen object and the journal's refresh state. */
  datatype Session = Session(screen: Screen, refresh: Refresh)

  /** The views a frame renders, and the controller that follows each screen. */
  datatype Part = MonthlyPart | DailyPart | JournalPart | HelpPart | SeparatorPart | FooterPart

  /** One step of the frame as the terminal sees it. */
  datatype Op =
    | ClearScreen
    | FillBackground
    | Render(part: Part, active: bool, draws: seq<Draw>, delay: Option<int>)
    | Control(part: Part)
    | SaveEvents
    | SaveTasks

  /**
    The view objects the loop holds, as their render functions: the
    calendar screen of the screen's mode, the journal screen (which also
    updates the refresh state), the help screen with whether the terminal
    is large enough for it, the separator and the footer.
   */
  datatype Views = Views(
    calendar: Screen -> Result<Painted, string>,
    journal: (Screen, Refresh) -> JournalPainted,
    help: seq<Draw>, helpFits: bool,
    separator: Screen -> seq<Draw>,
    footer: Screen -> Result<seq<Draw>, string>)

  /** The half-delay the help screen sets. */
  const HelpDelay := 255

  /** The screen with the geometry of the pane `state` is drawn in. */
  function Place(env: Env, screen: Screen, state: AppState): (s: Screen)
    ensures s.(yMax := screen.yMax, xMax := screen.xMax, xMin := screen.xMin) == screen
    ensures var p := env.geometry(state, screen.split); s.yMax == p.yMax && s.xMax == p.xMax && s.xMin == p.xMin
  {
    var p := env.geometry(state, screen.split);
    screen.(yMax := p.yMax, xMax := p.xMax, xMin := p.xMin)
  }

  /** The calendar view the screen is on. */
  function CalendarPart(screen: Screen): Part {
    if screen.calState == Monthly then MonthlyPart else DailyPart
  }

  /** The calendar screen of the current mode, in the calendar's pane; the daily view sits at the pane's origin. */
  function CalendarView(env: Env, data: Data, screen: Screen): Result<Painted, string> {
    var s := Place(env, screen, Calendar);
    if screen.calState == Monthly then
      MonthlyScreenView(env.cfg, env.texts, s, data.weeks(s.date.year, s.date.month), data.agenda, data.forecast, data.clock)
    else
      DailyScreenView(env.cfg, env.texts, s, 0, 0, data.forecast, data.clock, data.agenda(s.date))
  }

  /** The journal screen in the journal's pane. */
  function JournalPane(env: Env, data: Data, screen: Screen, r: Refresh): JournalPainted {
    JournalScreenView(env.cfg, env.texts, Place(env, screen, Journal), r, data.tasks, data.forecast, data.clock)
  }

  /** The program's own views over one frame's data; the separator spans the terminal's width. */
  function Calcure(env: Env, data: Data): Views {
    Views(
      s => CalendarView(env, data, s),
      (s, r) => JournalPane(env, data, s, r),
      HelpScreenView(env.cfg, env.texts, env.version, env.rows, env.cols), env.cols >= 6 && env.rows >= 3,
      s => SeparatorView(env.cfg, s, env.cols),
      s => FooterView(env.cfg, env.texts, s, env.clearWidth))
  }

  /** The render of a painted view, flagged with the pane activity the view saw. */
  function Drawn(part: Part, screen: Screen, p: Painted): Op {
    Render(part, screen.activePane, p.draws, p.delay)
  }

  /** `stdscr.clear()` and `fill_background()` when `b` holds, nothing otherwise. */
  function Wipe(b: bool): seq<Op> {
    if b then [ClearScreen, FillBackground] else []
  }

  /** The help screen clears and fills the terminal itself whenever it is large enough to draw. */
  function HelpOps(v: Views, screen: Screen): seq<Op> {
    Wipe(v.helpFits) + [Render(HelpPart, screen.activePane, v.help, if v.helpFits then Some(HelpDelay) else None)]
  }

  /** The end of a calendar or journal frame: the separator in split mode, then the footer. */
  function Closing(v: Views, s: Screen): Result<seq<Op>, string> {
    match v.footer(s)
    case Err(e) => Err(e)
    case Ok(f) =>
      Ok((if s.split then [Render(SeparatorPart, s.activePane, v.separator(s), None)] else [])
         + [Render(FooterPart, s.activePane, f, None)])
  }

  /** What a frame leaves: its operations and the session the controller receives. */
  datatype FrameOut = FrameOut(ops: seq<Op>, session: Session)

  /** The active calendar pane after `ops`, then the closing and the calendar's controller. */
  function CalendarFront(v: Views, ops: seq<Op>, s: Screen, r: Refresh): Result<FrameOut, string> {
    var a := s.(activePane := true);
    match v.calendar(a)
    case Err(e) => Err(e)
    case Ok(p) =>
      match Closing(v, p.screen)
      case Err(e) => Err(e)
      case Ok(c) => Ok(FrameOut(ops + [Drawn(CalendarPart(a), a, p)] + c + [Control(CalendarPart(a))], Session(p.screen, r)))
  }

  /** The active journal pane after `ops`, then the closing and the journal's controller. */
  function JournalFront(v: Views, ops: seq<Op>, s: Screen, r: Refresh): Result<FrameOut, string> {
    var a := s.(activePane := true);
    var jp := v.journal(a, r);
    match Closing(v, jp.painted.screen)
    case Err(e) => Err(e)
    case Ok(c) => Ok(FrameOut(ops + [Drawn(JournalPart, a, jp.painted)] + c + [Control(JournalPart)], Session(jp.painted.screen, jp.refresh)))
  }

  /**
    One pass of the main loop up to its controller. Without split the
    terminal is cleared first; with split and outside selection mode the
    other pane is drawn inactive before the active one (the journal frame
    clears for it only when a refresh is due). The loop's condition keeps
    the exit state out.
   */
  function Frame(v: Views, ses: Session): Result<FrameOut, string>
    requires ses.screen.state != Exit
  {
    var s := ses.screen.(activePane := false);
    var pre := Wipe(!s.split);
    match s.state
    case Help => Ok(FrameOut(pre + HelpOps(v, s) + [Control(HelpPart)], Session(s, ses.refresh)))
    case Calendar =>
      if s.split && !s.selectionMode then
        var jp := v.journal(s, ses.refresh);
        CalendarFront(v, pre + Wipe(true) + [Drawn(JournalPart, s, jp.painted)], jp.painted.screen, jp.refresh)
      else
        CalendarFront(v, pre, s, ses.refresh)
    case Journal =>
      if s.split && !s.selectionMode then
        match v.calendar(s)
        case Err(e) => Err(e)
        case Ok(p) => JournalFront(v, pre + Wipe(ses.refresh.now) + [Drawn(CalendarPart(s), s, p)], p.screen, ses.refresh)
      else
        JournalFront(v, pre, s, ses.refresh)
  }

  // ---------------------------------------------------------------------
  // The order of a frame

  /** An operation with its drawing left out. */
  datatype Mark = Cleared | Filled | Drew(part: Part, active: bool) | Controlled(part: Part) | SavedEvents | SavedTasks

  function MarkOf(op: Op): Mark {
    match op
    case ClearScreen => Cleared
    case FillBackground => Filled
    case Render(part, active, _, _) => Drew(part, active)
    case Control(part) => Controlled(part)
    case SaveEvents => SavedEvents
    case SaveTasks => SavedTasks
  }

  /** The operations with their drawings left out. */
  function Outline(ops: seq<Op>): (r: seq<Mark>)
    ensures |r| == |ops|
  {
    if |ops| == 0 then [] else [MarkOf(ops[0])] + Outline(ops[1..])
  }

  lemma {:induction false} OutlineAppend(a: seq<Op>, b: seq<Op>)
    ensures Outline(a + b) == Outline(a) + Outline(b)
    decreases |a|
  {
    if |a| == 0 {
      assert a + b == b;
    } else {
      assert (a + b)[1..] == a[1..] + b;
      OutlineAppend(a[1..], b);
    }
  }

  lemma {:induction false} OutlineSingle(op: Op)
    ensures Outline([op]) == [MarkOf(op)]
  {
    assert [op][1..] == [];
  }

  /**
    The frame order of the main loop, read off the loop table by table:
    for a calendar or journal screen, a cleared terminal without split;
    with split outside selection mode, the other pane inactive (cleared
    first on the calendar, or on the journal when a refresh is due); the
    active pane; the separator with split; the footer; the screen's
    controller. The help screen draws alone, clearing the terminal itself
    when `helpFits`, the terminal being large enough for it.
   */
  function ExpectedOutline(screen: Screen, refreshNow: bool, helpFits: bool): seq<Mark> {
    var pre := if screen.split then [] else [Cleared, Filled];
    if screen.state == Help then
      pre + (if helpFits then [Cleared, Filled] else []) + [Drew(HelpPart, false), Controlled(HelpPart)]
    else
      var front := if screen.state == Journal then JournalPart else CalendarPart(screen);
      var back := if screen.state == Journal then CalendarPart(screen) else JournalPart;
      pre
      + (if screen.split && !screen.selectionMode then
           (if screen.state == Calendar || refreshNow then [Cleared, Filled] else []) + [Drew(back, false)]
         else [])
      + [Drew(front, true)]
      + (if screen.split then [Drew(SeparatorPart, true)] else [])
      + [Drew(FooterPart, true), Controlled(front)]
  }

  // ---------------------------------------------------------------------
  // What the loop relies on from its views

  /** What every screen view keeps of the screen it is given: the flags the frame reads. */
  predicate Keeps(before: Screen, after: Screen) {
    after.split == before.split && after.activePane == before.activePane
    && after.calState == before.calState && after.selectionMode == before.selectionMode
  }

  /** The errors a calendar view raises: a month or weekday without a name. */
  predicate NameError(e: string) {
    e == "IndexError: month name" || e == "IndexError: day name"
  }

  /** The footer of a calendar or journal screen: its last row blanked, then the screen's hint on it. */
  function HintLine(cfg: Config, texts: Texts, width: int, s: Screen): seq<Draw> {
    if cfg.showKeybindings then [ClearLine(s.yMax - 1, width), Plain(s.yMax - 1, 0, HintFor(texts, s.state, s.calState), Hints)] else []
  }

  /**
    What the loop relies on: each screen view keeps the frame's flags and
    leaves its own state, the calendar fails only on a missing name, the
    journal only ever sets the refresh rate to the configured interval, and
    the footer of a calendar or journal screen is that screen's hint.
   */
  ghost predicate Sound(cfg: Config, texts: Texts, width: int, v: Views) {
    && (forall s: Screen :: v.calendar(s).Ok? ==> Keeps(s, v.calendar(s).value.screen) && v.calendar(s).value.screen.state == Calendar)
    && (forall s: Screen :: v.calendar(s).Err? ==> NameError(v.calendar(s).error))
    && (forall s: Screen, r: Refresh ::
          && Keeps(s, v.journal(s, r).painted.screen) && v.journal(s, r).painted.screen.state == Journal
          && (v.journal(s, r).refresh == r || v.journal(s, r).refresh == Refresh(cfg.refreshInterval * 10, false)))
    && (forall s: Screen :: s.state == Calendar || s.state == Journal ==> v.footer(s) == Ok(HintLine(cfg, texts, width, s)))
  }

  /** The calendar views keep the frame's flags and leave the calendar state; they fail only on a missing name. */
  lemma {:induction false} CalendarViewKeeps(env: Env, data: Data, screen: Screen)
    ensures var r := CalendarView(env, data, screen);
            && (r.Ok? ==> Keeps(screen, r.value.screen) && r.value.screen.state == Calendar)
            && (r.Err? ==> NameError(r.error))
  {
    var s := Place(env, screen, Calendar);
    if screen.calState == Monthly {
      MonthlyScreenOutcome(env.cfg, env.texts, s, data.weeks(s.date.year, s.date.month), data.agenda, data.forecast, data.clock);
    } else {
      DailyScreenOutcome(env.cfg, env.texts, s, 0, 0, data.forecast, data.clock, data.agenda(s.date));
    }
  }

  /** The journal view keeps the frame's flags, leaves the journal state, and only ever sets the refresh rate to the configured interval. */
  lemma {:induction false} JournalPaneKeeps(env: Env, data: Data, screen: Screen, r: Refresh)
    ensures var jp := JournalPane(env, data, screen, r);
            && Keeps(screen, jp.painted.screen) && jp.painted.screen.state == Journal
            && (jp.refresh == r || jp.refresh == Refresh(env.cfg.refreshInterval * 10, false))
  {
    var s := Place(env, screen, Journal);
    if TooSmall(s) {
      JournalTooSmall(env.cfg, env.texts, s, r, data.tasks, data.forecast, data.clock);
    } else {
      JournalScreenLayout(env.cfg, env.texts, s, r, data.tasks, data.forecast, data.clock);
      RefreshRateRules(env.cfg, data.tasks, r);
    }
  }

  /** The footer of a calendar or journal screen shows that screen's hint and never fails. */
  lemma {:induction false} FooterHint(cfg: Config, texts: Texts, width: int, s: Screen)
    requires s.state == Calendar || s.state == Journal
    ensures FooterView(cfg, texts, s, width) == Ok(HintLine(cfg, texts, width, s))
  {
    FooterCases(cfg, texts, s, width);
  }

  /** The program's own views give the loop what it relies on. */
  lemma {:induction false} CalcureSound(env: Env, data: Data)
    ensures Sound(env.cfg, env.texts, env.clearWidth, Calcure(env, data))
  {
    var v := Calcure(env, data);
    forall s: Screen ensures v.calendar(s).Ok? ==> Keeps(s, v.calendar(s).value.screen) && v.calendar(s).value.screen.state == Calendar {
      CalendarViewKeeps(env, data, s);
    }
    forall s: Screen ensures v.calendar(s).Err? ==> NameError(v.calendar(s).error) {
      CalendarViewKeeps(env, data, s);
    }
    forall s: Screen, r: Refresh
      ensures && Keeps(s, v.journal(s, r).painted.screen) && v.journal(s, r).painted.screen.state == Journal
              && (v.journal(s, r).refresh == r || v.journal(s, r).refresh == Refresh(env.cfg.refreshInterval * 10, false))
    {
      JournalPaneKeeps(env, data, s, r);
    }
    forall s: Screen | s.state == Calendar || s.state == Journal ensures v.footer(s) == Ok(HintLine(env.cfg, env.texts, env.clearWidth, s)) {
      FooterHint(env.cfg, env.texts, env.clearWidth, s);
    }
  }

  // ---------------------------------------------------------------------
  // The shape of a frame

  /** The footer of a frame: the render just before the controller. */
  function FooterOf(ops: seq<Op>): seq<Draw>
    requires |ops| >= 2
  {
    match ops[|ops| - 2]
    case Render(_, _, d, _) => d
    case _ => []
  }

  lemma {:induction false} WipeOutline(b: bool)
    ensures Outline(Wipe(b)) == if b then [Cleared, Filled] else []
  {
    if b {
      assert Wipe(b)[1..] == [FillBackground];
      OutlineSingle(FillBackground);
    }
  }

  /** The closing of a calendar or journal screen never fails: the separator in split mode, then the footer with that screen's hint. */
  lemma {:induction false} ClosingShape(cfg: Config, texts: Texts, width: int, v: Views, s: Screen)
    requires Sound(cfg, texts, width, v)
    requires s.state == Calendar || s.state == Journal
    ensures var c := Closing(v, s);
            && c.Ok?
            && Outline(c.value) == (if s.split then [Drew(SeparatorPart, s.activePane)] else []) + [Drew(FooterPart, s.activePane)]
            && c.value[|c.value| - 1] == Render(FooterPart, s.activePane, HintLine(cfg, texts, width, s), None)
  {
    var f := HintLine(cfg, texts, width, s);
    assert v.footer(s) == Ok(f);
    var sep: seq<Op> := if s.split then [Render(SeparatorPart, s.activePane, v.separator(s), None)] else [];
    OutlineAppend(sep, [Render(FooterPart, s.activePane, f, None)]);
    OutlineSingle(Render(FooterPart, s.activePane, f, None));
    if s.split {
      OutlineSingle(sep[0]);
    }
  }

  /** The operations of a front pane: what came before, the pane, the closing and the controller. */
  lemma {:induction false} FrontOutline(ops: seq<Op>, pane: Op, c: seq<Op>, control: Op)
    requires |c| >= 1
    ensures var all := ops + [pane] + c + [control];
            && Outline(all) == Outline(ops) + [MarkOf(pane)] + Outline(c) + [MarkOf(control)]
            && |all| >= 2 && all[|all| - 2] == c[|c| - 1]
  {
    OutlineAppend(ops, [pane]);
    OutlineSingle(pane);
    OutlineAppend(ops + [pane], c);
    OutlineAppend(ops + [pane] + c, [control]);
    OutlineSingle(control);
  }

  /**
    The active calendar pane fails only when its view does, on a missing
    name; otherwise it follows `ops` with the active view, the separator in
    split mode, the footer with the calendar's hint and the calendar's
    controller, and leaves the calendar state.
   */
  lemma {:induction false} CalendarFrontShape(cfg: Config, texts: Texts, width: int, v: Views, ops: seq<Op>, s: Screen, r: Refresh)
    requires Sound(cfg, texts, width, v)
    ensures var out := CalendarFront(v, ops, s, r);
            && (out.Ok? <==> v.calendar(s.(activePane := true)).Ok?)
            && (out.Err? ==> NameError(out.error))
            && (out.Ok? ==>
                  && Outline(out.value.ops) == Outline(ops) + [Drew(CalendarPart(s), true)] + (if s.split then [Drew(SeparatorPart, true)] else []) + [Drew(FooterPart, true), Controlled(CalendarPart(s))]
                  && out.value.session.screen.state == Calendar
                  && Keeps(s.(activePane := true), out.value.session.screen)
                  && out.value.session.refresh == r
                  && FooterOf(out.value.ops) == HintLine(cfg, texts, width, out.value.session.screen))
  {
    var a := s.(activePane := true);
    var vc := v.calendar(a);
    if vc.Ok? {
      var p := vc.value;
      assert Keeps(a, p.screen) && p.screen.state == Calendar;
      ClosingShape(cfg, texts, width, v, p.screen);
      var c := Closing(v, p.screen).value;
      FrontOutline(ops, Drawn(CalendarPart(a), a, p), c, Control(CalendarPart(a)));
    } else {
      assert NameError(vc.error);
    }
  }

  /**
    The active journal pane never fails: it follows `ops` with the journal,
    the separator in split mode, the footer with the journal's hint and the
    journal's controller, and leaves the journal state with the refresh
    state the journal computed.
   */
  lemma {:induction false} JournalFrontShape(cfg: Config, texts: Texts, width: int, v: Views, ops: seq<Op>, s: Screen, r: Refresh)
    requires Sound(cfg, texts, width, v)
    ensures var out := JournalFront(v, ops, s, r);
            && out.Ok?
            && Outline(out.value.ops) == Outline(ops) + [Drew(JournalPart, true)] + (if s.split then [Drew(SeparatorPart, true)] else []) + [Drew(FooterPart, true), Controlled(JournalPart)]
            && out.value.session.screen.state == Journal
            && Keeps(s.(activePane := true), out.value.session.screen)
            && (out.value.session.refresh == r || out.value.session.refresh == Refresh(cfg.refreshInterval * 10, false))
            && FooterOf(out.value.ops) == HintLine(cfg, texts, width, out.value.session.screen)
  {
    var a := s.(activePane := true);
    var jp := v.journal(a, r);
    assert Keeps(a, jp.painted.screen) && jp.painted.screen.state == Journal;
    ClosingShape(cfg, texts, width, v, jp.painted.screen);
    var c := Closing(v, jp.painted.screen).value;
    FrontOutline(ops, Drawn(JournalPart, a, jp.painted), c, Control(JournalPart));
  }

  /** The background of a split frame: the wipe, then the other pane, inactive. */
  lemma {:induction false} BackOutline(pre: seq<Op>, wipe: bool, back: Op)
    ensures Outline(pre + Wipe(wipe) + [back]) == Outline(pre) + (if wipe then [Cleared, Filled] else []) + [MarkOf(back)]
  {
    OutlineAppend(pre, Wipe(wipe));
    OutlineAppend(pre + Wipe(wipe), [back]);
    OutlineSingle(back);
    WipeOutline(wipe);
  }

  /** A help frame never fails; it draws the help screen alone, inactive, and changes nothing but the pane flag. */
  lemma {:induction false} HelpFrame(v: Views, ses: Session)
    requires ses.screen.state == Help
    ensures var out := Frame(v, ses);
            && out.Ok?
            && Outline(out.value.ops) == ExpectedOutline(ses.screen, ses.refresh.now, v.helpFits)
            && out.value.session == Session(ses.screen.(activePane := false), ses.refresh)
  {
    var s := ses.screen.(activePane := false);
    var pre, help := Wipe(!s.split), HelpOps(v, s);
    var draw := help[|help| - 1];
    assert help == Wipe(v.helpFits) + [draw];
    assert pre + help == pre + Wipe(v.helpFits) + [draw];
    assert Frame(v, ses) == Ok(FrameOut(pre + help + [Control(HelpPart)], Session(s, ses.refresh)));
    BackOutline(pre, v.helpFits, draw);
    OutlineAppend(pre + help, [Control(HelpPart)]);
    OutlineSingle(Control(HelpPart));
    WipeOutline(!s.split);
    assert MarkOf(draw) == Drew(HelpPart, false);
    assert Outline(pre + help + [Control(HelpPart)])
        == Outline(pre) + (if v.helpFits then [Cleared, Filled] else []) + [Drew(HelpPart, false)] + [Controlled(HelpPart)];
  }

  /** The loop's order for a calendar screen, piece by piece. */
  lemma {:induction false} CalendarExpected(screen: Screen, now: bool, fits: bool)
    requires screen.state == Calendar
    ensures ExpectedOutline(screen, now, fits)
         == (if screen.split then [] else [Cleared, Filled])
            + (if screen.split && !screen.selectionMode then [Cleared, Filled] + [Drew(JournalPart, false)] else [])
            + [Drew(CalendarPart(screen), true)] + (if screen.split then [Drew(SeparatorPart, true)] else []) + [Drew(FooterPart, true), Controlled(CalendarPart(screen))]
  {
  }

  /**
    A calendar or journal frame that went through: its operations follow
    the loop's order, it ends in the state it began in with the flags it
    began with and that state's hint in the footer, and the refresh rate
    is the one it had or the configured interval.
   */
  predicate Completed(cfg: Config, texts: Texts, width: int, v: Views, ses: Session, out: FrameOut) {
    && Outline(out.ops) == ExpectedOutline(ses.screen, ses.refresh.now, v.helpFits)
    && out.session.screen.state == ses.screen.state
    && Keeps(ses.screen.(activePane := true), out.session.screen)
    && |out.ops| >= 2 && FooterOf(out.ops) == HintLine(cfg, texts, width, out.session.screen)
    && (out.session.refresh == ses.refresh || out.session.refresh == Refresh(cfg.refreshInterval * 10, false))
  }

  /** A split calendar frame outside selection mode draws the journal behind, which never fails. */
  lemma {:induction false} CalendarBehind(cfg: Config, texts: Texts, width: int, v: Views, ses: Session)
    requires Sound(cfg, texts, width, v)
    requires ses.screen.state == Calendar && ses.screen.split && !ses.screen.selectionMode
    ensures var out := Frame(v, ses);
            && (out.Err? ==> NameError(out.error))
            && (out.Ok? ==> Completed(cfg, texts, width, v, ses, out.value))
  {
    var s := ses.screen.(activePane := false);
    var pre := Wipe(!s.split);
    WipeOutline(!s.split);
    CalendarExpected(ses.screen, ses.refresh.now, v.helpFits);
    var jp := v.journal(s, ses.refresh);
    var back := Drawn(JournalPart, s, jp.painted);
    var ops := pre + Wipe(true) + [back];
    assert Frame(v, ses) == CalendarFront(v, ops, jp.painted.screen, jp.refresh);
    assert Keeps(s, jp.painted.screen);
    BackOutline(pre, true, back);
    CalendarFrontShape(cfg, texts, width, v, ops, jp.painted.screen, jp.refresh);
    assert CalendarPart(jp.painted.screen) == CalendarPart(s) && jp.painted.screen.split == s.split;
    assert Outline(ops) == Outline(pre) + ([Cleared, Filled] + [Drew(JournalPart, false)]);
  }

  /** A calendar frame fails only on a missing name, and otherwise completes. */
  lemma {:induction false} CalendarFrame(cfg: Config, texts: Texts, width: int, v: Views, ses: Session)
    requires Sound(cfg, texts, width, v)
    requires ses.screen.state == Calendar
    ensures var out := Frame(v, ses);
            && (out.Err? ==> NameError(out.error))
            && (out.Ok? ==> Completed(cfg, texts, width, v, ses, out.value))
  {
    var s := ses.screen.(activePane := false);
    if s.split && !s.selectionMode {
      CalendarBehind(cfg, texts, width, v, ses);
    } else {
      var pre := Wipe(!s.split);
      WipeOutline(!s.split);
      CalendarExpected(ses.screen, ses.refresh.now, v.helpFits);
      assert Frame(v, ses) == CalendarFront(v, pre, s, ses.refresh);
      CalendarFrontShape(cfg, texts, width, v, pre, s, ses.refresh);
    }
  }

  /** The loop's order for a journal screen, piece by piece. */
  lemma {:induction false} JournalExpected(screen: Screen, now: bool, fits: bool)
    requires screen.state == Journal
    ensures ExpectedOutline(screen, now, fits)
         == (if screen.split then [] else [Cleared, Filled])
            + (if screen.split && !screen.selectionMode then (if now then [Cleared, Filled] else []) + [Drew(CalendarPart(screen), false)] else [])
            + [Drew(JournalPart, true)] + (if screen.split then [Drew(SeparatorPart, true)] else []) + [Drew(FooterPart, true), Controlled(JournalPart)]
  {
  }

  /** A split journal frame outside selection mode draws the calendar behind; it fails only when that calendar does. */
  lemma {:induction false} JournalBehind(cfg: Config, texts: Texts, width: int, v: Views, ses: Session)
    requires Sound(cfg, texts, width, v)
    requires ses.screen.state == Journal && ses.screen.split && !ses.screen.selectionMode
    ensures var out := Frame(v, ses);
            && (out.Err? ==> NameError(out.error))
            && (out.Ok? ==> Completed(cfg, texts, width, v, ses, out.value))
  {
    var s := ses.screen.(activePane := false);
    var pre := Wipe(!s.split);
    var vc := v.calendar(s);
    if vc.Ok? {
      WipeOutline(!s.split);
      JournalExpected(ses.screen, ses.refresh.now, v.helpFits);
      var p := vc.value;
      var back := Drawn(CalendarPart(s), s, p);
      var ops := pre + Wipe(ses.refresh.now) + [back];
      assert Frame(v, ses) == JournalFront(v, ops, p.screen, ses.refresh);
      assert Keeps(s, p.screen);
      BackOutline(pre, ses.refresh.now, back);
      JournalFrontShape(cfg, texts, width, v, ops, p.screen, ses.refresh);
      assert p.screen.split == s.split;
      assert Outline(ops) == Outline(pre) + ((if ses.refresh.now then [Cleared, Filled] else []) + [Drew(CalendarPart(s), false)]);
    } else {
      assert NameError(vc.error);
    }
  }

  /**
    A journal frame fails only when its background calendar meets a missing
    name, and otherwise completes; the background is cleared for only when
    a refresh is due.
   */
  lemma {:induction false} JournalFrame(cfg: Config, texts: Texts, width: int, v: Views, ses: Session)
    requires Sound(cfg, texts, width, v)
    requires ses.screen.state == Journal
    ensures var out := Frame(v, ses);
            && (out.Err? ==> ses.screen.split && !ses.screen.selectionMode && NameError(out.error))
            && (out.Ok? ==> Completed(cfg, texts, width, v, ses, out.value))
  {
    var s := ses.screen.(activePane := false);
    if s.split && !s.selectionMode {
      JournalBehind(cfg, texts, width, v, ses);
    } else {
      var pre := Wipe(!s.split);
      WipeOutline(!s.split);
      JournalExpected(ses.screen, ses.refresh.now, v.helpFits);
      assert Frame(v, ses) == JournalFront(v, pre, s, ses.refresh);
      JournalFrontShape(cfg, texts, width, v, pre, s, ses.refresh);
    }
  }

  /** Any frame fails only on a missing name, and keeps the refresh rate or sets the configured interval. */
  lemma {:induction false} FrameRefresh(cfg: Config, texts: Texts, width: int, v: Views, ses: Session)
    requires Sound(cfg, texts, width, v)
    requires ses.screen.state != Exit
    ensures var out := Frame(v, ses);
            && (out.Err? ==> NameError(out.error))
            && (out.Ok? ==> out.value.session.refresh.time == ses.refresh.time || out.value.session.refresh.time == cfg.refreshInterval * 10)
  {
    match ses.screen.state
    case Help => HelpFrame(v, ses);
    case Calendar => CalendarFrame(cfg, texts, width, v, ses);
    case Journal => JournalFrame(cfg, texts, width, v, ses);
  }

  // ---------------------------------------------------------------------
  // The frame on the terminal

  /** A render curses refuses: one of its writes lands at a negative row or column. */
  predicate Refused(rows: int, cols: int, op: Op) {
    op.Render? && Screenshot(rows, cols, op.draws).Err?
  }

  /**
    The frame as the terminal runs it: a render curses refuses raises
    `curses.error`, which nothing in the loop catches.
   */
  function Shown(rows: int, cols: int, v: Views, ses: Session): Result<FrameOut, string>
    requires ses.screen.state != Exit
  {
    match Frame(v, ses)
    case Err(e) => Err(e)
    case Ok(out) =>
      if exists i | 0 <= i < |out.ops| :: Refused(rows, cols, out.ops[i]) then Err("curses.error")
      else Ok(out)
  }

  /** The errors that end a frame: a missing name, or a write curses refuses. */
  predicate FrameError(e: string) {
    NameError(e) || e == "curses.error"
  }

  /**
    On the terminal a frame fails only on a missing name or a refused
    write; a frame whose views go through fails exactly when one of its
    renders holds a write at a negative position; and a frame that is shown
    is the frame the views composed, every render of it on the terminal,
    with the refresh rate kept or set to the configured interval.
   */
  lemma {:induction false} ShownOutcome(cfg: Config, texts: Texts, width: int, rows: int, cols: int, v: Views, ses: Session)
    requires Sound(cfg, texts, width, v)
    requires ses.screen.state != Exit
    ensures var out, f := Shown(rows, cols, v, ses), Frame(v, ses);
            && (out.Err? ==> FrameError(out.error))
            && (f.Ok? ==> (out.Ok? <==> forall op | op in f.value.ops && op.Render? :: Screenshot(rows, cols, op.draws).Ok?))
            && (out.Ok? ==> f.Ok? && out.value == f.value)
            && (out.Ok? ==> out.value.session.refresh.time == ses.refresh.time || out.value.session.refresh.time == cfg.refreshInterval * 10)
  {
    FrameRefresh(cfg, texts, width, v, ses);
    var f := Frame(v, ses);
    if f.Ok? {
      var ops := f.value.ops;
      if exists i | 0 <= i < |ops| :: Refused(rows, cols, ops[i]) {
        var i :| 0 <= i < |ops| && Refused(rows, cols, ops[i]);
        assert ops[i] in ops;
      } else {
        forall op | op in ops && op.Render?
          ensures Screenshot(rows, cols, op.draws).Ok?
        {
          var i :| 0 <= i < |ops| && ops[i] == op;
          assert !Refused(rows, cols, ops[i]);
        }
      }
    }
  }

  /**
    A monthly calendar alone on a bordered pane six columns wide, which
    passes the too-small test, raises on the terminal even when its views
    go through: its cells have no width, so the borders write at column -1.
   */
  lemma {:induction false} ThinMonthlyFrameRaises(env: Env, data: Data, ses: Session)
    requires ses.screen.state == Calendar && ses.screen.calState == Monthly && !ses.screen.split
    requires env.cfg.showCalendarBorders && env.cols > 0
    requires var p := env.geometry(Calendar, false); p.xMax == 6 && 3 <= p.yMax <= env.rows
    requires Frame(Calcure(env, data), ses).Ok?
    ensures Shown(env.rows, env.cols, Calcure(env, data), ses) == Err("curses.error")
  {
    var v := Calcure(env, data);
    var a := ses.screen.(activePane := true);
    var c := Place(env, a, Calendar);
    var weeks := data.weeks(c.date.year, c.date.month);
    AloneCalendarRender(v, ses);
    assert v.calendar(a) == MonthlyScreenView(env.cfg, env.texts, c, weeks, data.agenda, data.forecast, data.clock);
    ThinMonthlyRaises(env.cfg, env.texts, c, weeks, data.agenda, data.forecast, data.clock, env.rows, env.cols);
    ShownRefused(env.rows, env.cols, v, ses, 2);
  }

  /** A calendar frame without split renders the active calendar third, after the wipe. */
  lemma {:induction false} AloneCalendarRender(v: Views, ses: Session)
    requires ses.screen.state == Calendar && !ses.screen.split
    requires Frame(v, ses).Ok?
    ensures var a, ops := ses.screen.(activePane := true), Frame(v, ses).value.ops;
            && v.calendar(a).Ok? && |ops| > 2 && ops[2] == Drawn(CalendarPart(a), a, v.calendar(a).value)
  {
    var s := ses.screen.(activePane := false);
    assert s.(activePane := true) == ses.screen.(activePane := true);
    assert Frame(v, ses) == CalendarFront(v, Wipe(true), s, ses.refresh);
  }

  /** One refused render makes a frame whose views went through raise on the terminal. */
  lemma {:induction false} ShownRefused(rows: int, cols: int, v: Views, ses: Session, i: nat)
    requires ses.screen.state != Exit && Frame(v, ses).Ok?
    requires i < |Frame(v, ses).value.ops| && Refused(rows, cols, Frame(v, ses).value.ops[i])
    ensures Shown(rows, cols, v, ses) == Err("curses.error")
  {
  }

  // ---------------------------------------------------------------------
  // The loop

  /**
    What a key controller leaves: the screen as it changed it, the refresh
    flag, and whether it changed the events or the tasks.
   */
  datatype Decision = Decision(screen: Screen, refreshNow: bool, eventsChanged: bool, tasksChanged: bool)

  /** One pass of the loop from the outside: the data it draws and what its controller decides. */
  datatype Turn = Turn(data: Data, decision: Decision)

  /** After the controller: each changed list is saved, and either change makes a refresh due. */
  function AfterControl(f: FrameOut, d: Decision): FrameOut {
    FrameOut(f.ops + (if d.eventsChanged then [SaveEvents] else []) + (if d.tasksChanged then [SaveTasks] else []),
             Session(d.screen, Refresh(f.session.refresh.time, d.refreshNow || d.eventsChanged || d.tasksChanged)))
  }

  /** The operations of a run, the session it ends with and the number of frames it drew. */
  datatype Trace = Trace(ops: seq<Op>, session: Session, frames: nat)

  /**
    The main loop over the given turns: it stops at the exit state (or
    when the turns run out), and an error in a frame, raised by a view or
    by curses, ends it.
   */
  function Run(env: Env, turns: seq<Turn>, ses: Session): Result<Trace, string>
    decreases |turns|
  {
    if ses.screen.state == Exit || |turns| == 0 then Ok(Trace([], ses, 0))
    else
      match Shown(env.rows, env.cols, Calcure(env, turns[0].data), ses)
      case Err(e) => Err(e)
      case Ok(f) =>
        var g := AfterControl(f, turns[0].decision);
        match Run(env, turns[1..], g.session)
        case Err(e) => Err(e)
        case Ok(t) => Ok(Trace(g.ops + t.ops, t.session, t.frames + 1))
  }

  /**
    The saves follow the controller, one per changed list, and a change
    leaves a refresh due; the screen is the controller's and the refresh
    rate is the frame's.
   */
  lemma {:induction false} ChangeForcesRefresh(f: FrameOut, d: Decision)
    ensures var g := AfterControl(f, d);
            && Outline(g.ops) == Outline(f.ops) + (if d.eventsChanged then [SavedEvents] else []) + (if d.tasksChanged then [SavedTasks] else [])
            && (d.eventsChanged || d.tasksChanged ==> g.session.refresh.now)
            && (!d.eventsChanged && !d.tasksChanged ==> g.session.refresh.now == d.refreshNow)
            && g.session.screen == d.screen && g.session.refresh.time == f.session.refresh.time
  {
    var ev: seq<Op> := if d.eventsChanged then [SaveEvents] else [];
    var tk: seq<Op> := if d.tasksChanged then [SaveTasks] else [];
    OutlineAppend(f.ops, ev);
    OutlineAppend(f.ops + ev, tk);
    if d.eventsChanged {
      OutlineSingle(SaveEvents);
    }
    if d.tasksChanged {
      OutlineSingle(SaveTasks);
    }
  }

  /**
    A change the controller makes on a split journal outside selection
    mode makes the next frame clear the terminal and redraw the calendar
    behind before anything else.
   */
  lemma {:induction false} ChangeRedrawsBackground(cfg: Config, texts: Texts, width: int, v: Views, f: FrameOut, d: Decision)
    requires Sound(cfg, texts, width, v)
    requires d.eventsChanged || d.tasksChanged
    requires d.screen.state == Journal && d.screen.split && !d.screen.selectionMode
    ensures var next := Frame(v, AfterControl(f, d).session);
            next.Ok? ==> |next.value.ops| >= 3 && Outline(next.value.ops)[..3] == [Cleared, Filled, Drew(CalendarPart(d.screen), false)]
  {
    var ses := AfterControl(f, d).session;
    assert ses.screen == d.screen && ses.refresh.now;
    var next := Frame(v, ses);
    if next.Ok? {
      JournalFrame(cfg, texts, width, v, ses);
      JournalExpected(d.screen, true, v.helpFits);
      var back: seq<Mark> := [Cleared, Filled] + [Drew(CalendarPart(d.screen), false)];
      var rest: seq<Mark> := [Drew(JournalPart, true)] + [Drew(SeparatorPart, true)] + [Drew(FooterPart, true), Controlled(JournalPart)];
      assert Outline(next.value.ops) == [] + back + rest;
      assert ([] + back + rest)[..3] == back;
    }
  }

  /**
    The loop runs until the exit state: a run that ends before its turns
    run out ends in the exit state, and a run that starts there draws
    nothing.
   */
  lemma {:induction false} RunUntilExit(env: Env, turns: seq<Turn>, ses: Session)
    ensures ses.screen.state == Exit ==> Run(env, turns, ses) == Ok(Trace([], ses, 0))
    ensures var t := Run(env, turns, ses);
            t.Ok? ==> t.value.frames <= |turns| && (t.value.frames < |turns| ==> t.value.session.screen.state == Exit)
    decreases |turns|
  {
    if ses.screen.state != Exit && |turns| > 0 {
      var f := Shown(env.rows, env.cols, Calcure(env, turns[0].data), ses);
      if f.Ok? {
        RunUntilExit(env, turns[1..], AfterControl(f.value, turns[0].decision).session);
      }
    }
  }

  /**
    A run fails only on a missing name or a write curses refuses, and the
    journal's refresh rate is sticky: it ends as it started or at the
    configured interval, and no frame sets it to anything else.
   */
  lemma {:induction false} RunRefreshSticky(env: Env, turns: seq<Turn>, ses: Session)
    ensures var t := Run(env, turns, ses);
            && (t.Err? ==> FrameError(t.error))
            && (t.Ok? ==> t.value.session.refresh.time == ses.refresh.time || t.value.session.refresh.time == env.cfg.refreshInterval * 10)
    decreases |turns|
  {
    if ses.screen.state != Exit && |turns| > 0 {
      var v := Calcure(env, turns[0].data);
      CalcureSound(env, turns[0].data);
      ShownOutcome(env.cfg, env.texts, env.clearWidth, env.rows, env.cols, v, ses);
      var f := Shown(env.rows, env.cols, v, ses);
      if f.Ok? {
        var g := AfterControl(f.value, turns[0].decision);
        RunRefreshSticky(env, turns[1..], g.session);
      }
    }
  }
}
