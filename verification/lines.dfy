/**
  Composers of single lines: a task with its timer, the journal's task
  list, one event line of a calendar cell (user event, holiday, birthday)
  and the number of a day in the monthly grid.
 */
module Lines {
  import opened Text
  import opened Canvas
  import opened Model
  import opened Geometry

  // ---------------------------------------------------------------------
  // Keyword icons

  /** Pair `j` is the last pair whose keyword occurs in `name`. */
  predicate LastMatchAt(name: string, icons: seq<(string, string)>, j: int) {
    && 0 <= j < |icons|
    && Contains(name, icons[j].0)
    && forall k | j < k < |icons| :: !Contains(name, icons[k].0)
  }

  /**
    The keyword scan of the task and event views: walk the pairs in order,
    every keyword found in `name` replacing the icon chosen so far.
   */
  function KeywordIcon(name: string, icons: seq<(string, string)>, icon: string): string
    decreases |icons|
  {
    if |icons| == 0 then icon
    else KeywordIcon(name, icons[1..], if Contains(name, icons[0].0) then icons[0].1 else icon)
  }

  /** The last matching pair decides the icon; with no match the default stays. */
  lemma {:induction false} KeywordIconLastMatch(name: string, icons: seq<(string, string)>, icon: string)
    ensures (forall j | 0 <= j < |icons| :: !Contains(name, icons[j].0)) ==> KeywordIcon(name, icons, icon) == icon
    ensures forall j | LastMatchAt(name, icons, j) :: KeywordIcon(name, icons, icon) == icons[j].1
    decreases |icons|
  {
    if |icons| > 0 {
      var next := if Contains(name, icons[0].0) then icons[0].1 else icon;
      KeywordIconLastMatch(name, icons[1..], next);
      assert forall j | 0 < j < |icons| :: icons[1..][j - 1] == icons[j];
      assert forall j | 0 < j < |icons| && LastMatchAt(name, icons, j) :: LastMatchAt(name, icons[1..], j - 1);
    }
  }

  // ---------------------------------------------------------------------
  // Tasks

  /** The number of `-` characters a name starts with. */
  function LeadingDashes(name: string): (r: nat)
    ensures r <= |name|
    ensures forall i | 0 <= i < r :: name[i] == '-'
    ensures r < |name| ==> name[r] != '-'
  {
    if |name| > 0 && name[0] == '-' then 1 + LeadingDashes(name[1..]) else 0
  }

  /** The first `k` characters of `name` exist and are all dashes. */
  predicate DashesFor(name: string, k: nat) {
    k <= |name| && forall i | 0 <= i < k :: name[i] == '-'
  }

  /** Indentation of a subtask: `----` marks level two, `--` level one. */
  function TaskIndent(name: string): (r: nat)
    ensures r in {0, 2, 4} && r <= |name|
  {
    if DashesFor(name, 4) then 4 else if DashesFor(name, 2) then 2 else 0
  }

  /** The indentation as the source computes it, by comparing the name's first four or two characters. */
  lemma {:induction false} TaskIndentBySlices(name: string)
    ensures TaskIndent(name) == if Take(name, 4) == "----" then 4 else if Take(name, 2) == "--" then 2 else 0
  {
    if DashesFor(name, 4) {
      assert Take(name, 4) == "----";
    } else if |name| >= 4 {
      assert exists i | 0 <= i < 4 :: name[i] != '-';
      assert Take(name, 4)[..4] != "----";
    }
    if DashesFor(name, 2) {
      assert Take(name, 2) == "--";
    } else if |name| >= 2 {
      assert Take(name, 2)[..2] != "--";
    }
  }

  /** A name starts with at least `k` dashes exactly when its first `k` characters are dashes. */
  lemma {:induction false} LeadingDashesAtLeast(name: string, k: nat)
    ensures LeadingDashes(name) >= k <==> (k <= |name| && forall i | 0 <= i < k :: name[i] == '-')
  {
    if k > 0 && |name| > 0 && name[0] == '-' {
      LeadingDashesAtLeast(name[1..], k - 1);
      if k <= |name| {
        assert forall i | 1 <= i < k :: name[1..][i - 1] == name[i];
      }
    }
  }

  /**
    The indentation is the run of leading dashes rounded down to 0, 2 or 4:
    four or more dashes indent by 4, two or three by 2, fewer by nothing.
   */
  lemma {:induction false} IndentFromDashes(name: string)
    ensures TaskIndent(name) == (var d := LeadingDashes(name); if d >= 4 then 4 else if d >= 2 then 2 else 0)
  {
    LeadingDashesAtLeast(name, 4);
    LeadingDashesAtLeast(name, 2);
  }

  /** The task's role (colour) from its status. */
  function TaskRole(status: Status): Role {
    match status
    case Done => Canvas.Done
    case Important => Canvas.Important
    case Unimportant => Canvas.Unimportant
    case Normal => Todo
  }

  /** Icon of a task: the keyword icon, overridden by the done or important icon. */
  function TaskIcon(cfg: Config, task: Task): string {
    var icon := if cfg.displayIcons then KeywordIcon(Lower(task.name), cfg.icons, cfg.todoIcon) else cfg.todoIcon;
    if task.status == Status.Done then cfg.doneIcon
    else if task.status == Status.Important then cfg.importantIcon
    else icon
  }

  /**
    The done and important icons override the keyword icon; other tasks take
    the keyword icon of their lower-cased name when icons are displayed, the
    todo icon otherwise.
   */
  lemma {:induction false} TaskIconChoice(cfg: Config, task: Task)
    ensures task.status == Status.Done ==> TaskIcon(cfg, task) == cfg.doneIcon
    ensures task.status == Status.Important ==> TaskIcon(cfg, task) == cfg.importantIcon
    ensures task.status in {Normal, Status.Unimportant} && !cfg.displayIcons ==> TaskIcon(cfg, task) == cfg.todoIcon
    ensures task.status in {Normal, Status.Unimportant} && cfg.displayIcons ==>
              TaskIcon(cfg, task) == KeywordIcon(Lower(task.name), cfg.icons, cfg.todoIcon)
  {
  }

  /** The task is shown masked: privacy mode is on or the task itself is private. */
  predicate TaskMasked(screen: Screen, task: Task) {
    screen.privacy || task.privacy
  }

  /**
    The task line: icon, a space and the name without its indentation
    dashes; masked, the todo icon and one privacy icon per hidden character.
   */
  function TaskInfo(cfg: Config, screen: Screen, task: Task): string {
    var indent := TaskIndent(task.name);
    if TaskMasked(screen, task) then cfg.todoIcon + " " + Repeat(cfg.privacyIcon, |task.name| - indent)
    else TaskIcon(cfg, task) + " " + task.name[indent..]
  }

  /**
    A masked task line is the todo icon, a space and one privacy icon per
    character left after the indentation, so no character of the name shows;
    unmasked, the icon, a space and the name without its indentation dashes.
   */
  lemma {:induction false} TaskInfoShape(cfg: Config, screen: Screen, task: Task)
    ensures var r, body := TaskInfo(cfg, screen, task), |task.name| - TaskIndent(task.name);
            TaskMasked(screen, task) ==>
              && cfg.todoIcon + " " <= r && |r| == |cfg.todoIcon| + 1 + |cfg.privacyIcon| * body
              && forall i | |cfg.privacyIcon| > 0 && |cfg.todoIcon| + 1 <= i < |r| ::
                   r[i] == cfg.privacyIcon[(i - |cfg.todoIcon| - 1) % |cfg.privacyIcon|]
    ensures !TaskMasked(screen, task) ==>
              TaskInfo(cfg, screen, task) == TaskIcon(cfg, task) + " " + task.name[TaskIndent(task.name)..]
  {
    var body := |task.name| - TaskIndent(task.name);
    RepeatLength(cfg.privacyIcon, body);
    if TaskMasked(screen, task) {
      MaskTail(cfg.todoIcon + " ", cfg.privacyIcon, body);
    }
  }

  /** A masked task line depends on the length of its text after the dashes only. */
  lemma {:induction false} MaskedTasksAlike(cfg: Config, screen: Screen, t1: Task, t2: Task)
    requires TaskMasked(screen, t1) && TaskMasked(screen, t2)
    requires |t1.name| - TaskIndent(t1.name) == |t2.name| - TaskIndent(t2.name)
    ensures TaskInfo(cfg, screen, t1) == TaskInfo(cfg, screen, t2)
  {
  }

  /** After a prefix, `s * n` shows the characters of `s` over and over. */
  lemma {:induction false} MaskTail(head: string, s: string, n: int)
    ensures var r := head + Repeat(s, n);
            forall i | |s| > 0 && |head| <= i < |r| :: r[i] == s[(i - |head|) % |s|]
  {
    RepeatAt(s, n);
    var r := head + Repeat(s, n);
    forall i | |s| > 0 && |head| <= i < |r|
      ensures r[i] == s[(i - |head|) % |s|]
    {
      assert r[i] == Repeat(s, n)[i - |head|];
    }
  }

  /** Timer icon: pause/play glyphs, only when icons are displayed. */
  function TimerIcon(cfg: Config, timer: Timer): string {
    if !timer.isCounting && cfg.displayIcons then "\U{23EF}\U{FE0E} "
    else if timer.isCounting && cfg.displayIcons then "\U{23F5} "
    else ""
  }

  /** `TimerView.render`: the elapsed time of a started timer, coloured by whether it counts. */
  function TimerView(cfg: Config, y: int, x: int, timer: Timer): (r: seq<Draw>)
    ensures |r| == if timer.isStarted then 1 else 0
    ensures |r| == 1 ==> r[0].row == y && r[0].col == x && !r[0].bold && !r[0].underline
    ensures |r| == 1 ==> (r[0].role == Canvas.Timer <==> timer.isCounting)
    ensures |r| == 1 ==> r[0].role in {Canvas.Timer, TimerPaused}
    ensures |r| == 1 ==> r[0].text == TimerIcon(cfg, timer) + timer.passedTime
    ensures |r| == 1 && !cfg.displayIcons ==> r[0].text == timer.passedTime
  {
    if timer.isStarted then
      [Plain(y, x, TimerIcon(cfg, timer) + timer.passedTime, if timer.isCounting then Canvas.Timer else TimerPaused)]
    else []
  }

  /**
    `TaskView.render`: the task line shifted right by its indentation, then
    its timer on the same row two columns after the line's text.
   */
  function TaskView(cfg: Config, screen: Screen, y: int, x: int, task: Task): seq<Draw> {
    var indent := TaskIndent(task.name);
    var info := TaskInfo(cfg, screen, task);
    [Plain(y, x + indent, info, TaskRole(task.status))]
      + TimerView(cfg, y, screen.xMin + 2 + |info| + indent, task.timer)
  }

  /**
    A task is one write for its line, indented by its dashes, and one more
    for a started timer on the same row; in the journal (drawn at the
    screen's left edge) the timer starts two columns after the line's text.
   */
  lemma {:induction false} TaskViewShape(cfg: Config, screen: Screen, y: int, x: int, task: Task)
    ensures var r := TaskView(cfg, screen, y, x, task);
            && |r| == (if task.timer.isStarted then 2 else 1)
            && r[0] == Plain(y, x + TaskIndent(task.name), TaskInfo(cfg, screen, task), TaskRole(task.status))
            && (|r| == 2 ==> r[1].row == y && r[1].role in {Canvas.Timer, TimerPaused})
            && (|r| == 2 && x == screen.xMin ==> r[1].col == r[0].col + |r[0].text| + 2)
  {
  }

  /** The number drawn after task `k` in selection mode, if any. */
  function TaskNumber(screen: Screen, y: int, x: int, k: nat): seq<Draw> {
    if screen.selectionMode then [Plain(y + k, x, NatToString(k + 1), Today)] else []
  }

  /** The writes for task `k` of the journal: the task on row `y+k`, then its number. */
  function TaskRow(cfg: Config, screen: Screen, y: int, x: int, tasks: seq<Task>): nat -> seq<Draw> {
    (k: nat) => if k < |tasks| then TaskView(cfg, screen, y + k, x, tasks[k]) + TaskNumber(screen, y, x, k) else []
  }

  /** `JournalView.render`: the placeholder for an empty list, then every task. */
  function JournalView(cfg: Config, texts: Texts, screen: Screen, y: int, x: int, tasks: seq<Task>): seq<Draw> {
    (if |tasks| == 0 && cfg.showNothingPlanned then [Plain(y, x, texts.nothingPlanned, Canvas.Unimportant)] else [])
      + Concat(TaskRow(cfg, screen, y, x, tasks), 0, |tasks|)
  }

  /** The numbers `from+1`, …, `to` of a numbered list, number `k+1` on row `y+k`. */
  function ListNumbers(y: int, x: int, from: nat, to: nat): seq<Draw>
    decreases to - from
  {
    if from >= to then [] else [Plain(y + from, x, NatToString(from + 1), Today)] + ListNumbers(y, x, from + 1, to)
  }

  /** A task line and its timer are never drawn in the numbering role and stay on their row. */
  lemma {:induction false} TaskViewUnnumbered(cfg: Config, screen: Screen, y: int, x: int, task: Task)
    ensures WithRole(TaskView(cfg, screen, y, x, task), Today) == []
    ensures RowsWithin(TaskView(cfg, screen, y, x, task), y, y + 1)
  {
    var tv := TaskView(cfg, screen, y, x, task);
    TaskViewShape(cfg, screen, y, x, task);
    if |tv| == 2 {
      assert tv[1..][1..] == [];
    } else {
      assert tv[1..] == [];
    }
  }

  /** The journal's numbers as a view per row: number `k+1` for task `k` in selection mode. */
  function TaskNumbers(screen: Screen, y: int, x: int): nat -> seq<Draw> {
    (k: nat) => TaskNumber(screen, y, x, k)
  }

  /** Of task `k`'s writes, only its number is in the numbering role. */
  lemma {:induction false} TaskRowNumber(cfg: Config, screen: Screen, y: int, x: int, tasks: seq<Task>, k: nat)
    requires k < |tasks|
    ensures WithRole(TaskRow(cfg, screen, y, x, tasks)(k), Today) == TaskNumbers(screen, y, x)(k)
  {
    var tv, num := TaskView(cfg, screen, y + k, x, tasks[k]), TaskNumber(screen, y, x, k);
    assert TaskRow(cfg, screen, y, x, tasks)(k) == tv + num;
    TaskViewUnnumbered(cfg, screen, y + k, x, tasks[k]);
    WithRoleOnly(tv, num, Today);
  }

  /** Task `k`'s writes, its number included, stay on row `y+k`. */
  lemma {:induction false} TaskRowWithin(cfg: Config, screen: Screen, y: int, x: int, tasks: seq<Task>, k: nat)
    requires k < |tasks|
    ensures RowsWithin(TaskRow(cfg, screen, y, x, tasks)(k), y + k, y + k + 1)
  {
    var tv, num := TaskView(cfg, screen, y + k, x, tasks[k]), TaskNumber(screen, y, x, k);
    assert TaskRow(cfg, screen, y, x, tasks)(k) == tv + num;
    TaskViewUnnumbered(cfg, screen, y + k, x, tasks[k]);
    RowsWithinAppend(tv, num, y + k, y + k + 1);
  }

  /** The numbers of a list as one write per row. */
  lemma {:induction false} ConcatListNumbers(views: nat -> seq<Draw>, y: int, x: int, i: nat, n: nat)
    requires i <= n
    requires forall k | i <= k < n :: views(k) == [Plain(y + k, x, NatToString(k + 1), Today)]
    ensures Concat(views, i, n) == ListNumbers(y, x, i, n)
    decreases n - i
  {
    if i < n {
      ConcatListNumbers(views, y, x, i + 1, n);
    }
  }

  /** The numbering writes of the task rows are exactly the list's numbers in selection mode, none otherwise. */
  lemma {:induction false} JournalRowsNumbering(cfg: Config, screen: Screen, y: int, x: int, tasks: seq<Task>)
    ensures WithRole(Concat(TaskRow(cfg, screen, y, x, tasks), 0, |tasks|), Today)
         == if screen.selectionMode then ListNumbers(y, x, 0, |tasks|) else []
  {
    var rows, numbers := TaskRow(cfg, screen, y, x, tasks), TaskNumbers(screen, y, x);
    forall k: nat | k < |tasks| ensures WithRole(rows(k), Today) == numbers(k) {
      TaskRowNumber(cfg, screen, y, x, tasks, k);
    }
    ConcatWithRole(rows, numbers, 0, |tasks|, Today);
    if screen.selectionMode {
      ConcatListNumbers(numbers, y, x, 0, |tasks|);
    } else {
      ConcatEmpty(numbers, 0, |tasks|);
    }
  }

  /** Task `k` of the journal and its number are drawn on row `y+k`. */
  lemma {:induction false} JournalRowsWithin(cfg: Config, screen: Screen, y: int, x: int, tasks: seq<Task>)
    ensures RowsWithin(Concat(TaskRow(cfg, screen, y, x, tasks), 0, |tasks|), y, y + |tasks|)
  {
    TaskRowsWithin(cfg, screen, y, x, tasks);
    ConcatRows(TaskRow(cfg, screen, y, x, tasks), y, 0, |tasks|);
  }

  /** Every task row stays on its own row. */
  lemma {:induction false} TaskRowsWithin(cfg: Config, screen: Screen, y: int, x: int, tasks: seq<Task>)
    ensures forall k: nat | k < |tasks| :: RowsWithin(TaskRow(cfg, screen, y, x, tasks)(k), y + k, y + k + 1)
  {
    forall k: nat | k < |tasks| ensures RowsWithin(TaskRow(cfg, screen, y, x, tasks)(k), y + k, y + k + 1) {
      TaskRowWithin(cfg, screen, y, x, tasks, k);
    }
  }

  /**
    In the journal, task `i` is drawn on row `y+i`, and in selection mode the
    only numbers drawn are `1..n` on the rows of the `n` tasks, at the list's x.
   */
  lemma {:induction false} JournalNumbering(cfg: Config, texts: Texts, screen: Screen, y: int, x: int, tasks: seq<Task>)
    ensures WithRole(JournalView(cfg, texts, screen, y, x, tasks), Today)
         == if screen.selectionMode then ListNumbers(y, x, 0, |tasks|) else []
    ensures |tasks| > 0 ==> RowsWithin(JournalView(cfg, texts, screen, y, x, tasks), y, y + |tasks|)
  {
    var head := if |tasks| == 0 && cfg.showNothingPlanned then [Plain(y, x, texts.nothingPlanned, Canvas.Unimportant)] else [];
    var body := Concat(TaskRow(cfg, screen, y, x, tasks), 0, |tasks|);
    JournalRowsNumbering(cfg, screen, y, x, tasks);
    JournalRowsWithin(cfg, screen, y, x, tasks);
    WithRoleAppend(head, body, Today);
    assert WithRole(head, Today) == [] by {
      if head != [] { assert head[1..] == []; }
    }
    if |tasks| > 0 {
      EmptyAppend(head, body);
    }
  }

  // ---------------------------------------------------------------------
  // Events

  /** The three event views: user (and repeated) events, birthdays, holidays. */
  datatype EventKind = UserEvent | BirthdayEvent | HolidayEvent

  /**
    The view's icon: for user events the keyword icon, or the privacy icon
    when the event is masked; fixed icons for birthdays and holidays.
   */
  function EventIcon(cfg: Config, screen: Screen, kind: EventKind, ev: Event): string {
    match kind
    case UserEvent =>
      var icon := if cfg.displayIcons then KeywordIcon(Lower(ev.name), cfg.icons, cfg.eventIcon) else cfg.eventIcon;
      if screen.privacy || ev.privacy then cfg.privacyIcon else icon
    case BirthdayEvent => cfg.birthdayIcon
    case HolidayEvent => cfg.holidayIcon
  }

  /**
    Whether the view masks the name: user events in privacy mode or when
    private themselves, birthdays only in privacy mode, holidays never.
   */
  predicate EventMasked(screen: Screen, kind: EventKind, ev: Event) {
    match kind
    case UserEvent => screen.privacy || ev.privacy
    case BirthdayEvent => screen.privacy
    case HolidayEvent => false
  }

  /**
    The line before fitting: icon, a space and the name; masked, the event
    icon (not the privacy icon) and one privacy icon per name character.
   */
  function RawInfo(cfg: Config, screen: Screen, kind: EventKind, ev: Event): string {
    if EventMasked(screen, kind, ev) then cfg.eventIcon + " " + Repeat(cfg.privacyIcon, |ev.name|)
    else EventIcon(cfg, screen, kind, ev) + " " + ev.name
  }

  /** A masked line has the event icon, a space and one privacy icon per name character, nothing of the name. */
  lemma {:induction false} RawInfoMasked(cfg: Config, screen: Screen, kind: EventKind, ev: Event)
    requires EventMasked(screen, kind, ev)
    ensures var r := RawInfo(cfg, screen, kind, ev);
            && cfg.eventIcon + " " <= r && |r| == |cfg.eventIcon| + 1 + |cfg.privacyIcon| * |ev.name|
            && forall i | |cfg.privacyIcon| > 0 && |cfg.eventIcon| + 1 <= i < |r| ::
                 r[i] == cfg.privacyIcon[(i - |cfg.eventIcon| - 1) % |cfg.privacyIcon|]
  {
    RepeatLength(cfg.privacyIcon, |ev.name|);
    MaskTail(cfg.eventIcon + " ", cfg.privacyIcon, |ev.name|);
  }

  /** The monthly grid cuts each line to its cell (titles are cut or borders are drawn). */
  predicate CutToCell(cfg: Config, screen: Screen) {
    (cfg.cutTitles || cfg.showCalendarBorders) && screen.calState == Monthly
  }

  /** `fill_remaining_space`: pad with spaces up to the pane's right edge. */
  function FillRemainingSpace(info: string, xMax: int, x: int): string {
    if |info| < xMax - x then info + Spaces(xMax - x - |info|) else info
  }

  /** `cut_info`: cut at the pane's right edge, then to the cell minus one column when `CutToCell`. */
  function CutInfo(cfg: Config, screen: Screen, info: string, x: int): string {
    var cut := Take(info, screen.xMax - x);
    if CutToCell(cfg, screen) then Take(cut, CellWidth(screen.xMax) - 1) else cut
  }

  /** `minimize_info`: only the icon when a cell is narrower than seven columns. */
  function MinimizeInfo(info: string, icon: string, xMax: int): string {
    if CellWidth(xMax) < 7 then icon else info
  }

  /**
    The text of one event line after fill, cut and minimize. In a cell of at
    least seven columns it is the raw line padded with spaces, exactly as
    wide as the space left in the pane, or as the cell minus one column when
    cut to the cell; in a narrower cell it is just the view's icon.
   */
  function EventText(cfg: Config, screen: Screen, kind: EventKind, x: int, ev: Event): string {
    var raw := RawInfo(cfg, screen, kind, ev);
    MinimizeInfo(CutInfo(cfg, screen, FillRemainingSpace(raw, screen.xMax, x), x), EventIcon(cfg, screen, kind, ev), screen.xMax)
  }

  /** Padding keeps the line and adds only spaces. */
  lemma {:induction false} FillKeepsLine(info: string, xMax: int, x: int)
    ensures var r := FillRemainingSpace(info, xMax, x);
            |r| == Max(|info|, xMax - x) && forall i | 0 <= i < |r| :: r[i] == if i < |info| then info[i] else ' '
  {
    SpacesAreBlank(xMax - x - |info|);
  }

  /**
    The text of one event line: in a cell narrower than seven columns just
    the view's icon; otherwise the raw line padded with spaces and exactly as
    wide as the pane leaves from x, or as the cell minus one column when the
    line is cut to the cell.
   */
  lemma {:induction false} EventTextShape(cfg: Config, screen: Screen, kind: EventKind, x: int, ev: Event)
    ensures var r := EventText(cfg, screen, kind, x, ev);
            CellWidth(screen.xMax) < 7 ==> r == EventIcon(cfg, screen, kind, ev)
    ensures var r := EventText(cfg, screen, kind, x, ev);
            CellWidth(screen.xMax) >= 7 && 0 <= x <= screen.xMax ==>
              |r| == if CutToCell(cfg, screen) then Min(screen.xMax - x, CellWidth(screen.xMax) - 1) else screen.xMax - x
    ensures var r, raw := EventText(cfg, screen, kind, x, ev), RawInfo(cfg, screen, kind, ev);
            CellWidth(screen.xMax) >= 7 ==> forall i | 0 <= i < |r| :: r[i] == if i < |raw| then raw[i] else ' '
  {
    FillKeepsLine(RawInfo(cfg, screen, kind, ev), screen.xMax, x);
  }

  /** The role of an event line: by status for user events, fixed for birthdays and holidays. */
  function EventRole(kind: EventKind, ev: Event): (r: Role)
    ensures r != Today
  {
    match kind
    case UserEvent =>
      if ev.status == Status.Important then Canvas.Important
      else if ev.status == Status.Unimportant then Canvas.Unimportant
      else Events
    case BirthdayEvent => Birthdays
    case HolidayEvent => Holidays
  }

  /** A masked line depends on the name's length only: two names of equal length look alike. */
  lemma {:induction false} MaskedLinesAlike(cfg: Config, screen: Screen, kind: EventKind, e1: Event, e2: Event)
    requires EventMasked(screen, kind, e1) && EventMasked(screen, kind, e2)
    requires |e1.name| == |e2.name|
    ensures RawInfo(cfg, screen, kind, e1) == RawInfo(cfg, screen, kind, e2)
  {
  }

  /**
    The privacy rules of the three views: a private user event is masked even
    outside privacy mode, a birthday ignores its own privacy flag, and a
    holiday always shows its name.
   */
  lemma {:induction false} PrivacyRules(cfg: Config, screen: Screen, ev: Event)
    ensures ev.privacy ==> RawInfo(cfg, screen, UserEvent, ev) == cfg.eventIcon + " " + Repeat(cfg.privacyIcon, |ev.name|)
    ensures RawInfo(cfg, screen, BirthdayEvent, ev) == RawInfo(cfg, screen, BirthdayEvent, ev.(privacy := !ev.privacy))
    ensures RawInfo(cfg, screen, HolidayEvent, ev) == cfg.holidayIcon + " " + ev.name
  {
  }

  // ---------------------------------------------------------------------
  // Day numbers

  /** The focused month and year with day `day` is today. */
  predicate IsToday(screen: Screen, day: int) {
    Date(screen.date.year, screen.date.month, day) == screen.today
  }

  /**
    `DayNumberView.render`: the day number padded to the cell, styled as
    today first, else as a weekend when its weekday is configured as one,
    else as a plain day; today's number carries the today icon.
   */
  function DayNumberView(cfg: Config, screen: Screen, y: int, x: int, day: int, dayInWeek: int, xCell: int): (r: Draw)
    ensures r.row == y && r.col == x
    ensures r.role == Today <==> IsToday(screen, day)
    ensures r.role == Weekends <==> !IsToday(screen, day) && IsWeekend(cfg, dayInWeek)
    ensures r.role in {Today, Weekends, Days}
    ensures IntToString(day) <= r.text
    ensures var n := |IntToString(day)|;
            |r.text| == if IsToday(screen, day) then n + |cfg.todayIcon| + Max(0, xCell - n - 2) else Max(n, xCell - 1)
  {
    var s := IntToString(day);
    if IsToday(screen, day) then
      Draw(y, x, s + cfg.todayIcon + Spaces(xCell - |s| - 2), Today, cfg.today.bold, cfg.today.underline)
    else if IsWeekend(cfg, dayInWeek) then
      Draw(y, x, s + Spaces(xCell - |s| - 1), Weekends, cfg.weekends.bold, cfg.weekends.underline)
    else
      Draw(y, x, s + Spaces(xCell - |s| - 1), Days, cfg.days.bold, cfg.days.underline)
  }

  /** After the number (and today's icon) the day's text is blank. */
  lemma {:induction false} DayNumberPadded(cfg: Config, screen: Screen, y: int, x: int, day: int, dayInWeek: int, xCell: int)
    ensures var r, n := DayNumberView(cfg, screen, y, x, day, dayInWeek, xCell), |IntToString(day)|;
            var pad := if IsToday(screen, day) then n + |cfg.todayIcon| else n;
            forall i | pad <= i < |r.text| :: r.text[i] == ' '
  {
    var n := |IntToString(day)|;
    SpacesAreBlank(xCell - n - 2);
    SpacesAreBlank(xCell - n - 1);
  }
}
