/**
  The help screen: the key tables in two columns, side by side on a wide
  terminal and one below the other on a narrow one.
 */
module HelpScreen {
  import opened Text
  import opened Canvas
  import opened Model

  /** The width below which the two columns are stacked. */
  const WideWidth := 102

  /** Where the help screen's columns go: the global offsets and the right column's shift. */
  datatype Placement = Placement(globalX: int, globalY: int, shiftX: int, shiftY: int)

  /** Whether the terminal is wide enough for the two columns side by side. */
  predicate Wide(cols: int) {
    cols >= WideWidth
  }

  /**
    `HelpScreenView.calibrate_position` for a terminal of `rows` x `cols`:
    on a wide terminal the 102-column block is centred and, when there are
    more than 20 rows, so is its height; on a narrow one the right column
    goes below the left.
   */
  function Calibrate(texts: Texts, rows: int, cols: int): (r: Placement)
    ensures Wide(cols) ==> r.shiftX == 45 && r.shiftY == 2 && 0 <= r.globalX
    ensures Wide(cols) ==> 2 * r.globalX + WideWidth == cols || 2 * r.globalX + WideWidth + 1 == cols
    ensures Wide(cols) && rows > 20 ==> 0 <= r.globalY && (2 * r.globalY + 20 == rows || 2 * r.globalY + 21 == rows)
    ensures !(Wide(cols) && rows > 20) ==> r.globalY == 0
    ensures !Wide(cols) ==> r.globalX == 0 && r.shiftX == 0
    ensures !Wide(cols) ==> r.shiftY == 6 + |texts.keysGeneral| + |texts.keysCalendar|
  {
    var gy := if rows > 20 && cols >= WideWidth then (rows - 20) / 2 else 0;
    if cols < WideWidth then Placement(0, gy, 0, 6 + |texts.keysGeneral| + |texts.keysCalendar|)
    else Placement((cols - WideWidth) / 2, gy, 45, 2)
  }

  /** One table line: the key, a space, what it does. */
  function KeyLine(entry: (string, string)): string {
    entry.0 + " " + entry.1
  }

  /** Table entry `k` on row `y + k`. */
  function KeyWrite(keys: seq<(string, string)>, y: int, x: int, k: nat): Draw
    requires k < |keys|
  {
    Plain(y + k, x, KeyLine(keys[k]), Todo)
  }

  /** The loop over a key table, one line per entry. */
  function KeyLines(keys: seq<(string, string)>, y: int, x: int): nat -> seq<Draw> {
    (k: nat) => if k < |keys| then [KeyWrite(keys, y, x, k)] else []
  }

  function KeyTable(keys: seq<(string, string)>, y: int, x: int): seq<Draw> {
    Concat(KeyLines(keys, y, x), 0, |keys|)
  }

  /** A key table is its entries in order, entry `k` on row `y + k` at column `x`. */
  lemma {:induction false} KeyTableLayout(keys: seq<(string, string)>, y: int, x: int)
    ensures var r := KeyTable(keys, y, x);
            && |r| == |keys|
            && (forall k: nat | k < |keys| :: r[k] == Plain(y + k, x, KeyLine(keys[k]), Todo))
            && Ascending(r) && RowsWithin(r, y, y + |keys|)
  {
    var views := KeyLines(keys, y, x);
    forall k: nat | k < |keys| ensures |views(k)| == 1 { }
    ConcatSingles(views, 0, |keys|);
  }

  /** The left column: name and version, the general keys, the calendar keys. */
  function LeftColumn(cfg: Config, texts: Texts, version: string, pl: Placement): seq<Draw> {
    var gx, gy, kg := pl.globalX, pl.globalY, |texts.keysGeneral|;
    [Draw(gy, gx + 1, texts.appName + " " + version, ActivePane, cfg.title.bold, cfg.title.underline),
     Draw(gy + 2, gx + 8, texts.titleKeysGeneral, Title, cfg.title.bold, cfg.title.underline)]
    + KeyTable(texts.keysGeneral, gy + 3, gx)
    + [Draw(gy + 4 + kg, gx + 8, texts.titleKeysCalendar, Title, cfg.title.bold, cfg.title.underline)]
    + KeyTable(texts.keysCalendar, gy + 5 + kg, gx)
  }

  /** The right column: the journal keys and the three closing messages. */
  function RightColumn(cfg: Config, texts: Texts, pl: Placement): seq<Draw> {
    var dx, dy, kt := pl.globalX + pl.shiftX, pl.globalY + pl.shiftY, |texts.keysTodo|;
    [Draw(dy, dx + 8, texts.titleKeysJournal, Title, cfg.title.bold, cfg.title.underline)]
    + KeyTable(texts.keysTodo, dy + 1, dx)
    + [Plain(dy + kt + 2, dx + 8, texts.msgVim, ActivePane),
       Plain(dy + kt + 4, dx + 8, texts.msgInfo, Todo),
       Plain(dy + kt + 5, dx + 8, texts.msgSite, Title)]
  }

  /**
    `HelpScreenView.render` on a terminal of `rows` x `cols` (`version` is
    the program's version string): nothing on a terminal too small to
    draw, else the two columns, left first.
   */
  function HelpScreenView(cfg: Config, texts: Texts, version: string, rows: int, cols: int): seq<Draw> {
    if cols < 6 || rows < 3 then []
    else
      var pl := Calibrate(texts, rows, cols);
      LeftColumn(cfg, texts, version, pl) + RightColumn(cfg, texts, pl)
  }

  /** The rows the left column takes: from the global offset to just past the calendar keys. */
  function LeftEnd(texts: Texts, pl: Placement): int {
    pl.globalY + 5 + |texts.keysGeneral| + |texts.keysCalendar|
  }

  function RightEnd(texts: Texts, pl: Placement): int {
    pl.globalY + pl.shiftY + |texts.keysTodo| + 6
  }

  /** A single write goes down trivially. */
  lemma {:induction false} AscendingSingle(d: Draw)
    ensures Ascending([d]) && RowsWithin([d], d.row, d.row + 1)
  {
  }

  /** The left column goes down row by row, never writing a row twice. */
  lemma {:induction false} LeftAscending(cfg: Config, texts: Texts, version: string, pl: Placement)
    ensures Ascending(LeftColumn(cfg, texts, version, pl))
    ensures RowsWithin(LeftColumn(cfg, texts, version, pl), pl.globalY, LeftEnd(texts, pl))
  {
    var gx, gy, kg, kc := pl.globalX, pl.globalY, |texts.keysGeneral|, |texts.keysCalendar|;
    var name := Draw(gy, gx + 1, texts.appName + " " + version, ActivePane, cfg.title.bold, cfg.title.underline);
    var genTitle := Draw(gy + 2, gx + 8, texts.titleKeysGeneral, Title, cfg.title.bold, cfg.title.underline);
    var general := KeyTable(texts.keysGeneral, gy + 3, gx);
    var calTitle := Draw(gy + 4 + kg, gx + 8, texts.titleKeysCalendar, Title, cfg.title.bold, cfg.title.underline);
    var calendar := KeyTable(texts.keysCalendar, gy + 5 + kg, gx);
    assert LeftColumn(cfg, texts, version, pl) == [name] + [genTitle] + general + [calTitle] + calendar;
    AscendingSingle(name);
    AscendingSingle(genTitle);
    AscendingSingle(calTitle);
    KeyTableLayout(texts.keysGeneral, gy + 3, gx);
    KeyTableLayout(texts.keysCalendar, gy + 5 + kg, gx);
    AscendingAppend([name], [genTitle], gy, gy + 2, gy + 3);
    AscendingAppend([name] + [genTitle], general, gy, gy + 3, gy + 3 + kg);
    AscendingAppend([name] + [genTitle] + general, [calTitle], gy, gy + 4 + kg, gy + 5 + kg);
    AscendingAppend([name] + [genTitle] + general + [calTitle], calendar, gy, gy + 5 + kg, gy + 5 + kg + kc);
  }

  /** So does the right column. */
  lemma {:induction false} RightAscending(cfg: Config, texts: Texts, pl: Placement)
    ensures Ascending(RightColumn(cfg, texts, pl))
    ensures RowsWithin(RightColumn(cfg, texts, pl), pl.globalY + pl.shiftY, RightEnd(texts, pl))
  {
    var dx, dy, kt := pl.globalX + pl.shiftX, pl.globalY + pl.shiftY, |texts.keysTodo|;
    var title := Draw(dy, dx + 8, texts.titleKeysJournal, Title, cfg.title.bold, cfg.title.underline);
    var todo := KeyTable(texts.keysTodo, dy + 1, dx);
    var vim, info, site := Plain(dy + kt + 2, dx + 8, texts.msgVim, ActivePane),
                           Plain(dy + kt + 4, dx + 8, texts.msgInfo, Todo),
                           Plain(dy + kt + 5, dx + 8, texts.msgSite, Title);
    assert RightColumn(cfg, texts, pl) == [title] + todo + [vim] + [info] + [site];
    AscendingSingle(title);
    AscendingSingle(vim);
    AscendingSingle(info);
    AscendingSingle(site);
    KeyTableLayout(texts.keysTodo, dy + 1, dx);
    AscendingAppend([title], todo, dy, dy + 1, dy + 1 + kt);
    AscendingAppend([title] + todo, [vim], dy, dy + kt + 2, dy + kt + 3);
    AscendingAppend([title] + todo + [vim], [info], dy, dy + kt + 4, dy + kt + 5);
    AscendingAppend([title] + todo + [vim] + [info], [site], dy, dy + kt + 5, dy + kt + 6);
  }

  /**
    On a narrow terminal the right column starts below the left one, so
    the whole help screen goes down row by row and no line overwrites
    another.
   */
  lemma {:induction false} NarrowHelpStacks(cfg: Config, texts: Texts, version: string, rows: int, cols: int)
    requires !Wide(cols)
    ensures Ascending(HelpScreenView(cfg, texts, version, rows, cols))
  {
    if !(cols < 6 || rows < 3) {
      var pl := Calibrate(texts, rows, cols);
      LeftAscending(cfg, texts, version, pl);
      RightAscending(cfg, texts, pl);
      AscendingAppend(LeftColumn(cfg, texts, version, pl), RightColumn(cfg, texts, pl), pl.globalY, LeftEnd(texts, pl) + 1, RightEnd(texts, pl));
    }
  }

  /**
    On a wide terminal each column goes down row by row, the left one's
    lines start within eight columns of the centred block's left edge and
    the right one's 45 columns further.
   */
  lemma {:induction false} WideHelpColumns(cfg: Config, texts: Texts, version: string, rows: int, cols: int)
    requires Wide(cols) && rows >= 3
    ensures var pl := Calibrate(texts, rows, cols);
            var left, right := LeftColumn(cfg, texts, version, pl), RightColumn(cfg, texts, pl);
            && HelpScreenView(cfg, texts, version, rows, cols) == left + right
            && Ascending(left) && Ascending(right)
            && ColsWithin(left, pl.globalX, pl.globalX + 8)
            && ColsWithin(right, pl.globalX + 45, pl.globalX + 53)
  {
    var pl := Calibrate(texts, rows, cols);
    LeftAscending(cfg, texts, version, pl);
    RightAscending(cfg, texts, pl);
    LeftCols(cfg, texts, version, pl);
    RightCols(cfg, texts, pl);
  }

  lemma {:induction false} LeftCols(cfg: Config, texts: Texts, version: string, pl: Placement)
    ensures ColsWithin(LeftColumn(cfg, texts, version, pl), pl.globalX, pl.globalX + 8)
  {
    var gx, gy, kg := pl.globalX, pl.globalY, |texts.keysGeneral|;
    var name := Draw(gy, gx + 1, texts.appName + " " + version, ActivePane, cfg.title.bold, cfg.title.underline);
    var genTitle := Draw(gy + 2, gx + 8, texts.titleKeysGeneral, Title, cfg.title.bold, cfg.title.underline);
    var general := KeyTable(texts.keysGeneral, gy + 3, gx);
    var calTitle := Draw(gy + 4 + kg, gx + 8, texts.titleKeysCalendar, Title, cfg.title.bold, cfg.title.underline);
    var calendar := KeyTable(texts.keysCalendar, gy + 5 + kg, gx);
    assert LeftColumn(cfg, texts, version, pl) == [name] + [genTitle] + general + [calTitle] + calendar;
    KeyTableLayout(texts.keysGeneral, gy + 3, gx);
    KeyTableLayout(texts.keysCalendar, gy + 5 + kg, gx);
    ColsWithinAppend([name], [genTitle], gx, gx + 8);
    ColsWithinAppend([name] + [genTitle], general, gx, gx + 8);
    ColsWithinAppend([name] + [genTitle] + general, [calTitle], gx, gx + 8);
    ColsWithinAppend([name] + [genTitle] + general + [calTitle], calendar, gx, gx + 8);
  }

  lemma {:induction false} RightCols(cfg: Config, texts: Texts, pl: Placement)
    ensures ColsWithin(RightColumn(cfg, texts, pl), pl.globalX + pl.shiftX, pl.globalX + pl.shiftX + 8)
  {
    var dx, dy, kt := pl.globalX + pl.shiftX, pl.globalY + pl.shiftY, |texts.keysTodo|;
    var title := Draw(dy, dx + 8, texts.titleKeysJournal, Title, cfg.title.bold, cfg.title.underline);
    var todo := KeyTable(texts.keysTodo, dy + 1, dx);
    var vim, info, site := Plain(dy + kt + 2, dx + 8, texts.msgVim, ActivePane),
                           Plain(dy + kt + 4, dx + 8, texts.msgInfo, Todo),
                           Plain(dy + kt + 5, dx + 8, texts.msgSite, Title);
    assert RightColumn(cfg, texts, pl) == [title] + todo + [vim] + [info] + [site];
    KeyTableLayout(texts.keysTodo, dy + 1, dx);
    ColsWithinAppend([title], todo, dx, dx + 8);
    ColsWithinAppend([title] + todo, [vim], dx, dx + 8);
    ColsWithinAppend([title] + todo + [vim], [info], dx, dx + 8);
    ColsWithinAppend([title] + todo + [vim] + [info], [site], dx, dx + 8);
  }

  /** Every write starts between columns `lo` and `hi`. */
  predicate ColsWithin(ds: seq<Draw>, lo: int, hi: int) {
    forall i | 0 <= i < |ds| :: lo <= ds[i].col <= hi
  }

  lemma {:induction false} ColsWithinAppend(a: seq<Draw>, b: seq<Draw>, lo: int, hi: int)
    requires ColsWithin(a, lo, hi) && ColsWithin(b, lo, hi)
    ensures ColsWithin(a + b, lo, hi)
  {
    forall i | 0 <= i < |a + b| ensures lo <= (a + b)[i].col <= hi {
      if i < |a| {
        assert (a + b)[i] == a[i];
      } else {
        assert (a + b)[i] == b[i - |a|];
      }
    }
  }
}
