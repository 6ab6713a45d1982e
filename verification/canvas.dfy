/**
  The drawing primitive of every view (`View.display_line`) and a character
  canvas on which the emitted writes land, last write winning.

  A view is modelled as the ordered sequence of `display_line` requests it
  makes (`Draw`); `DisplayLine` is the clipping the primitive performs
  against the terminal size before writing, and `Screenshot` paints the
  surviving writes onto a map from (row, column) to a styled character, or
  raises when one of them is addressed at a negative row or column.
 */
module Canvas {
  import opened Wrappers
  import opened Text

  /** The colour pairs the views refer to, by their semantic role. */
  datatype Role =
    | DayNames | Weekends | Hints | Today | Days | WeekendNames | Birthdays
    | Prompts | Confirmations | Title | Todo | Done | Important | Timer
    | TimerPaused | Holidays | Events | Time | Weather | Unimportant
    | CalendarHeader | ActivePane | Separator | Empty | CalendarBorder

  /** One call `display_line(row, col, text, role, bold, underline)`. */
  datatype Draw = Draw(row: int, col: int, text: string, role: Role, bold: bool, underline: bool)

  /** A call with the default styling (neither bold nor underlined). */
  function Plain(row: int, col: int, text: string, role: Role): Draw {
    Draw(row, col, text, role, false, false)
  }

  /** What one terminal position shows. */
  datatype Glyph = Glyph(ch: char, role: Role, bold: bool, underline: bool)

  type Point = (int, int)

  /**
    `View.display_line` against a terminal of `rows` x `cols`: a write whose
    row or column is past the edge is dropped, any other write is cut so that
    it stops before the last column.
   */
  function DisplayLine(rows: int, cols: int, d: Draw): (r: Option<Draw>)
    ensures r.None? <==> d.row >= rows || d.col >= cols
    ensures r.Some? ==> r.value.text <= d.text
    ensures r.Some? ==> |r.value.text| == Min(|d.text|, cols - 1 - d.col)
    ensures r.Some? ==> r.value == d.(text := r.value.text)
  {
    if d.row >= rows || d.col >= cols then None
    else TakeIsPrefix(d.text, cols - 1 - d.col); Some(d.(text := Take(d.text, cols - 1 - d.col)))
  }

  /** The writes that reach the terminal, in order, after clipping each request. */
  function Emit(rows: int, cols: int, ds: seq<Draw>): (r: seq<Draw>)
    ensures |r| <= |ds|
  {
    if |ds| == 0 then []
    else
      Emit(rows, cols, ds[..|ds| - 1])
        + match DisplayLine(rows, cols, ds[|ds| - 1]) case None => [] case Some(d) => [d]
  }

  /** Every write of `ds` lands on a row in `lo .. hi-1`. */
  predicate RowsWithin(ds: seq<Draw>, lo: int, hi: int) {
    forall i | 0 <= i < |ds| :: lo <= ds[i].row < hi
  }

  lemma {:induction false} RowsWithinWiden(ds: seq<Draw>, lo: int, hi: int, lo': int, hi': int)
    requires RowsWithin(ds, lo, hi) && lo' <= lo && hi <= hi'
    ensures RowsWithin(ds, lo', hi')
  {
  }

  lemma {:induction false} RowsWithinAppend(a: seq<Draw>, b: seq<Draw>, lo: int, hi: int)
    requires RowsWithin(a, lo, hi) && RowsWithin(b, lo, hi)
    ensures RowsWithin(a + b, lo, hi)
  {
    forall i | 0 <= i < |a + b| ensures lo <= (a + b)[i].row < hi {
      if i >= |a| {
        assert (a + b)[i] == b[i - |a|];
      }
    }
  }

  /** Every write that reaches the terminal lies on a row above `rows` and ends left of the last column. */
  lemma {:induction false} EmitFits(rows: int, cols: int, ds: seq<Draw>)
    ensures forall i | 0 <= i < |Emit(rows, cols, ds)| ::
              Emit(rows, cols, ds)[i].row < rows && Emit(rows, cols, ds)[i].col + |Emit(rows, cols, ds)[i].text| <= cols - 1
  {
    if |ds| > 0 {
      EmitFits(rows, cols, ds[..|ds| - 1]);
    }
  }

  // ---------------------------------------------------------------------
  // Composing views

  /** The requests among `ds` drawn in role `role`, in order. */
  function WithRole(ds: seq<Draw>, role: Role): (r: seq<Draw>)
    ensures |r| <= |ds|
  {
    if |ds| == 0 then []
    else (if ds[0].role == role then [ds[0]] else []) + WithRole(ds[1..], role)
  }

  /** The writes kept are exactly those of `ds` in the role. */
  lemma {:induction false} WithRoleMembers(ds: seq<Draw>, role: Role)
    ensures forall d :: d in WithRole(ds, role) <==> d in ds && d.role == role
  {
    if |ds| > 0 {
      WithRoleMembers(ds[1..], role);
      assert ds == [ds[0]] + ds[1..];
    }
  }

  /** Writes none of which is in the role keep nothing. */
  lemma {:induction false} WithRoleNone(ds: seq<Draw>, role: Role)
    requires forall i | 0 <= i < |ds| :: ds[i].role != role
    ensures WithRole(ds, role) == []
    decreases |ds|
  {
    if |ds| > 0 {
      WithRoleNone(ds[1..], role);
    }
  }

  lemma {:induction false} WithRoleAppend(a: seq<Draw>, b: seq<Draw>, role: Role)
    ensures WithRole(a + b, role) == WithRole(a, role) + WithRole(b, role)
    decreases |a|
  {
    if |a| == 0 {
      EmptyAppend(a, b);
    } else {
      ConsAppend(a, b);
      WithRoleAppend(a[1..], b, role);
      Regroup3(if a[0].role == role then [a[0]] else [], WithRole(a[1..], role), WithRole(b, role));
    }
  }

  /** After writes none of which is in the role, a single write in the role (or none) is all that is kept. */
  lemma {:induction false} WithRoleOnly(a: seq<Draw>, b: seq<Draw>, role: Role)
    requires WithRole(a, role) == []
    requires b == [] || (|b| == 1 && b[0].role == role)
    ensures WithRole(a + b, role) == b
  {
    WithRoleAppend(a, b, role);
    if b != [] {
      assert b[1..] == [];
    }
    EmptyAppend(WithRole(a, role), WithRole(b, role));
  }

  /** Selecting a role from `a + b + c` where `a` has none of it and `b` is at most one such request. */
  lemma {:induction false} WithRoleSkip(a: seq<Draw>, b: seq<Draw>, c: seq<Draw>, role: Role)
    requires WithRole(a, role) == []
    requires b == [] || (|b| == 1 && b[0].role == role)
    ensures WithRole(a + b + c, role) == b + WithRole(c, role)
  {
    WithRoleAppend(a + b, c, role);
    WithRoleAppend(a, b, role);
    if b != [] {
      assert b[1..] == [];
    }
  }

  /** The writes of `views(i)`, …, `views(n-1)`, in order: a loop drawing one view per index. */
  function Concat(views: nat -> seq<Draw>, i: nat, n: int): seq<Draw>
    decreases n - i
  {
    if i >= n then [] else views(i) + Concat(views, i + 1, n)
  }

  /** When view `k` stays on row `y+k`, the loop stays on rows `y+i .. y+n-1`. */
  lemma {:induction false} ConcatRows(views: nat -> seq<Draw>, y: int, i: nat, n: int)
    requires forall k | i <= k < n :: RowsWithin(views(k), y + k, y + k + 1)
    ensures RowsWithin(Concat(views, i, n), y + i, y + n)
    decreases n - i
  {
    if i < n {
      ConcatRows(views, y, i + 1, n);
      RowsWithinWiden(views(i), y + i, y + i + 1, y + i, y + n);
      RowsWithinWiden(Concat(views, i + 1, n), y + i + 1, y + n, y + i, y + n);
      RowsWithinAppend(views(i), Concat(views, i + 1, n), y + i, y + n);
    }
  }

  /** Selecting a role from the loop selects it from each view. */
  lemma {:induction false} ConcatWithRole(views: nat -> seq<Draw>, picked: nat -> seq<Draw>, i: nat, n: int, role: Role)
    requires forall k | i <= k < n :: WithRole(views(k), role) == picked(k)
    ensures WithRole(Concat(views, i, n), role) == Concat(picked, i, n)
    decreases n - i
  {
    if i < n {
      ConcatWithRole(views, picked, i + 1, n, role);
      WithRoleAppend(views(i), Concat(views, i + 1, n), role);
    }
  }

  /** A loop of empty views draws nothing. */
  lemma {:induction false} ConcatEmpty(views: nat -> seq<Draw>, i: nat, n: int)
    requires forall k | i <= k < n :: views(k) == []
    ensures Concat(views, i, n) == []
    decreases n - i
  {
    if i < n {
      ConcatEmpty(views, i + 1, n);
    }
  }

  /** A loop of single writes: write `j` of the loop is the write of view `i+j`. */
  lemma {:induction false} ConcatSingles(views: nat -> seq<Draw>, i: nat, n: int)
    requires forall k: nat | i <= k < n :: |views(k)| == 1
    ensures |Concat(views, i, n)| == Max(0, n - i)
    ensures forall j: nat | j < n - i :: Concat(views, i, n)[j] == views(i + j)[0]
    decreases n - i
  {
    if i < n {
      ConcatSingles(views, i + 1, n);
      var rest := Concat(views, i + 1, n);
      assert forall j: nat | 1 <= j < n - i :: Concat(views, i, n)[j] == rest[j - 1];
    }
  }

  /** Write `d` puts a character at `p`. */
  predicate Covers(d: Draw, p: Point) {
    p.0 == d.row && d.col <= p.1 < d.col + |d.text|
  }

  function GlyphAt(d: Draw, p: Point): Glyph
    requires Covers(d, p)
  {
    Glyph(d.text[p.1 - d.col], d.role, d.bold, d.underline)
  }

  /** The character the last write covering `p` leaves there, if any write covers it. */
  function LastCover(ds: seq<Draw>, p: Point): Option<Glyph> {
    if |ds| == 0 then None
    else if Covers(ds[|ds| - 1], p) then Some(GlyphAt(ds[|ds| - 1], p))
    else LastCover(ds[..|ds| - 1], p)
  }

  type Surface = map<Point, Glyph>

  function Lookup(m: Surface, p: Point): Option<Glyph> {
    if p in m then Some(m[p]) else None
  }

  /** Writes the characters of `d` from position `i` on, left to right. */
  function PaintFrom(m: Surface, d: Draw, i: nat): Surface
    decreases |d.text| - i
  {
    if i >= |d.text| then m
    else PaintFrom(m[(d.row, d.col + i) := Glyph(d.text[i], d.role, d.bold, d.underline)], d, i + 1)
  }

  /** The terminal after the writes `ds`, starting from a blank one. */
  function PaintAll(ds: seq<Draw>): Surface {
    if |ds| == 0 then map[] else PaintFrom(PaintAll(ds[..|ds| - 1]), ds[|ds| - 1], 0)
  }

  /**
    A request that passes `display_line`'s edge test although its row or
    column is negative: `addstr` refuses such a position and raises.
   */
  predicate Misplaced(rows: int, cols: int, d: Draw) {
    DisplayLine(rows, cols, d).Some? && (d.row < 0 || d.col < 0)
  }

  /**
    What the terminal shows after the requests `ds` go through
    `display_line`; a misplaced request raises `curses.error`, which nothing
    between the views and the program's entry point catches.
   */
  function Screenshot(rows: int, cols: int, ds: seq<Draw>): Result<Surface, string> {
    if exists i | 0 <= i < |ds| :: Misplaced(rows, cols, ds[i]) then Err("curses.error")
    else Ok(PaintAll(Emit(rows, cols, ds)))
  }

  lemma {:induction false} PaintFromAt(m: Surface, d: Draw, i: nat, p: Point)
    requires i <= |d.text|
    ensures Lookup(PaintFrom(m, d, i), p)
         == if Covers(d, p) && p.1 - d.col >= i then Some(GlyphAt(d, p)) else Lookup(m, p)
    decreases |d.text| - i
  {
    if i < |d.text| {
      PaintFromAt(m[(d.row, d.col + i) := Glyph(d.text[i], d.role, d.bold, d.underline)], d, i + 1, p);
    }
  }

  /** Painting is last-write-wins: a position shows the last write that covers it. */
  lemma {:induction false} PaintAllIsLastCover(ds: seq<Draw>, p: Point)
    ensures Lookup(PaintAll(ds), p) == LastCover(ds, p)
  {
    if |ds| > 0 {
      PaintAllIsLastCover(ds[..|ds| - 1], p);
      PaintFromAt(PaintAll(ds[..|ds| - 1]), ds[|ds| - 1], 0, p);
    }
  }

  /** The last cover of a concatenation comes from the later part when it covers `p` at all. */
  lemma {:induction false} LastCoverAppend(a: seq<Draw>, b: seq<Draw>, p: Point)
    ensures LastCover(a + b, p) == if LastCover(b, p).Some? then LastCover(b, p) else LastCover(a, p)
    decreases |b|
  {
    if |b| == 0 {
      AppendEmpty(a, b);
    } else {
      SnocAppend(a, b);
      LastCoverAppend(a, b[..|b| - 1], p);
    }
  }

  /** A write drawn last at a point hides whatever came before it there. */
  lemma {:induction false} LastCoverAfter(a: seq<Draw>, b: seq<Draw>, p: Point, g: Glyph)
    requires LastCover(b, p) == Some(g)
    ensures LastCover(a + b, p) == Some(g)
  {
    LastCoverAppend(a, b, p);
  }

  /** A single write shows its own character wherever it covers. */
  lemma {:induction false} LastCoverSingle(d: Draw, p: Point)
    ensures LastCover([d], p) == if Covers(d, p) then Some(GlyphAt(d, p)) else None
  {
    if !Covers(d, p) {
      assert [d][..0] == [];
    }
  }

  /** A loop none of whose views covers `p` leaves `p` alone. */
  lemma {:induction false} ConcatNoCover(views: nat -> seq<Draw>, i: nat, n: int, p: Point)
    requires forall k: nat | i <= k < n :: LastCover(views(k), p) == None
    ensures LastCover(Concat(views, i, n), p) == None
    decreases n - i
  {
    if i < n {
      ConcatNoCover(views, i + 1, n, p);
      LastCoverAppend(views(i), Concat(views, i + 1, n), p);
    }
  }

  /** In a loop, `p` shows what the last view covering it shows. */
  lemma {:induction false} ConcatLastCover(views: nat -> seq<Draw>, i: nat, n: int, k: nat, p: Point)
    requires i <= k < n
    requires LastCover(views(k), p).Some?
    requires forall j: nat | k < j < n :: LastCover(views(j), p) == None
    ensures LastCover(Concat(views, i, n), p) == LastCover(views(k), p)
    decreases k - i
  {
    if i < k {
      ConcatLastCover(views, i + 1, n, k, p);
    } else {
      ConcatNoCover(views, k + 1, n, p);
    }
    LastCoverAppend(views(i), Concat(views, i + 1, n), p);
  }

  /** Every view of the loop is a single write. */
  predicate AllSingles(views: nat -> seq<Draw>, i: nat, n: int) {
    forall k: nat | i <= k < n :: |views(k)| == 1
  }

  /** A loop of single writes none of which covers `p` leaves `p` alone. */
  lemma {:induction false} SinglesNoCover(views: nat -> seq<Draw>, i: nat, n: int, p: Point)
    requires AllSingles(views, i, n)
    requires forall k: nat | i <= k < n :: !Covers(views(k)[0], p)
    ensures LastCover(Concat(views, i, n), p) == None
  {
    forall k: nat | i <= k < n ensures LastCover(views(k), p) == None {
      assert views(k) == [views(k)[0]];
      LastCoverSingle(views(k)[0], p);
    }
    ConcatNoCover(views, i, n, p);
  }

  /** In a loop of single writes, `p` shows the character of the last write covering it. */
  lemma {:induction false} SinglesLastCover(views: nat -> seq<Draw>, i: nat, n: int, k: nat, p: Point)
    requires AllSingles(views, i, n)
    requires i <= k < n && Covers(views(k)[0], p)
    requires forall j: nat | k < j < n :: !Covers(views(j)[0], p)
    ensures LastCover(Concat(views, i, n), p) == Some(GlyphAt(views(k)[0], p))
  {
    forall j: nat | k < j < n ensures LastCover(views(j), p) == None {
      assert views(j) == [views(j)[0]];
      LastCoverSingle(views(j)[0], p);
    }
    assert views(k) == [views(k)[0]];
    LastCoverSingle(views(k)[0], p);
    ConcatLastCover(views, i, n, k, p);
  }

  /** Each write lies on a row strictly below the previous one's: no write can cover another. */
  predicate Ascending(ds: seq<Draw>) {
    forall i, j | 0 <= i < j < |ds| :: ds[i].row < ds[j].row
  }

  /** Two ascending runs, the second on rows below the first's, make one. */
  lemma {:induction false} AscendingAppend(a: seq<Draw>, b: seq<Draw>, lo: int, mid: int, hi: int)
    requires lo <= mid <= hi && Ascending(a) && RowsWithin(a, lo, mid)
    requires Ascending(b) && RowsWithin(b, mid, hi)
    ensures Ascending(a + b) && RowsWithin(a + b, lo, hi)
  {
    RowsWithinWiden(a, lo, mid, lo, hi);
    RowsWithinWiden(b, mid, hi, lo, hi);
    RowsWithinAppend(a, b, lo, hi);
    forall i, j | 0 <= i < j < |a + b| ensures (a + b)[i].row < (a + b)[j].row {
      if j < |a| {
        assert (a + b)[i] == a[i] && (a + b)[j] == a[j];
      } else if i < |a| {
        assert (a + b)[i] == a[i] && (a + b)[j] == b[j - |a|];
      } else {
        assert (a + b)[i] == b[i - |a|] && (a + b)[j] == b[j - |a|];
      }
    }
  }

  /** Two nested loops: for each `a` in `i..n-1`, the writes of `cells(a)(j)`, …, `cells(a)(m-1)`. */
  function Grid(cells: nat -> nat -> seq<Draw>, i: nat, n: int, j: nat, m: int): seq<Draw> {
    Concat((a: nat) => Concat(cells(a), j, m), i, n)
  }

  /** Every pass of both loops is a single write. */
  predicate GridSingles(cells: nat -> nat -> seq<Draw>, i: nat, n: int, j: nat, m: int) {
    forall a: nat, b: nat | i <= a < n && j <= b < m :: |cells(a)(b)| == 1
  }

  /** Rows `a` of the outer loop none of whose writes cover `p` leave it alone. */
  lemma {:induction false} GridRowsNoCover(cells: nat -> nat -> seq<Draw>, i: nat, n: int, j: nat, m: int, p: Point)
    requires GridSingles(cells, i, n, j, m)
    requires forall a: nat, b: nat | i <= a < n && j <= b < m :: !Covers(cells(a)(b)[0], p)
    ensures forall a: nat | i <= a < n :: LastCover(Concat(cells(a), j, m), p) == None
  {
    forall a: nat | i <= a < n ensures LastCover(Concat(cells(a), j, m), p) == None {
      SinglesNoCover(cells(a), j, m, p);
    }
  }

  /** Two nested loops of single writes none of which covers `p` leave `p` alone. */
  lemma {:induction false} GridNoCover(cells: nat -> nat -> seq<Draw>, i: nat, n: int, j: nat, m: int, p: Point)
    requires GridSingles(cells, i, n, j, m)
    requires forall a: nat, b: nat | i <= a < n && j <= b < m :: !Covers(cells(a)(b)[0], p)
    ensures LastCover(Grid(cells, i, n, j, m), p) == None
  {
    GridRowsNoCover(cells, i, n, j, m, p);
    ConcatNoCover((a: nat) => Concat(cells(a), j, m), i, n, p);
  }

  /**
    In two nested loops of single writes, `p` shows the character of the
    last write covering it, in loop order (outer index first).
   */
  lemma {:induction false} GridLastCover(cells: nat -> nat -> seq<Draw>, i: nat, n: int, j: nat, m: int, a: nat, b: nat, p: Point)
    requires GridSingles(cells, i, n, j, m)
    requires i <= a < n && j <= b < m && Covers(cells(a)(b)[0], p)
    requires forall a': nat, b': nat | a < a' < n && j <= b' < m :: !Covers(cells(a')(b')[0], p)
    requires forall b': nat | b < b' < m :: !Covers(cells(a)(b')[0], p)
    ensures LastCover(Grid(cells, i, n, j, m), p) == Some(GlyphAt(cells(a)(b)[0], p))
  {
    GridRowsNoCover(cells, a + 1, n, j, m, p);
    assert AllSingles(cells(a), j, m);
    SinglesLastCover(cells(a), j, m, b, p);
    ConcatLastCover((a: nat) => Concat(cells(a), j, m), i, n, a, p);
  }

  /** Clipping splits over concatenation: each request is clipped on its own. */
  lemma {:induction false} EmitAppend(rows: int, cols: int, a: seq<Draw>, b: seq<Draw>)
    ensures Emit(rows, cols, a + b) == Emit(rows, cols, a) + Emit(rows, cols, b)
    decreases |b|
  {
    if |b| == 0 {
      AppendEmpty(a, b);
    } else {
      SnocAppend(a, b);
      EmitAppend(rows, cols, a, b[..|b| - 1]);
      var last := match DisplayLine(rows, cols, b[|b| - 1]) case None => [] case Some(d) => [d];
      Regroup3(Emit(rows, cols, a), Emit(rows, cols, b[..|b| - 1]), last);
    }
  }

  /**
    Clipping never changes who wins a position on a terminal row left of the
    last column, and leaves every other position unwritten.
   */
  lemma {:induction false} EmitLastCover(rows: int, cols: int, ds: seq<Draw>, p: Point)
    ensures LastCover(Emit(rows, cols, ds), p)
         == if p.0 < rows && p.1 < cols - 1 then LastCover(ds, p) else None
  {
    if |ds| > 0 {
      var init, d := ds[..|ds| - 1], ds[|ds| - 1];
      EmitLastCover(rows, cols, init, p);
      var tail := match DisplayLine(rows, cols, d) case None => [] case Some(e) => [e];
      LastCoverAppend(Emit(rows, cols, init), tail, p);
      if tail != [] {
        assert LastCover(tail, p) == if Covers(tail[0], p) then Some(GlyphAt(tail[0], p)) else None;
        if p.0 < rows && p.1 < cols - 1 {
          assert Covers(tail[0], p) <==> Covers(d, p);
        }
      }
    }
  }

  /** One misplaced request anywhere makes the terminal raise. */
  lemma {:induction false} MisplacedRaises(rows: int, cols: int, a: seq<Draw>, d: Draw, b: seq<Draw>)
    requires Misplaced(rows, cols, d)
    ensures Screenshot(rows, cols, a + [d] + b).Err?
  {
    assert (a + [d] + b)[|a|] == d;
  }

  /** Requests that raise keep raising with others drawn before and after them. */
  lemma {:induction false} RaisesWithin(rows: int, cols: int, a: seq<Draw>, b: seq<Draw>)
    requires Screenshot(rows, cols, b).Err?
    ensures Screenshot(rows, cols, a + b).Err?
  {
    var i :| 0 <= i < |b| && Misplaced(rows, cols, b[i]);
    assert (a + b)[|a| + i] == b[i];
  }

  /** When no request is misplaced, nothing reaches a negative row or column. */
  lemma {:induction false} EmitNoNegative(rows: int, cols: int, ds: seq<Draw>, p: Point)
    requires forall i | 0 <= i < |ds| :: !Misplaced(rows, cols, ds[i])
    requires p.0 < 0 || p.1 < 0
    ensures LastCover(Emit(rows, cols, ds), p) == None
  {
    if |ds| > 0 {
      var init, d := ds[..|ds| - 1], ds[|ds| - 1];
      assert !Misplaced(rows, cols, ds[|ds| - 1]);
      EmitNoNegative(rows, cols, init, p);
      var tail := match DisplayLine(rows, cols, d) case None => [] case Some(e) => [e];
      LastCoverAppend(Emit(rows, cols, init), tail, p);
      if tail != [] {
        LastCoverSingle(tail[0], p);
      }
    }
  }

  /**
    The terminal raises exactly when some request that passes the edge test
    has a negative row or column. Otherwise it shows, at each position on a
    terminal row left of the last column, the last request covering it, and
    nothing at a negative position, in the last column, right of it or below
    the last row.
   */
  lemma {:induction false} ScreenshotAt(rows: int, cols: int, ds: seq<Draw>, p: Point)
    ensures Screenshot(rows, cols, ds).Ok?
        <==> forall d | d in ds && d.row < rows && d.col < cols :: 0 <= d.row && 0 <= d.col
    ensures Screenshot(rows, cols, ds).Ok? ==>
              (Lookup(Screenshot(rows, cols, ds).value, p)
               == if 0 <= p.0 < rows && 0 <= p.1 < cols - 1 then LastCover(ds, p) else None)
  {
    if Screenshot(rows, cols, ds).Ok? {
      PaintAllIsLastCover(Emit(rows, cols, ds), p);
      EmitLastCover(rows, cols, ds, p);
      if p.0 < 0 || p.1 < 0 {
        EmitNoNegative(rows, cols, ds, p);
      }
      forall d | d in ds && d.row < rows && d.col < cols
        ensures 0 <= d.row && 0 <= d.col
      {
        var i :| 0 <= i < |ds| && ds[i] == d;
        assert !Misplaced(rows, cols, ds[i]);
      }
    } else {
      var i :| 0 <= i < |ds| && Misplaced(rows, cols, ds[i]);
      assert ds[i] in ds;
    }
  }
}
