/**
  `DailyView.render`: the content of one day cell. User events, repeated
  events, holidays (when displayed) and birthdays (when displayed as well)
  share one running index; item `k` goes on row `y+k` while `k < y_cell-1`,
  and every later item repaints the hidden-events sign on row `y+y_cell-2`.

  The cell is modelled in two steps: the loops produce a sequence of
  `Slot`s, one per `display_line` call and free of any text, and `Render`
  turns each slot into its write. The layout properties are proved on the
  slots; the bridge lemmas carry them over to the writes.
 */
module Cell {
  import opened Text
  import opened Canvas
  import opened Model
  import opened Geometry
  import opened Lines

  /** One day's items, already filtered to that day by the data layer. */
  datatype DayItems = DayItems(user: seq<Event>, repeated: seq<Event>, holidays: seq<Event>, birthdays: seq<Event>)

  /** Which of the four loops an item comes from. */
  datatype Source = UserSource | RepeatedSource | HolidaySource | BirthdaySource

  /** Where a cell is drawn and the selection number its first user event continues from. */
  datatype CellAt = CellAt(cfg: Config, screen: Screen, y: int, x: int, offset: nat)

  /** One `display_line` call of the cell, before its text is known. */
  datatype Slot =
    | ItemLine(index: nat, src: Source, ev: Event)  // the item's view on row y+index
    | NumberLabel(index: nat)                        // its selection number on the same row
    | HiddenMark(src: Source)                         // the hidden-events sign
    | NothingPlanned                                  // the empty-day placeholder

  function KindOf(src: Source): EventKind {
    match src
    case UserSource => UserEvent
    case RepeatedSource => UserEvent
    case HolidaySource => HolidayEvent
    case BirthdaySource => BirthdayEvent
  }

  /** The role the hidden-events sign takes in each loop. */
  function SignRole(src: Source): (r: Role)
    ensures r != Today
  {
    match src
    case UserSource => Events
    case RepeatedSource => Events
    case HolidaySource => Holidays
    case BirthdaySource => Birthdays
  }

  /** The hidden-events sign: the hidden icon padded with spaces to the cell width. */
  function HiddenSign(cfg: Config, xMax: int): string {
    cfg.hiddenIcon + Spaces(CellWidth(xMax) - |cfg.hiddenIcon|)
  }

  /** The sign starts with the hidden icon and is blank-padded to at least the cell width. */
  lemma {:induction false} HiddenSignShape(cfg: Config, xMax: int)
    ensures var r := HiddenSign(cfg, xMax);
            && |r| == Max(CellWidth(xMax), |cfg.hiddenIcon|)
            && cfg.hiddenIcon <= r
            && forall i | |cfg.hiddenIcon| <= i < |r| :: r[i] == ' '
  {
    SpacesAreBlank(CellWidth(xMax) - |cfg.hiddenIcon|);
  }

  // ---------------------------------------------------------------------
  // The loops

  /**
    The calls for the item at running index `index` of a cell with `yc`
    rows: its view's line and, for a plain user event in selection mode,
    its number; once the rows are used up, the hidden-events sign instead.
   */
  function ItemSlots(yc: int, numbered: bool, src: Source, ev: Event, index: nat): seq<Slot> {
    if index < yc - 1 then
      [ItemLine(index, src, ev)] + (if src == UserSource && numbered then [NumberLabel(index)] else [])
    else [HiddenMark(src)]
  }

  /** One of the four loops, its items starting at running index `start`. */
  function SourceSlots(yc: int, numbered: bool, src: Source, evs: seq<Event>, start: nat): seq<Slot>
    decreases |evs|
  {
    if |evs| == 0 then [] else ItemSlots(yc, numbered, src, evs[0], start) + SourceSlots(yc, numbered, src, evs[1..], start + 1)
  }

  /** The calls of `DailyView.render`, including its early returns when holidays or birthdays are not displayed. */
  function DailySlots(c: CellAt, items: DayItems): seq<Slot> {
    var yc, numbered := CellHeight(c.screen.yMax), c.screen.selectionMode;
    var u := SourceSlots(yc, numbered, UserSource, items.user, 0);
    var rp := SourceSlots(yc, numbered, RepeatedSource, items.repeated, |items.user|);
    if !c.cfg.displayHolidays then u + rp
    else
      var h := SourceSlots(yc, numbered, HolidaySource, items.holidays, |items.user| + |items.repeated|);
      if !c.cfg.birthdaysFromAbook then u + rp + h
      else
        var b := SourceSlots(yc, numbered, BirthdaySource, items.birthdays, |items.user| + |items.repeated| + |items.holidays|);
        var index := |items.user| + |items.repeated| + |items.holidays| + |items.birthdays|;
        if index == 0 && c.screen.calState == Daily && c.cfg.showNothingPlanned then u + rp + h + b + [NothingPlanned]
        else u + rp + h + b
  }

  // ---------------------------------------------------------------------
  // Rendering

  /** The `display_line` arguments of one call. */
  function Render(c: CellAt, texts: Texts, s: Slot): Draw {
    match s
    case ItemLine(k, src, ev) =>
      Plain(c.y + k, c.x, EventText(c.cfg, c.screen, KindOf(src), c.x, ev), EventRole(KindOf(src), ev))
    case NumberLabel(k) => Plain(c.y + k, c.x, NatToString(k + c.offset + 1), Today)
    case HiddenMark(src) =>
      Plain(c.y + CellHeight(c.screen.yMax) - 2, c.x, HiddenSign(c.cfg, c.screen.xMax), SignRole(src))
    case NothingPlanned => Plain(c.y, c.x, texts.nothingPlanned, Canvas.Unimportant)
  }

  function RenderAll(c: CellAt, texts: Texts, slots: seq<Slot>): (r: seq<Draw>)
    ensures |r| == |slots|
  {
    if |slots| == 0 then [] else [Render(c, texts, slots[0])] + RenderAll(c, texts, slots[1..])
  }

  /** `DailyView.render`: the writes of its calls, in order. */
  function DailyView(c: CellAt, texts: Texts, items: DayItems): seq<Draw> {
    RenderAll(c, texts, DailySlots(c, items))
  }

  /** The row of a call, relative to the cell's top row. */
  function SlotRow(yc: int, s: Slot): int {
    match s
    case ItemLine(k, _, _) => k
    case NumberLabel(k) => k
    case HiddenMark(_) => yc - 2
    case NothingPlanned => 0
  }

  /** Each call is written on its slot's row at the cell's x; only selection numbers take the today role. */
  lemma {:induction false} RenderAt(c: CellAt, texts: Texts, s: Slot)
    ensures Render(c, texts, s).row == c.y + SlotRow(CellHeight(c.screen.yMax), s)
    ensures Render(c, texts, s).col == c.x
    ensures Render(c, texts, s).role == Today <==> s.NumberLabel?
  {
  }

  lemma {:induction false} RenderAllAt(c: CellAt, texts: Texts, slots: seq<Slot>)
    ensures forall i | 0 <= i < |slots| :: RenderAll(c, texts, slots)[i] == Render(c, texts, slots[i])
  {
    if |slots| > 0 {
      RenderAllAt(c, texts, slots[1..]);
    }
  }

  lemma {:induction false} RenderAllAppend(c: CellAt, texts: Texts, a: seq<Slot>, b: seq<Slot>)
    ensures RenderAll(c, texts, a + b) == RenderAll(c, texts, a) + RenderAll(c, texts, b)
  {
    if |a| == 0 {
      EmptyAppend(a, b);
    } else {
      ConsAppend(a, b);
      RenderAllAppend(c, texts, a[1..], b);
      Regroup3([Render(c, texts, a[0])], RenderAll(c, texts, a[1..]), RenderAll(c, texts, b));
    }
  }

  /** The selection-number calls among `slots`, in order. */
  function Numbers(slots: seq<Slot>): (r: seq<Slot>)
    ensures |r| <= |slots|
  {
    if |slots| == 0 then []
    else (if slots[0].NumberLabel? then [slots[0]] else []) + Numbers(slots[1..])
  }

  lemma {:induction false} NumbersAppend(a: seq<Slot>, b: seq<Slot>)
    ensures Numbers(a + b) == Numbers(a) + Numbers(b)
  {
    if |a| == 0 {
      EmptyAppend(a, b);
    } else {
      ConsAppend(a, b);
      NumbersAppend(a[1..], b);
      Regroup3(if a[0].NumberLabel? then [a[0]] else [], Numbers(a[1..]), Numbers(b));
    }
  }

  /** The writes in the today role are exactly the renderings of the selection-number calls. */
  lemma {:induction false} RenderTodayIsNumbers(c: CellAt, texts: Texts, slots: seq<Slot>)
    ensures WithRole(RenderAll(c, texts, slots), Today) == RenderAll(c, texts, Numbers(slots))
  {
    if |slots| > 0 {
      var head := if slots[0].NumberLabel? then [slots[0]] else [];
      RenderAt(c, texts, slots[0]);
      RenderTodayIsNumbers(c, texts, slots[1..]);
      RenderAllAppend(c, texts, head, Numbers(slots[1..]));
      assert RenderAll(c, texts, head) == if slots[0].NumberLabel? then [Render(c, texts, slots[0])] else [];
    }
  }

  // ---------------------------------------------------------------------
  // Reference: the items reaching the loops as one list

  /** An item as its loop sees it. */
  datatype Entry = Entry(src: Source, ev: Event)

  function Tag(src: Source, evs: seq<Event>): (r: seq<Entry>)
    ensures |r| == |evs|
  {
    if |evs| == 0 then [] else [Entry(src, evs[0])] + Tag(src, evs[1..])
  }

  lemma {:induction false} TagAt(src: Source, evs: seq<Event>)
    ensures forall i | 0 <= i < |evs| :: Tag(src, evs)[i] == Entry(src, evs[i])
  {
    if |evs| > 0 {
      TagAt(src, evs[1..]);
    }
  }

  /** The items the loops reach, in the order they are drawn. */
  function Entries(cfg: Config, items: DayItems): seq<Entry> {
    Tag(UserSource, items.user) + Others(cfg, items)
  }

  /** The reached items after the plain user events. */
  function Others(cfg: Config, items: DayItems): seq<Entry> {
    var rp := Tag(RepeatedSource, items.repeated);
    if !cfg.displayHolidays then rp
    else if !cfg.birthdaysFromAbook then rp + Tag(HolidaySource, items.holidays)
    else rp + Tag(HolidaySource, items.holidays) + Tag(BirthdaySource, items.birthdays)
  }

  /** The number of items that reach the loops (the final value of the running index). */
  function Reached(cfg: Config, items: DayItems): nat {
    |Entries(cfg, items)|
  }

  /** The calls for the entries `es`, the first at running index `start`. */
  function FlatSlots(yc: int, numbered: bool, es: seq<Entry>, start: nat): seq<Slot>
    decreases |es|
  {
    if |es| == 0 then [] else ItemSlots(yc, numbered, es[0].src, es[0].ev, start) + FlatSlots(yc, numbered, es[1..], start + 1)
  }

  lemma {:induction false} FlatAppend(yc: int, numbered: bool, a: seq<Entry>, b: seq<Entry>, start: nat)
    ensures FlatSlots(yc, numbered, a + b, start) == FlatSlots(yc, numbered, a, start) + FlatSlots(yc, numbered, b, start + |a|)
    decreases |a|
  {
    if |a| == 0 {
      EmptyAppend(a, b);
    } else {
      ConsAppend(a, b);
      FlatAppend(yc, numbered, a[1..], b, start + 1);
      Regroup3(ItemSlots(yc, numbered, a[0].src, a[0].ev, start), FlatSlots(yc, numbered, a[1..], start + 1), FlatSlots(yc, numbered, b, start + |a|));
    }
  }

  lemma {:induction false} SourceIsFlat(yc: int, numbered: bool, src: Source, evs: seq<Event>, start: nat)
    ensures SourceSlots(yc, numbered, src, evs, start) == FlatSlots(yc, numbered, Tag(src, evs), start)
    decreases |evs|
  {
    if |evs| > 0 {
      ConsAppend([Entry(src, evs[0])], Tag(src, evs[1..]));
      EmptyAppend([Entry(src, evs[0])][1..], Tag(src, evs[1..]));
      SourceIsFlat(yc, numbered, src, evs[1..], start + 1);
    }
  }

  /** The placeholder is drawn only for an empty cell of the daily screen with both optional sources on. */
  predicate ShowsPlaceholder(c: CellAt, items: DayItems) {
    && c.cfg.displayHolidays && c.cfg.birthdaysFromAbook
    && |items.user| + |items.repeated| + |items.holidays| + |items.birthdays| == 0
    && c.screen.calState == Daily && c.cfg.showNothingPlanned
  }

  /** The loops over user and repeated events as one flat loop. */
  lemma {:induction false} TwoLoopsAreFlat(yc: int, nb: bool, items: DayItems)
    ensures FlatSlots(yc, nb, Tag(UserSource, items.user) + Tag(RepeatedSource, items.repeated), 0)
         == SourceSlots(yc, nb, UserSource, items.user, 0) + SourceSlots(yc, nb, RepeatedSource, items.repeated, |items.user|)
  {
    SourceIsFlat(yc, nb, UserSource, items.user, 0);
    SourceIsFlat(yc, nb, RepeatedSource, items.repeated, |items.user|);
    FlatAppend(yc, nb, Tag(UserSource, items.user), Tag(RepeatedSource, items.repeated), 0);
  }

  /** The loops over user and repeated events and holidays as one flat loop. */
  lemma {:induction false} ThreeLoopsAreFlat(yc: int, nb: bool, items: DayItems)
    ensures FlatSlots(yc, nb, Tag(UserSource, items.user) + (Tag(RepeatedSource, items.repeated) + Tag(HolidaySource, items.holidays)), 0)
         == SourceSlots(yc, nb, UserSource, items.user, 0) + SourceSlots(yc, nb, RepeatedSource, items.repeated, |items.user|)
            + SourceSlots(yc, nb, HolidaySource, items.holidays, |items.user| + |items.repeated|)
  {
    var tu, tr, th := Tag(UserSource, items.user), Tag(RepeatedSource, items.repeated), Tag(HolidaySource, items.holidays);
    Regroup3(tu, tr, th);
    TwoLoopsAreFlat(yc, nb, items);
    SourceIsFlat(yc, nb, HolidaySource, items.holidays, |items.user| + |items.repeated|);
    FlatAppend(yc, nb, tu + tr, th, 0);
  }

  /** All four loops as one flat loop. */
  lemma {:induction false} FourLoopsAreFlat(yc: int, nb: bool, items: DayItems)
    ensures FlatSlots(yc, nb, Tag(UserSource, items.user) + (Tag(RepeatedSource, items.repeated) + Tag(HolidaySource, items.holidays) + Tag(BirthdaySource, items.birthdays)), 0)
         == SourceSlots(yc, nb, UserSource, items.user, 0) + SourceSlots(yc, nb, RepeatedSource, items.repeated, |items.user|)
            + SourceSlots(yc, nb, HolidaySource, items.holidays, |items.user| + |items.repeated|)
            + SourceSlots(yc, nb, BirthdaySource, items.birthdays, |items.user| + |items.repeated| + |items.holidays|)
  {
    var tu, tr, th, tb := Tag(UserSource, items.user), Tag(RepeatedSource, items.repeated), Tag(HolidaySource, items.holidays), Tag(BirthdaySource, items.birthdays);
    Regroup4(tu, tr, th, tb);
    Regroup3(tu, tr, th);
    ThreeLoopsAreFlat(yc, nb, items);
    SourceIsFlat(yc, nb, BirthdaySource, items.birthdays, |items.user| + |items.repeated| + |items.holidays|);
    FlatAppend(yc, nb, tu + tr + th, tb, 0);
  }

  /**
    The four loops sharing one running index make the calls one loop over
    the reached items makes, followed by the placeholder when it applies.
   */
  lemma {:induction false} DailyIsFlat(c: CellAt, items: DayItems)
    ensures var flat := FlatSlots(CellHeight(c.screen.yMax), c.screen.selectionMode, Entries(c.cfg, items), 0);
            DailySlots(c, items) == if ShowsPlaceholder(c, items) then flat + [NothingPlanned] else flat
  {
    var yc, nb := CellHeight(c.screen.yMax), c.screen.selectionMode;
    var tu, tr, th, tb := Tag(UserSource, items.user), Tag(RepeatedSource, items.repeated), Tag(HolidaySource, items.holidays), Tag(BirthdaySource, items.birthdays);
    if !c.cfg.displayHolidays {
      assert Entries(c.cfg, items) == tu + tr;
      TwoLoopsAreFlat(yc, nb, items);
    } else if !c.cfg.birthdaysFromAbook {
      assert Entries(c.cfg, items) == tu + (tr + th);
      ThreeLoopsAreFlat(yc, nb, items);
    } else {
      assert Entries(c.cfg, items) == tu + (tr + th + tb);
      FourLoopsAreFlat(yc, nb, items);
    }
  }

  // ---------------------------------------------------------------------
  // Properties of the reached items' calls

  /** The relative rows of `slots`. */
  function SlotRows(yc: int, slots: seq<Slot>): set<int> {
    set i | 0 <= i < |slots| :: SlotRow(yc, slots[i])
  }

  lemma {:induction false} SlotRowsAppend(yc: int, a: seq<Slot>, b: seq<Slot>)
    ensures SlotRows(yc, a + b) == SlotRows(yc, a) + SlotRows(yc, b)
  {
    var ab := a + b;
    forall k | k in SlotRows(yc, a + b) ensures k in SlotRows(yc, a) + SlotRows(yc, b) {
      var i :| 0 <= i < |ab| && SlotRow(yc, ab[i]) == k;
      if i >= |a| {
        assert ab[i] == b[i - |a|];
      }
    }
    forall k | k in SlotRows(yc, a) + SlotRows(yc, b) ensures k in SlotRows(yc, a + b) {
      if k in SlotRows(yc, a) {
        var i :| 0 <= i < |a| && SlotRow(yc, a[i]) == k;
        assert ab[i] == a[i];
      } else {
        var i :| 0 <= i < |b| && SlotRow(yc, b[i]) == k;
        assert ab[|a| + i] == b[i];
      }
    }
  }

  /**
    Rows used by the entries from running index `s` on: the visible rows
    `s .. min(s+n, yc-1)-1`, plus the sign row `yc-2` when some entry
    overflows.
   */
  lemma {:induction false} FlatRows(yc: int, numbered: bool, es: seq<Entry>, s: nat)
    ensures forall k :: k in SlotRows(yc, FlatSlots(yc, numbered, es, s)) <==>
              (s <= k < Min(s + |es|, yc - 1)) || (s + |es| > yc - 1 && |es| > 0 && k == yc - 2)
    decreases |es|
  {
    if |es| > 0 {
      var item := ItemSlots(yc, numbered, es[0].src, es[0].ev, s);
      FlatRows(yc, numbered, es[1..], s + 1);
      SlotRowsAppend(yc, item, FlatSlots(yc, numbered, es[1..], s + 1));
      if s < yc - 1 {
        assert SlotRows(yc, item) == {s} by {
          assert SlotRow(yc, item[0]) == s;
          assert forall i | 0 <= i < |item| :: SlotRow(yc, item[i]) == s;
        }
      } else {
        assert SlotRows(yc, item) == {yc - 2} by {
          assert SlotRow(yc, item[0]) == yc - 2;
        }
      }
    }
  }

  /** The last call of overflowing entries is the hidden-events sign of the last entry's loop. */
  lemma {:induction false} FlatSignLast(yc: int, numbered: bool, es: seq<Entry>, s: nat)
    requires |es| > 0 && s + |es| > yc - 1
    ensures var f := FlatSlots(yc, numbered, es, s);
            |f| > 0 && f[|f| - 1] == HiddenMark(es[|es| - 1].src)
    decreases |es|
  {
    if |es| > 1 {
      FlatSignLast(yc, numbered, es[1..], s + 1);
    }
  }

  /** The numbers `from`, …, `to-1` as calls. */
  function NumberRange(from: nat, to: int): seq<Slot>
    decreases to - from
  {
    if from >= to then [] else [NumberLabel(from)] + NumberRange(from + 1, to)
  }

  /** An item is numbered only when it is a visible plain user event in selection mode. */
  lemma {:induction false} ItemNumbers(yc: int, numbered: bool, src: Source, ev: Event, s: nat)
    ensures Numbers(ItemSlots(yc, numbered, src, ev, s)) == if s < yc - 1 && src == UserSource && numbered then [NumberLabel(s)] else []
  {
    var item := ItemSlots(yc, numbered, src, ev, s);
    if s < yc - 1 && src == UserSource && numbered {
      assert item[1..][1..] == [];
    } else {
      assert item[1..] == [];
    }
  }

  /** Plain user events in selection mode are numbered by their index while it is visible. */
  lemma {:induction false} FlatNumbersUser(yc: int, numbered: bool, es: seq<Entry>, s: nat)
    requires forall i | 0 <= i < |es| :: es[i].src == UserSource
    ensures Numbers(FlatSlots(yc, numbered, es, s)) == if numbered then NumberRange(s, Min(s + |es|, yc - 1)) else []
    decreases |es|
  {
    if |es| > 0 {
      var item, rest := ItemSlots(yc, numbered, es[0].src, es[0].ev, s), FlatSlots(yc, numbered, es[1..], s + 1);
      var m := Min(s + |es|, yc - 1);
      ItemNumbers(yc, numbered, es[0].src, es[0].ev, s);
      FlatNumbersUser(yc, numbered, es[1..], s + 1);
      assert Min(s + 1 + |es[1..]|, yc - 1) == m;
      NumbersAppend(item, rest);
      if !numbered {
        EmptyAppend(Numbers(item), Numbers(rest));
      } else if s < yc - 1 {
        assert NumberRange(s, m) == [NumberLabel(s)] + NumberRange(s + 1, m);
      } else {
        assert NumberRange(s, m) == [] && NumberRange(s + 1, m) == [];
        EmptyAppend(Numbers(item), Numbers(rest));
      }
    }
  }

  /** Repeated events, holidays and birthdays are never numbered. */
  lemma {:induction false} FlatNumbersOthers(yc: int, numbered: bool, es: seq<Entry>, s: nat)
    requires forall i | 0 <= i < |es| :: es[i].src != UserSource
    ensures Numbers(FlatSlots(yc, numbered, es, s)) == []
    decreases |es|
  {
    if |es| > 0 {
      var item, rest := ItemSlots(yc, numbered, es[0].src, es[0].ev, s), FlatSlots(yc, numbered, es[1..], s + 1);
      ItemNumbers(yc, numbered, es[0].src, es[0].ev, s);
      FlatNumbersOthers(yc, numbered, es[1..], s + 1);
      NumbersAppend(item, rest);
      EmptyAppend(Numbers(item), Numbers(rest));
    }
  }

  lemma {:induction false} TagSources(src: Source, evs: seq<Event>)
    ensures forall i | 0 <= i < |Tag(src, evs)| :: Tag(src, evs)[i].src == src
  {
    TagAt(src, evs);
  }

  lemma {:induction false} OthersNotUser(cfg: Config, items: DayItems)
    ensures forall i | 0 <= i < |Others(cfg, items)| :: Others(cfg, items)[i].src != UserSource
  {
    TagSources(RepeatedSource, items.repeated);
    TagSources(HolidaySource, items.holidays);
    TagSources(BirthdaySource, items.birthdays);
  }

  // ---------------------------------------------------------------------
  // Properties of a cell

  /** The rows `slots` use, relative to the cell: those of the reached items, or the placeholder's first row. */
  lemma {:induction false} DailyRows(c: CellAt, items: DayItems)
    ensures var yc, n, rows := CellHeight(c.screen.yMax), Reached(c.cfg, items), SlotRows(CellHeight(c.screen.yMax), DailySlots(c, items));
            && (yc >= 2 ==> forall k | k in rows :: 0 <= k <= yc - 2)
            && (yc < 2 && n > 0 ==> rows == {yc - 2})
            && (yc >= 2 && n > 0 ==> forall k :: k in rows <==> 0 <= k < Min(n, yc - 1))
  {
    var yc := CellHeight(c.screen.yMax);
    var es := Entries(c.cfg, items);
    var flat := FlatSlots(yc, c.screen.selectionMode, es, 0);
    DailyIsFlat(c, items);
    FlatRows(yc, c.screen.selectionMode, es, 0);
    if ShowsPlaceholder(c, items) {
      assert es == [];
      assert flat == [];
      assert SlotRows(yc, [NothingPlanned]) == {0} by {
        assert SlotRow(yc, [NothingPlanned][0]) == 0;
      }
      SlotRowsAppend(yc, flat, [NothingPlanned]);
    }
  }

  /** The rows of a sequence of writes. */
  function DrawRows(ds: seq<Draw>): set<int> {
    set i | 0 <= i < |ds| :: ds[i].row
  }

  /** Rendering puts each slot on its relative row below the cell's top row. */
  lemma {:induction false} RenderRows(c: CellAt, texts: Texts, slots: seq<Slot>)
    ensures forall i | 0 <= i < |slots| :: RenderAll(c, texts, slots)[i].row == c.y + SlotRow(CellHeight(c.screen.yMax), slots[i])
  {
    RenderAllAt(c, texts, slots);
    forall i | 0 <= i < |slots| ensures RenderAll(c, texts, slots)[i].row == c.y + SlotRow(CellHeight(c.screen.yMax), slots[i]) {
      RenderAt(c, texts, slots[i]);
    }
  }

  /** A row is written exactly when some slot sits on it. */
  lemma {:induction false} RenderRowsIff(c: CellAt, texts: Texts, slots: seq<Slot>)
    ensures forall row :: row in DrawRows(RenderAll(c, texts, slots)) <==> row - c.y in SlotRows(CellHeight(c.screen.yMax), slots)
  {
    var yc := CellHeight(c.screen.yMax);
    var ds := RenderAll(c, texts, slots);
    RenderRows(c, texts, slots);
    forall row ensures row in DrawRows(ds) <==> row - c.y in SlotRows(yc, slots) {
      if row in DrawRows(ds) {
        var i :| 0 <= i < |ds| && ds[i].row == row;
        assert SlotRow(yc, slots[i]) == row - c.y;
      }
      if row - c.y in SlotRows(yc, slots) {
        var i :| 0 <= i < |slots| && SlotRow(yc, slots[i]) == row - c.y;
        assert ds[i].row == row;
      }
    }
  }

  /**
    A cell writes only on rows `y .. y+y_cell-2`; with fewer than two rows
    per cell every write of an item lands on the sign row `y+y_cell-2`,
    above the cell. With at least one item and two rows, the rows written
    are exactly the first `min(items, y_cell-1)` rows of the cell.
   */
  lemma {:induction false} CellRows(c: CellAt, texts: Texts, items: DayItems)
    ensures var yc, rows := CellHeight(c.screen.yMax), DrawRows(DailyView(c, texts, items));
            yc >= 2 ==> forall row | row in rows :: c.y <= row <= c.y + yc - 2
    ensures var yc, rows := CellHeight(c.screen.yMax), DrawRows(DailyView(c, texts, items));
            yc < 2 && Reached(c.cfg, items) > 0 ==> rows == {c.y + yc - 2}
    ensures var yc, n, rows := CellHeight(c.screen.yMax), Reached(c.cfg, items), DrawRows(DailyView(c, texts, items));
            yc >= 2 && n > 0 ==> forall row :: row in rows <==> c.y <= row < c.y + Min(n, yc - 1)
  {
    var yc, n := CellHeight(c.screen.yMax), Reached(c.cfg, items);
    var rel := SlotRows(yc, DailySlots(c, items));
    var rows := DrawRows(DailyView(c, texts, items));
    DailyRows(c, items);
    RenderRowsIff(c, texts, DailySlots(c, items));
    if yc >= 2 && n > 0 {
      forall row ensures row in rows <==> c.y <= row < c.y + Min(n, yc - 1) {
        assert row in rows <==> row - c.y in rel;
      }
    }
    if yc < 2 && n > 0 {
      forall row ensures row in rows <==> row == c.y + yc - 2 {
        assert row in rows <==> row - c.y in rel;
      }
    }
  }

  /**
    When more items reach the loops than the `y_cell-1` rows hold, the
    cell's last write, hence the last write to row `y+y_cell-2`, is the
    hidden-events sign: the hidden icon padded to the cell width.
   */
  lemma {:induction false} OverflowShowsSign(c: CellAt, texts: Texts, items: DayItems)
    requires Reached(c.cfg, items) > Max(0, CellHeight(c.screen.yMax) - 1)
    ensures var ds := DailyView(c, texts, items);
            && |ds| > 0
            && ds[|ds| - 1].row == c.y + CellHeight(c.screen.yMax) - 2
            && ds[|ds| - 1].col == c.x
            && ds[|ds| - 1].text == HiddenSign(c.cfg, c.screen.xMax)
            && ds[|ds| - 1].role in {Events, Holidays, Birthdays}
  {
    var es := Entries(c.cfg, items);
    var slots := DailySlots(c, items);
    DailyIsFlat(c, items);
    FlatSignLast(CellHeight(c.screen.yMax), c.screen.selectionMode, es, 0);
    assert !ShowsPlaceholder(c, items);
    RenderAllAt(c, texts, slots);
  }

  /** The selection numbers `from+offset+1`, …, `to+offset` of a cell, the number of index `k` on row `y+k`. */
  function CellNumbers(c: CellAt, from: nat, to: int): seq<Draw>
    decreases to - from
  {
    if from >= to then [] else [Plain(c.y + from, c.x, NatToString(from + c.offset + 1), Today)] + CellNumbers(c, from + 1, to)
  }

  lemma {:induction false} RenderNumberRange(c: CellAt, texts: Texts, from: nat, to: int)
    ensures RenderAll(c, texts, NumberRange(from, to)) == CellNumbers(c, from, to)
    decreases if to > from then to - from else 0
  {
    if from < to {
      RenderNumberRange(c, texts, from + 1, to);
    }
  }

  /**
    Selection numbering: the only numbered rows are the visible plain user
    events, the `k`-th of them showing `offset+k+1` at the cell's x;
    repeated events, holidays and birthdays are never numbered, and nothing
    is numbered outside selection mode.
   */
  lemma {:induction false} CellNumbering(c: CellAt, texts: Texts, items: DayItems)
    ensures WithRole(DailyView(c, texts, items), Today)
         == if c.screen.selectionMode then CellNumbers(c, 0, Min(|items.user|, CellHeight(c.screen.yMax) - 1)) else []
  {
    DailyNumbers(c, items);
    RenderTodayIsNumbers(c, texts, DailySlots(c, items));
    RenderNumberRange(c, texts, 0, Min(|items.user|, CellHeight(c.screen.yMax) - 1));
  }

  /** The selection-number calls of the reached items. */
  lemma {:induction false} EntriesNumbers(yc: int, nb: bool, cfg: Config, items: DayItems)
    ensures Numbers(FlatSlots(yc, nb, Entries(cfg, items), 0)) == if nb then NumberRange(0, Min(|items.user|, yc - 1)) else []
  {
    var tu, rest := Tag(UserSource, items.user), Others(cfg, items);
    var ft, fr := FlatSlots(yc, nb, tu, 0), FlatSlots(yc, nb, rest, |tu|);
    assert Entries(cfg, items) == tu + rest;
    FlatAppend(yc, nb, tu, rest, 0);
    assert FlatSlots(yc, nb, tu + rest, 0) == ft + fr;
    TagSources(UserSource, items.user);
    OthersNotUser(cfg, items);
    FlatNumbersUser(yc, nb, tu, 0);
    FlatNumbersOthers(yc, nb, rest, |tu|);
    NumbersAppend(ft, fr);
    AppendEmpty(Numbers(ft), Numbers(fr));
  }

  /** The selection-number calls of a cell, the placeholder included. */
  lemma {:induction false} DailyNumbers(c: CellAt, items: DayItems)
    ensures Numbers(DailySlots(c, items)) == if c.screen.selectionMode then NumberRange(0, Min(|items.user|, CellHeight(c.screen.yMax) - 1)) else []
  {
    var flat := FlatSlots(CellHeight(c.screen.yMax), c.screen.selectionMode, Entries(c.cfg, items), 0);
    DailyIsFlat(c, items);
    EntriesNumbers(CellHeight(c.screen.yMax), c.screen.selectionMode, c.cfg, items);
    if ShowsPlaceholder(c, items) {
      NumbersAppend(flat, [NothingPlanned]);
      assert Numbers([NothingPlanned]) == [] by {
        assert [NothingPlanned][1..] == [];
      }
      AppendEmpty(Numbers(flat), Numbers([NothingPlanned]));
    }
  }

  /**
    The placeholder: a cell with items never shows it, and an empty cell
    shows exactly the placeholder when it applies and nothing otherwise.
   */
  lemma {:induction false} PlaceholderOnlyWhenEmpty(c: CellAt, texts: Texts, items: DayItems)
    ensures Reached(c.cfg, items) == 0 ==>
              DailyView(c, texts, items) == if ShowsPlaceholder(c, items) then [Plain(c.y, c.x, texts.nothingPlanned, Canvas.Unimportant)] else []
    ensures ShowsPlaceholder(c, items) ==> Reached(c.cfg, items) == 0
  {
    DailyIsFlat(c, items);
    if Reached(c.cfg, items) == 0 {
      assert Entries(c.cfg, items) == [];
    }
  }
}
