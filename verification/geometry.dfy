/**
  Cell sizes of the monthly grid and the weekday rotation by the configured
  first day of the week. Python's `//` by a positive constant floors, which
  is what Dafny's `/` does for a positive divisor too.
 */
module Geometry {

  /** Rows per week band: the terminal minus header, day names and footer, over six weeks. */
  function CellHeight(yMax: int): (r: int)
    ensures 6 * r + 3 <= yMax < 6 * r + 9
  {
    (yMax - 3) / 6
  }

  /** Columns per day: the width over seven days. */
  function CellWidth(xMax: int): (r: int)
    ensures 7 * r <= xMax < 7 * r + 7
  {
    xMax / 7
  }

  /**
    The weekday (0 = first entry of the day-name table) shown in grid column
    `col` when the week starts on day `start` (1-based).
   */
  function DayInWeek(col: int, start: int): (r: int)
    ensures 0 <= col <= 6 && 1 <= start <= 7 ==> 0 <= r <= 6 && r == (col + start - 1) % 7
  {
    col + (start - 1) - 7 * (if col + (start - 1) > 6 then 1 else 0)
  }

  /** The grid column in which weekday `day` appears, inverse of `DayInWeek`. */
  function ColumnOf(day: int, start: int): int {
    (day - start + 1) % 7
  }

  /** A grid with at least seven columns and nine rows has cells of at least one character. */
  lemma {:induction false} CellsNotEmpty(yMax: int, xMax: int)
    requires xMax >= 7 && yMax >= 9
    ensures CellWidth(xMax) >= 1 && CellHeight(yMax) >= 1
    ensures 7 * CellWidth(xMax) <= xMax && 6 * CellHeight(yMax) + 3 <= yMax
  {
  }

  /** `ColumnOf` undoes `DayInWeek` on the seven grid columns. */
  lemma {:induction false} ColumnOfDayInWeek(col: int, start: int)
    requires 0 <= col <= 6 && 1 <= start <= 7
    ensures ColumnOf(DayInWeek(col, start), start) == col
  {
  }

  /** `DayInWeek` undoes `ColumnOf` on the seven weekdays. */
  lemma {:induction false} DayInWeekOfColumn(day: int, start: int)
    requires 0 <= day <= 6 && 1 <= start <= 7
    ensures 0 <= ColumnOf(day, start) <= 6
    ensures DayInWeek(ColumnOf(day, start), start) == day
  {
  }

  /**
    For every week start the rotation is a bijection of 0..6: distinct
    columns show distinct weekdays and every weekday has a column.
   */
  lemma {:induction false} RotationIsBijection(start: int)
    requires 1 <= start <= 7
    ensures forall c1, c2 | 0 <= c1 <= 6 && 0 <= c2 <= 6 && c1 != c2 :: DayInWeek(c1, start) != DayInWeek(c2, start)
    ensures forall d | 0 <= d <= 6 :: 0 <= ColumnOf(d, start) <= 6 && DayInWeek(ColumnOf(d, start), start) == d
  {
    forall c1, c2 | 0 <= c1 <= 6 && 0 <= c2 <= 6 && c1 != c2
      ensures DayInWeek(c1, start) != DayInWeek(c2, start)
    {
      ColumnOfDayInWeek(c1, start);
      ColumnOfDayInWeek(c2, start);
    }
    forall d | 0 <= d <= 6
      ensures 0 <= ColumnOf(d, start) <= 6 && DayInWeek(ColumnOf(d, start), start) == d
    {
      DayInWeekOfColumn(d, start);
    }
  }

  /** For a fixed column, the seven week starts show seven different weekdays. */
  lemma {:induction false} StartsGiveDistinctDays(col: int)
    requires 0 <= col <= 6
    ensures forall s1, s2 | 1 <= s1 <= 7 && 1 <= s2 <= 7 && s1 != s2 :: DayInWeek(col, s1) != DayInWeek(col, s2)
  {
  }
}
