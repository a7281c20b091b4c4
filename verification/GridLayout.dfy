/** The explorer grid of the mobile app: how many columns fit, and which entries each row shows. All widths
    are whole pixels; the source rounds them before it gets here. */
module GridLayout {

  const MIN_AVAILABLE: int := 280
  const DESKTOP_MIN_WIDTH: int := 900
  const SIDEBAR_RESERVE: int := 264

  function AvailableWidth(viewport: int, pagePadding: int, inset: int, desktop: bool): int {
    var sidebar := if desktop && viewport >= DESKTOP_MIN_WIDTH then SIDEBAR_RESERVE else 0;
    var width := viewport - pagePadding * 2 - inset * 2 - sidebar;
    if width < MIN_AVAILABLE then MIN_AVAILABLE else width
  }

  function ColumnCount(available: nat, gap: nat, minWidth: nat): nat
    requires minWidth > 0
  {
    var fitting := (available + gap) / (minWidth + gap);
    if fitting < 1 then 1 else fitting
  }

  /** n columns with gaps between them take at most the available width. */
  predicate Fits(n: nat, available: nat, gap: nat, minWidth: nat) {
    n * minWidth + (n - 1) * gap <= available
  }

  lemma QuotientBound(n: nat, total: nat, unit: nat)
    requires unit > 0
    ensures n <= total / unit <==> n * unit <= total
  {
    var q := total / unit;
    assert q * unit <= total < (q + 1) * unit;
    if n <= q {
      assert n * unit <= q * unit;
    } else {
      assert (q + 1) * unit <= n * unit;
    }
  }

  /** The column count is the largest number that fits, or one when not even one does. */
  lemma ColumnsFitExactly(n: nat, available: nat, gap: nat, minWidth: nat)
    requires minWidth > 0 && n > 0
    ensures n <= ColumnCount(available, gap, minWidth) <==> n == 1 || Fits(n, available, gap, minWidth)
  {
    QuotientBound(n, available + gap, minWidth + gap);
    assert n * (minWidth + gap) == n * minWidth + n * gap;
    assert (n - 1) * gap == n * gap - gap;
  }

  /** What the explorer asks for: n columns (more than one) are shown exactly when they fit into 280 pixels, or
      fit beside the paddings, insets and the desktop sidebar into the viewport. */
  lemma ViewportFitsExactly(n: nat, viewport: int, pagePadding: int, inset: int, desktop: bool, gap: nat, minWidth: nat)
    requires minWidth > 0 && n > 1
    ensures var available := AvailableWidth(viewport, pagePadding, inset, desktop);
            var beside := pagePadding * 2 + inset * 2 + if desktop && viewport >= 900 then 264 else 0;
            && available >= 280
            && (n <= ColumnCount(available, gap, minWidth) <==>
                  Fits(n, 280, gap, minWidth) || n * minWidth + (n - 1) * gap + beside <= viewport)
  {
    ColumnsFitExactly(n, AvailableWidth(viewport, pagePadding, inset, desktop), gap, minWidth);
  }

  // ---------------------------------------------------------------- rows

  function RowCount(n: nat, columns: nat): nat
    requires columns > 0
  {
    (n + columns - 1) / columns
  }

  /** `slice`, which stops at the end of the entries. */
  function Slice<T>(entries: seq<T>, from: nat, to: nat): seq<T>
    requires from <= to
  {
    var end := if to < |entries| then to else |entries|;
    if from < end then entries[from..end] else []
  }

  function Row<T>(entries: seq<T>, columns: nat, i: nat): seq<T> {
    Slice(entries, i * columns, i * columns + columns)
  }

  function FirstRows<T>(entries: seq<T>, columns: nat, rows: nat): seq<T> {
    if rows == 0 then [] else FirstRows(entries, columns, rows - 1) + Row(entries, columns, rows - 1)
  }

  lemma {:induction false} FirstRowsArePrefix<T>(entries: seq<T>, columns: nat, rows: nat)
    ensures FirstRows(entries, columns, rows) ==
            entries[..if rows * columns < |entries| then rows * columns else |entries|]
  {
    if rows > 0 {
      FirstRowsArePrefix(entries, columns, rows - 1);
      assert rows * columns == (rows - 1) * columns + columns;
    }
  }

  /** The row count, without division. */
  lemma RowBound(n: nat, columns: nat, i: nat)
    requires columns > 0
    ensures i < RowCount(n, columns) <==> i * columns < n
  {
    QuotientBound(i + 1, n + columns - 1, columns);
    assert (i + 1) * columns == i * columns + columns;
  }

  lemma RowIsFull<T>(entries: seq<T>, columns: nat, i: nat)
    requires columns > 0
    ensures i < RowCount(|entries|, columns) ==> 1 <= |Row(entries, columns, i)| <= columns
    ensures i + 1 < RowCount(|entries|, columns) ==> |Row(entries, columns, i)| == columns
  {
    RowBound(|entries|, columns, i);
    RowBound(|entries|, columns, i + 1);
    hide RowCount;
    assert (i + 1) * columns == i * columns + columns;
  }

  /** The rows in order are the entries; every row has between one entry and a full line, and only the last
      may be shorter. */
  lemma RowsPartitionEntries<T>(entries: seq<T>, columns: nat, i: nat)
    requires columns > 0
    ensures FirstRows(entries, columns, RowCount(|entries|, columns)) == entries
    ensures i < RowCount(|entries|, columns) ==> 1 <= |Row(entries, columns, i)| <= columns
    ensures i + 1 < RowCount(|entries|, columns) ==> |Row(entries, columns, i)| == columns
  {
    RowIsFull(entries, columns, i);
    var rows := RowCount(|entries|, columns);
    RowBound(|entries|, columns, rows);
    hide *;
    FirstRowsArePrefix(entries, columns, rows);
  }
}
