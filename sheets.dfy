/** Worksheets and workbooks as the consolidator uses them: a sheet is its stored rows, row r
    (counting from 1) being the (r-1)-th element; cells beyond a stored row read as empty. */
module Sheets {
  import opened Cells

  type Sheet = seq<Row>

  function Min(a: int, b: int): int
  {
    if a <= b then a else b
  }

  /** The value of the cell at row r, column c (both from 1). */
  function CellAt(s: Sheet, r: int, c: int): Cell
  {
    if 1 <= r <= |s| && 1 <= c <= |s[r - 1]| then s[r - 1][c - 1] else Empty
  }

  /** openpyxl stores no row beyond the last one holding a cell: the last stored row, if any, has
      a cell. Every sheet a workbook loads is trimmed, and so is every master the run saves. */
  predicate Trimmed(s: Sheet)
  {
    |s| == 0 || |s[|s| - 1]| > 0
  }

  /** The worksheet's max_row: every stored row lies within it, it is at least 1, and on a trimmed
      sheet it is the last row that holds a cell (1 when none does). */
  function MaxRow(s: Sheet): (n: nat)
    ensures n >= 1
    ensures |s| <= n
    ensures Trimmed(s) && |s| > 0 ==> n <= |s| && |s[n - 1]| > 0
    ensures Trimmed(s) && |s| == 0 ==> n == 1
  {
    if |s| == 0 then 1 else |s|
  }

  /** The length of the longest stored row. */
  function Widest(s: Sheet): (n: nat)
    ensures forall k :: 0 <= k < |s| ==> |s[k]| <= n
    ensures n == 0 || exists k :: 0 <= k < |s| && |s[k]| == n
  {
    if s == [] then 0
    else
      var w := Widest(s[..|s| - 1]);
      if |s[|s| - 1]| > w then |s[|s| - 1]| else w
  }

  /** The worksheet's max_column: the widest stored row, and 1 for a sheet without cells. */
  function MaxColumn(s: Sheet): (n: nat)
    ensures n >= 1
    ensures forall k :: 0 <= k < |s| ==> |s[k]| <= n
    ensures n == 1 || exists k :: 0 <= k < |s| && |s[k]| == n
  {
    if Widest(s) == 0 then 1 else Widest(s)
  }

  /** A row extended with empty cells to at least `width` cells. */
  function Pad(row: Row, width: nat): (r: Row)
    ensures |r| == if |row| < width then width else |row|
    ensures r[..|row|] == row
    ensures forall c :: |row| <= c < |r| ==> r[c] == Empty
  {
    if |row| < width then row + seq(width - |row|, _ => Empty) else row
  }

  /** The values iter_rows yields for row r read up to column `width`: missing cells are empty. */
  function RowValues(s: Sheet, r: int, width: nat): Row
  {
    seq(width, c requires 0 <= c < width => CellAt(s, r, c + 1))
  }

  /** The contract of RowValues: reading a row yields the stored row padded with empty cells and
      cut to `width`, or only empty cells for a row that is not stored; a stored row exactly
      `width` wide is read as it is. */
  lemma RowValuesPadded(s: Sheet, r: int, width: nat)
    ensures 1 <= r <= |s| ==> RowValues(s, r, width) == Pad(s[r - 1], width)[..width]
    ensures 1 <= r <= |s| && |s[r - 1]| == width ==> RowValues(s, r, width) == s[r - 1]
    ensures !(1 <= r <= |s|) ==> RowValues(s, r, width) == seq(width, _ => Empty)
  {
    if 1 <= r <= |s| && |s[r - 1]| == width {
      assert Pad(s[r - 1], width) == s[r - 1];
      assert s[r - 1][..width] == s[r - 1];
    }
  }

  /** Reading a row of a worksheet (not opened read-only) creates the cells it yields: the sheet
      then stores at least r rows, and row r at least `width` cells. */
  function Materialise(s: Sheet, r: nat, width: nat): (m: Sheet)
    requires r >= 1
    ensures |m| == if |s| < r then r else |s|
    ensures |m[r - 1]| >= width
  {
    if |s| < r then s + seq(r - 1 - |s|, _ => []) + [seq(width, _ => Empty)]
    else s[..r - 1] + [Pad(s[r - 1], width)] + s[r..]
  }

  /** Creating those cells changes no value, and no stored row but row r. */
  lemma MaterialiseKeepsValues(s: Sheet, r: nat, width: nat)
    requires r >= 1
    ensures forall k, c :: CellAt(Materialise(s, r, width), k, c) == CellAt(s, k, c)
    ensures forall k :: 0 <= k < |s| && k != r - 1 ==> Materialise(s, r, width)[k] == s[k]
  {
    var m := Materialise(s, r, width);
    forall k, c ensures CellAt(m, k, c) == CellAt(s, k, c) {
      if 1 <= k <= |m| && k != r && k <= |s| {
        assert m[k - 1] == s[k - 1];
      } else if k == r && r <= |s| {
        assert m[k - 1] == Pad(s[r - 1], width);
      }
    }
  }

  /** An openpyxl worksheet, changed in place. */
  class Worksheet {
    var rows: Sheet

    constructor (rows: Sheet)
      ensures this.rows == rows
    {
      this.rows := rows;
    }

    /** iter_rows over the single row r, up to column `width`. */
    method IterRow(r: nat, width: nat) returns (cells: Row)
      requires r >= 1
      modifies this
      ensures cells == RowValues(old(rows), r, width)
      ensures rows == Materialise(old(rows), r, width)
    {
      cells := RowValues(rows, r, width);
      rows := Materialise(rows, r, width);
    }

    /** delete_rows(idx, amount): rows idx .. idx + amount - 1 go, the rows below move up. */
    method DeleteRows(idx: nat, amount: nat)
      requires idx >= 1
      modifies this
      ensures rows == old(rows)[..Min(idx - 1, |old(rows)|)] + old(rows)[Min(idx - 1 + amount, |old(rows)|)..]
    {
      rows := rows[..Min(idx - 1, |rows|)] + rows[Min(idx - 1 + amount, |rows|)..];
    }

    /** append(row): the row is written below the last row. */
    method Append(row: Row)
      modifies this
      ensures rows == old(rows) + [row]
    {
      rows := rows + [row];
    }
  }

  /** An openpyxl workbook: its worksheets by name. */
  class Workbook {
    var sheets: map<string, Worksheet>

    /** load_workbook: one fresh worksheet per sheet of the file. */
    constructor Load(book: map<string, Sheet>)
      ensures sheets.Keys == book.Keys
      ensures forall n :: n in book ==> sheets[n].rows == book[n]
      ensures forall n :: n in sheets ==> fresh(sheets[n])
    {
      var left := book.Keys;
      var loaded: map<string, Worksheet> := map[];
      while left != {}
        invariant left <= book.Keys
        invariant loaded.Keys == book.Keys - left
        invariant forall n :: n in loaded ==> loaded[n].rows == book[n] && fresh(loaded[n])
        decreases left
      {
        var n :| n in left;
        var ws := new Worksheet(book[n]);
        loaded := loaded[n := ws];
        left := left - {n};
      }
      sheets := loaded;
    }

    /** remove(wb[name]). */
    method Remove(name: string)
      modifies this
      ensures sheets == old(sheets) - {name}
    {
      sheets := sheets - {name};
    }
  }
}
