/** The consolidation run started by the "Consolidate Files" button: the first selected file is the
    template whose "Data Table" sheet becomes the master; every selected file, the template
    included, then has its data rows appended to it. */
module Consolidation {
  import opened Cells
  import opened Sheets

  /** Rows 1 .. HeaderRows are the header; data starts on the row after. */
  const HeaderRows: nat := 12
  /** The only sheet that is read from each file and kept in the output. */
  const TargetSheet: string := "Data Table"

  datatype Option<T> = None | Some(value: T)

  /** A selected file as the run meets it. `Unreadable`: load_workbook raises. `Opened`: the file
      loads, with its sheets by name; `fault` is a row (from 1) of its "Data Table" sheet whose
      parsing raises (a corrupt file), or None. */
  datatype SourceFile = Unreadable | Opened(book: map<string, Sheet>, fault: Option<nat>)

  /** The template is loaded in full (formulas kept, not read-only), so a corrupt file fails
      already at load time. */
  predicate LoadsInFull(f: SourceFile)
  {
    f.Opened? && f.fault.None?
  }

  /** A read-only pass parses the sheet's rows from row 1 on, skipping those before min_row, up to
      max_row: it raises when the faulty row is one of rows 1 .. max_row, header rows included. */
  predicate ReadFaults(s: Sheet, fault: Option<nat>)
  {
    fault.Some? && 1 <= fault.value <= MaxRow(s)
  }

  /** The data rows of a sheet: those after the header, up to max_row. */
  function DataRowCount(s: Sheet): nat
  {
    if MaxRow(s) > HeaderRows then MaxRow(s) - HeaderRows else 0
  }

  /** The normalised values of rows HeaderRows + 1 .. max_row, each read up to column `width`: one
      row per data row. */
  function DataRegion(s: Sheet, width: nat): (rows: seq<Row>)
    ensures |rows| == DataRowCount(s)
  {
    seq(DataRowCount(s), k => NormalizeRow(RowValues(s, HeaderRows + 1 + k, width)))
  }

  /** Each row of the data region is `width` cells without a float, cell c of the k-th being the
      sheet's cell at row HeaderRows + 1 + k, column c + 1, normalised. */
  lemma DataRegionRows(s: Sheet, width: nat)
    ensures forall k :: 0 <= k < |DataRegion(s, width)| ==>
              |DataRegion(s, width)[k]| == width && Normalized(DataRegion(s, width)[k])
    ensures forall k, c :: 0 <= k < |DataRegion(s, width)| && 0 <= c < width ==>
              DataRegion(s, width)[k][c] == Normalize(CellAt(s, HeaderRows + 1 + k, c + 1))
  {
    var rows := DataRegion(s, width);
    forall k | 0 <= k < |rows|
      ensures |rows[k]| == width && Normalized(rows[k])
      ensures forall c :: 0 <= c < width ==> rows[k][c] == Normalize(CellAt(s, HeaderRows + 1 + k, c + 1))
    {
      var row := RowValues(s, HeaderRows + 1 + k, width);
      assert rows[k] == NormalizeRow(row);
      NormalizeRowIsNormalized(row);
    }
  }

  /** row_data[:max_col]: the first cells of the row, at most maxCol of them; a row no wider than
      that is kept whole. */
  function Clip(row: Row, maxCol: nat): (r: Row)
    ensures |r| == Min(|row|, maxCol)
    ensures forall c :: 0 <= c < |r| ==> r[c] == row[c]
    ensures |row| <= maxCol ==> r == row
  {
    assert row[..|row|] == row;
    row[..Min(|row|, maxCol)]
  }

  /** Every row clipped to `maxCol` cells. */
  function ClipAll(rows: seq<Row>, maxCol: nat): (r: seq<Row>)
    ensures |r| == |rows|
    ensures forall k :: 0 <= k < |rows| ==> r[k] == Clip(rows[k], maxCol)
  {
    if rows == [] then [] else ClipAll(rows[..|rows| - 1], maxCol) + [Clip(rows[|rows| - 1], maxCol)]
  }

  /** Clipping rows that are no wider than the limit leaves them as they are. */
  lemma {:induction false} ClipAllNarrow(rows: seq<Row>, maxCol: nat)
    requires forall k :: 0 <= k < |rows| ==> |rows[k]| <= maxCol
    ensures ClipAll(rows, maxCol) == rows
  {
    if rows != [] {
      ClipAllNarrow(rows[..|rows| - 1], maxCol);
      assert rows == rows[..|rows| - 1] + [rows[|rows| - 1]];
    }
  }

  /** What one file of the loop does to the master. */
  datatype FileResult = Merged(rows: seq<Row>) | SkippedNoSheet | SkippedOnError

  /** The rows a file result appends: none for a skipped file. */
  function Appended(r: FileResult): seq<Row>
  {
    if r.Merged? then r.rows else []
  }

  /** The whole effect of one iteration of the loop over the selected files, for a master whose
      column count is `maxCol`. A file is merged exactly when it loads, has the target sheet and
      reading that sheet does not raise; a merged file adds one row per data row. */
  function Contribution(f: SourceFile, maxCol: nat): (r: FileResult)
    ensures r.Merged? <==> f.Opened? && TargetSheet in f.book && !ReadFaults(f.book[TargetSheet], f.fault)
    ensures r.SkippedNoSheet? <==> f.Opened? && TargetSheet !in f.book
    ensures r.Merged? ==> |r.rows| == DataRowCount(f.book[TargetSheet])
  {
    match f
    case Unreadable => SkippedOnError
    case Opened(book, fault) =>
      if TargetSheet !in book then SkippedNoSheet
      else if ReadFaults(book[TargetSheet], fault) then SkippedOnError
      else
        var s := book[TargetSheet];
        Merged(ClipAll(DataRegion(s, Min(MaxColumn(s), maxCol)), maxCol))
  }

  /** A merged file adds its normalised data rows read up to min(its max_column, maxCol), which
      clipping leaves unchanged; so every row is that wide and holds no float. */
  lemma ContributionRows(f: SourceFile, maxCol: nat)
    requires Contribution(f, maxCol).Merged?
    ensures var s := f.book[TargetSheet];
            Contribution(f, maxCol).rows == DataRegion(s, Min(MaxColumn(s), maxCol))
    ensures forall k :: 0 <= k < |Contribution(f, maxCol).rows| ==>
              |Contribution(f, maxCol).rows[k]| == Min(MaxColumn(f.book[TargetSheet]), maxCol) &&
              Normalized(Contribution(f, maxCol).rows[k])
  {
    var s := f.book[TargetSheet];
    DataRegionRows(s, Min(MaxColumn(s), maxCol));
    ClipAllNarrow(DataRegion(s, Min(MaxColumn(s), maxCol)), maxCol);
  }

  /** The number of rows a file adds: its data row count if it is merged, else none. */
  function RowsAdded(f: SourceFile, maxCol: nat): nat
  {
    if Contribution(f, maxCol).Merged? then DataRowCount(f.book[TargetSheet]) else 0
  }

  /** Sum of RowsAdded over the files. */
  function TotalRowsAdded(files: seq<SourceFile>, maxCol: nat): nat
  {
    if files == [] then 0 else TotalRowsAdded(files[..|files| - 1], maxCol) + RowsAdded(files[|files| - 1], maxCol)
  }

  /** Everything the loop appends for `files`, in selection order: each merged file's data rows. */
  function MergedRows(files: seq<SourceFile>, maxCol: nat): (rows: seq<Row>)
    ensures |rows| == TotalRowsAdded(files, maxCol)
  {
    if files == [] then []
    else MergedRows(files[..|files| - 1], maxCol) + Appended(Contribution(files[|files| - 1], maxCol))
  }

  /** Every row the loop appends has at least one and at most maxCol cells (when maxCol > 0) and
      holds no float. */
  lemma {:induction false} MergedRowsShape(files: seq<SourceFile>, maxCol: nat)
    ensures forall k :: 0 <= k < |MergedRows(files, maxCol)| ==>
              Min(1, maxCol) <= |MergedRows(files, maxCol)[k]| <= maxCol && Normalized(MergedRows(files, maxCol)[k])
  {
    if files != [] {
      var init := MergedRows(files[..|files| - 1], maxCol);
      var f := files[|files| - 1];
      var last := Appended(Contribution(f, maxCol));
      MergedRowsShape(files[..|files| - 1], maxCol);
      if Contribution(f, maxCol).Merged? {
        ContributionRows(f, maxCol);
      }
      forall k | 0 <= k < |init + last|
        ensures Min(1, maxCol) <= |(init + last)[k]| <= maxCol && Normalized((init + last)[k])
      {
        if k >= |init| {
          assert (init + last)[k] == last[k - |init|];
        }
      }
    }
  }

  /** The loop's step: the rows for files[..i + 1] are those for files[..i], then file i's. */
  lemma MergedRowsStep(files: seq<SourceFile>, i: nat, maxCol: nat)
    requires i < |files|
    ensures MergedRows(files[..i + 1], maxCol) == MergedRows(files[..i], maxCol) + Appended(Contribution(files[i], maxCol))
  {
    assert files[..i + 1][..i] == files[..i];
  }

  /** Concatenation of rows is associative. */
  lemma AppendAssoc(a: seq<Row>, b: seq<Row>, c: seq<Row>)
    ensures a + (b + c) == a + b + c
  {
  }

  /** The master sheet once the template is prepared: the header read (which creates row 12 up to
      max_col), then the data rows replaced by their normalised values. It has at least the twelve
      header rows and is trimmed. */
  function PreparedSheet(t: Sheet): (p: Sheet)
    ensures |p| >= HeaderRows
    ensures Trimmed(p)
  {
    var maxCol := MaxColumn(t);
    var m := Materialise(t, HeaderRows, maxCol);
    if MaxRow(m) > HeaderRows then
      var data := ClipAll(DataRegion(m, maxCol), maxCol);
      assert |data[|data| - 1]| == maxCol by {
        DataRegionRows(m, maxCol);
      }
      m[..HeaderRows] + data
    else m
  }

  datatype Failure = NoFilesSelected | TemplateUnreadable | MissingTargetSheet

  /** The end of a run: an error shown before anything is saved, or the workbook that is saved. */
  datatype Outcome = Aborted(reason: Failure) | Saved(book: map<string, Sheet>)

  /** The reference definition of a whole run. A saved workbook holds the target sheet and no
      other, with at least the twelve header rows, and trimmed. */
  function Run(selected: seq<SourceFile>): (r: Outcome)
    ensures r.Saved? ==> r.book.Keys == {TargetSheet}
    ensures r.Saved? ==> |r.book[TargetSheet]| >= HeaderRows && Trimmed(r.book[TargetSheet])
  {
    if selected == [] then Aborted(NoFilesSelected)
    else if !LoadsInFull(selected[0]) then Aborted(TemplateUnreadable)
    else if TargetSheet !in selected[0].book then Aborted(MissingTargetSheet)
    else
      var t := selected[0].book[TargetSheet];
      var p, q := PreparedSheet(t), MergedRows(selected, MaxColumn(t));
      assert Trimmed(p + q) by {
        MergedRowsShape(selected, MaxColumn(t));
        if q != [] {
          assert (p + q)[|p + q| - 1] == q[|q| - 1];
        }
      }
      Saved(map[TargetSheet := p + q])
  }

  /** The loop that reads the data rows of a sheet into a buffer before anything is appended; the
      buffer is dropped (None) when a row raises: a header row on the first step, a data row when
      the loop reaches it. */
  method ReadDataRows(s: Sheet, width: nat, fault: Option<nat>) returns (buffer: Option<seq<Row>>)
    ensures buffer.None? <==> ReadFaults(s, fault)
    ensures buffer.Some? ==> buffer.value == DataRegion(s, width)
  {
    if fault.Some? && 1 <= fault.value <= HeaderRows && fault.value <= MaxRow(s) {
      return None;
    }
    var rows: seq<Row> := [];
    var r := HeaderRows + 1;
    while r <= MaxRow(s)
      invariant HeaderRows + 1 <= r <= if MaxRow(s) > HeaderRows then MaxRow(s) + 1 else HeaderRows + 1
      invariant |rows| == r - HeaderRows - 1
      invariant forall k :: 0 <= k < |rows| ==> rows[k] == DataRegion(s, width)[k]
      invariant fault.Some? && 1 <= fault.value < r ==> fault.value > MaxRow(s)
    {
      if fault == Some(r) {
        return None;
      }
      rows := rows + [NormalizeRow(RowValues(s, r, width))];
      r := r + 1;
    }
    buffer := Some(rows);
  }

  /** Append every buffered row, cut to `maxCol` cells, below the sheet's last row. */
  method AppendClipped(ws: Worksheet, rows: seq<Row>, maxCol: nat)
    modifies ws
    ensures ws.rows == old(ws.rows) + ClipAll(rows, maxCol)
  {
    var k := 0;
    while k < |rows|
      invariant 0 <= k <= |rows|
      invariant ws.rows == old(ws.rows) + ClipAll(rows[..k], maxCol)
    {
      assert rows[..k + 1][..k] == rows[..k];
      ws.Append(Clip(rows[k], maxCol));
      k := k + 1;
    }
    assert rows[..k] == rows;
  }

  /** One iteration of the loop over the selected files. */
  method MergeFile(ws: Worksheet, f: SourceFile, maxCol: nat) returns (result: FileResult)
    modifies ws
    ensures result == Contribution(f, maxCol)
    ensures ws.rows == old(ws.rows) + Appended(result)
  {
    if f.Unreadable? {
      return SkippedOnError;
    }
    if TargetSheet !in f.book {
      return SkippedNoSheet;
    }
    var src := f.book[TargetSheet];
    var srcMaxCol := Min(MaxColumn(src), maxCol);
    var buffer := ReadDataRows(src, srcMaxCol, f.fault);
    if buffer.None? {
      return SkippedOnError;
    }
    AppendClipped(ws, buffer.value, maxCol);
    result := Merged(ClipAll(buffer.value, maxCol));
  }

  /** Lines 84-87: remove every sheet but the target one. The sheets are visited in no
      particular order, which cannot change the result. */
  method KeepOnlyTarget(wb: Workbook)
    requires TargetSheet in wb.sheets
    modifies wb
    ensures wb.sheets == map[TargetSheet := old(wb.sheets[TargetSheet])]
  {
    var others := wb.sheets.Keys - {TargetSheet};
    while others != {}
      invariant wb.sheets.Keys == others + {TargetSheet}
      invariant wb.sheets[TargetSheet] == old(wb.sheets[TargetSheet])
      decreases others
    {
      var name :| name in others;
      wb.Remove(name);
      others := others - {name};
    }
  }

  /** Read the header row, which fixes the column count, then flatten the template's own data
      rows to normalised values: delete them and append them again. */
  method PrepareTemplate(ws: Worksheet) returns (maxCol: nat)
    modifies ws
    ensures maxCol == MaxColumn(old(ws.rows))
    ensures ws.rows == PreparedSheet(old(ws.rows))
  {
    var headers := ws.IterRow(HeaderRows, MaxColumn(ws.rows));
    maxCol := |headers|;
    MaterialiseKeepsValues(old(ws.rows), HeaderRows, maxCol);
    if MaxRow(ws.rows) > HeaderRows {
      var buffer := ReadDataRows(ws.rows, maxCol, None);
      var dataRows := buffer.value;
      ws.DeleteRows(HeaderRows + 1, MaxRow(ws.rows) - HeaderRows);
      AppendClipped(ws, dataRows, maxCol);
    }
  }

  /** Lines 110-143: every selected file in selection order, the template included. */
  method MergeAll(ws: Worksheet, selected: seq<SourceFile>, maxCol: nat)
    modifies ws
    ensures ws.rows == old(ws.rows) + MergedRows(selected, maxCol)
  {
    var i := 0;
    while i < |selected|
      invariant 0 <= i <= |selected|
      invariant ws.rows == old(ws.rows) + MergedRows(selected[..i], maxCol)
    {
      var result := MergeFile(ws, selected[i], maxCol);
      MergedRowsStep(selected, i, maxCol);
      AppendAssoc(old(ws.rows), MergedRows(selected[..i], maxCol), Appended(result));
      i := i + 1;
    }
    assert selected[..i] == selected;
  }

  /** The button handler with the user interface and the file system taken out. */
  method Consolidate(selected: seq<SourceFile>) returns (outcome: Outcome)
    ensures outcome == Run(selected)
  {
    if |selected| == 0 {
      return Aborted(NoFilesSelected);
    }
    var template := selected[0];
    if !template.Opened? || template.fault.Some? {
      return Aborted(TemplateUnreadable);
    }
    var wb := new Workbook.Load(template.book);
    if TargetSheet !in wb.sheets {
      return Aborted(MissingTargetSheet);
    }
    KeepOnlyTarget(wb);
    var ws := wb.sheets[TargetSheet];
    var maxCol := PrepareTemplate(ws);
    MergeAll(ws, selected, maxCol);
    outcome := Saved(map[TargetSheet := ws.rows]);
  }
}
