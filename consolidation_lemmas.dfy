/** What a consolidation run guarantees about the saved workbook. */
module ConsolidationLemmas {
  import opened Cells
  import opened Sheets
  import opened Consolidation

  /** The run gets past its checks: some file is selected, and the template loads in full and has
      the target sheet. */
  predicate Saves(selected: seq<SourceFile>)
  {
    selected != [] && LoadsInFull(selected[0]) && TargetSheet in selected[0].book
  }

  /** The template's data rows as they stand in the master once flattened. */
  function TemplateData(t: Sheet): seq<Row>
  {
    ClipAll(DataRegion(t, MaxColumn(t)), MaxColumn(t))
  }

  /** The loop appends file after file: the rows for a + b are those for a, then those for b. */
  lemma {:induction false} MergedRowsConcat(a: seq<SourceFile>, b: seq<SourceFile>, maxCol: nat)
    ensures MergedRows(a + b, maxCol) == MergedRows(a, maxCol) + MergedRows(b, maxCol)
  {
    if b == [] {
      assert a + b == a;
    } else {
      var b' := b[..|b| - 1];
      var last := Appended(Contribution(b[|b| - 1], maxCol));
      assert (a + b)[..|a + b| - 1] == a + b';
      assert (a + b)[|a + b| - 1] == b[|b| - 1];
      assert MergedRows(a + b, maxCol) == MergedRows(a + b', maxCol) + last;
      assert MergedRows(b, maxCol) == MergedRows(b', maxCol) + last;
      MergedRowsConcat(a, b', maxCol);
      assert (MergedRows(a, maxCol) + MergedRows(b', maxCol)) + last ==
             MergedRows(a, maxCol) + (MergedRows(b', maxCol) + last);
    }
  }

  /** A skipped file (no "Data Table" sheet, or an error) adds no row and does not stop the
      files after it from being merged. */
  lemma SkippedFileAddsNothing(a: seq<SourceFile>, f: SourceFile, b: seq<SourceFile>, maxCol: nat)
    requires !Contribution(f, maxCol).Merged?
    ensures MergedRows(a + [f] + b, maxCol) == MergedRows(a + b, maxCol)
  {
    var ra, rb := MergedRows(a, maxCol), MergedRows(b, maxCol);
    assert MergedRows([f], maxCol) == [] by {
      assert [f][..0] == [];
    }
    assert MergedRows(a + [f], maxCol) == ra by {
      MergedRowsConcat(a, [f], maxCol);
    }
    assert MergedRows(a + [f] + b, maxCol) == ra + rb by {
      MergedRowsConcat(a + [f], b, maxCol);
    }
    MergedRowsConcat(a, b, maxCol);
  }

  /** A file whose sheet goes no further than the header adds nothing. */
  lemma {:induction false} ShortSheetAddsNothing(f: SourceFile, maxCol: nat)
    requires f.Opened? && TargetSheet in f.book && MaxRow(f.book[TargetSheet]) <= HeaderRows
    ensures Appended(Contribution(f, maxCol)) == []
  {
    var s := f.book[TargetSheet];
    assert |DataRegion(s, Min(MaxColumn(s), maxCol))| == 0;
  }

  /** A header row that fails to parse makes the read-only pass raise on its first step, so the
      file is skipped even though no data row is faulty. */
  lemma HeaderRowFaultSkipsFile(book: map<string, Sheet>, row: nat, maxCol: nat)
    requires TargetSheet in book && 1 <= row <= HeaderRows && row <= MaxRow(book[TargetSheet])
    ensures Contribution(Opened(book, Some(row)), maxCol) == SkippedOnError
  {
  }

  /** Reading a row of the master never changes a value, so the data region read after the
      header row was created is the template's own. */
  lemma DataRegionAfterHeaderRead(t: Sheet)
    ensures DataRegion(Materialise(t, HeaderRows, MaxColumn(t)), MaxColumn(t)) == DataRegion(t, MaxColumn(t))
  {
    var w := MaxColumn(t);
    var m := Materialise(t, HeaderRows, w);
    MaterialiseKeepsValues(t, HeaderRows, w);
    forall r ensures RowValues(m, r, w) == RowValues(t, r, w) {
    }
  }

  /** The flattened template data is the template's data region, max_col wide. */
  lemma TemplateDataRows(t: Sheet)
    ensures TemplateData(t) == DataRegion(t, MaxColumn(t))
    ensures |TemplateData(t)| == DataRowCount(t)
    ensures forall k :: 0 <= k < |TemplateData(t)| ==> |TemplateData(t)[k]| == MaxColumn(t) && Normalized(TemplateData(t)[k])
  {
    DataRegionRows(t, MaxColumn(t));
    ClipAllNarrow(DataRegion(t, MaxColumn(t)), MaxColumn(t));
  }

  /** The prepared master: twelve header rows holding the template's values, then the template's
      data rows flattened to normalised values. */
  lemma PreparedSheetShape(t: Sheet)
    ensures |PreparedSheet(t)| == HeaderRows + DataRowCount(t)
    ensures forall r, c :: r <= HeaderRows ==> CellAt(PreparedSheet(t), r, c) == CellAt(t, r, c)
    ensures PreparedSheet(t)[HeaderRows..] == TemplateData(t)
  {
    var w := MaxColumn(t);
    var m := Materialise(t, HeaderRows, w);
    MaterialiseKeepsValues(t, HeaderRows, w);
    DataRegionAfterHeaderRead(t);
    TemplateDataRows(t);
    var p := PreparedSheet(t);
    if MaxRow(m) > HeaderRows {
      assert p == m[..HeaderRows] + TemplateData(t);
    } else {
      assert p == m && |m| == HeaderRows;
    }
    assert p[..HeaderRows] == m[..HeaderRows];
    forall r, c | r <= HeaderRows ensures CellAt(p, r, c) == CellAt(t, r, c) {
      if 1 <= r {
        assert CellAt(p, r, c) == CellAt(m, r, c) by {
          assert p[r - 1] == m[r - 1];
        }
      }
    }
  }

  /** A workbook is saved exactly when the run gets past its checks; each check that fails aborts
      with its own reason. */
  lemma RunOutcome(selected: seq<SourceFile>)
    ensures Run(selected).Saved? <==> Saves(selected)
    ensures selected == [] ==> Run(selected) == Aborted(NoFilesSelected)
    ensures selected != [] && !LoadsInFull(selected[0]) ==> Run(selected) == Aborted(TemplateUnreadable)
    ensures selected != [] && LoadsInFull(selected[0]) && TargetSheet !in selected[0].book ==>
              Run(selected) == Aborted(MissingTargetSheet)
  {
  }

  /** The header rows of the saved sheet hold exactly the template's header values. */
  lemma HeaderFrozen(selected: seq<SourceFile>, r: int, c: int)
    requires Saves(selected) && r <= HeaderRows
    ensures |Run(selected).book[TargetSheet]| >= HeaderRows
    ensures CellAt(Run(selected).book[TargetSheet], r, c) == CellAt(selected[0].book[TargetSheet], r, c)
  {
    var t := selected[0].book[TargetSheet];
    var p := PreparedSheet(t);
    var out := Run(selected).book[TargetSheet];
    PreparedSheetShape(t);
    if 1 <= r && 1 <= c {
      assert out[r - 1] == p[r - 1];
    }
  }

  /** The data region of the saved sheet is the template's data, then every file's rows in
      selection order. */
  lemma DataRegionIsConcatenation(selected: seq<SourceFile>)
    requires Saves(selected)
    ensures Run(selected).book[TargetSheet][HeaderRows..] ==
              TemplateData(selected[0].book[TargetSheet]) + MergedRows(selected, MaxColumn(selected[0].book[TargetSheet]))
  {
    var t := selected[0].book[TargetSheet];
    var p := PreparedSheet(t);
    var q := MergedRows(selected, MaxColumn(t));
    var out := Run(selected).book[TargetSheet];
    assert out == p + q;
    assert p[HeaderRows..] == TemplateData(t) && |p| >= HeaderRows by {
      PreparedSheetShape(t);
    }
    ConcatDrop(p, q, HeaderRows);
  }

  /** Dropping a prefix of the first part of a concatenation. */
  lemma ConcatDrop(p: seq<Row>, q: seq<Row>, n: nat)
    requires n <= |p|
    ensures (p + q)[n..] == p[n..] + q
  {
  }

  /** The template reprocessed by the loop adds its flattened data rows once more: it was
      loaded in full, so its read-only pass cannot fail, and min(max_column, max_col) is max_col. */
  lemma TemplateContribution(f: SourceFile)
    requires LoadsInFull(f) && TargetSheet in f.book
    ensures var t := f.book[TargetSheet];
            Contribution(f, MaxColumn(t)) == Merged(TemplateData(t))
  {
  }

  /** The template is reprocessed by the loop, so its data rows are in the output twice: once
      from flattening and once from its own iteration. */
  lemma TemplateDataAppearsTwice(selected: seq<SourceFile>)
    requires Saves(selected)
    ensures var t := selected[0].book[TargetSheet];
            Run(selected).book[TargetSheet][HeaderRows..] ==
              TemplateData(t) + TemplateData(t) + MergedRows(selected[1..], MaxColumn(t))
  {
    var t := selected[0].book[TargetSheet];
    var w := MaxColumn(t);
    var td, rest := TemplateData(t), MergedRows(selected[1..], w);
    DataRegionIsConcatenation(selected);
    assert MergedRows([selected[0]], w) == td by {
      assert [selected[0]][..0] == [];
      TemplateContribution(selected[0]);
    }
    assert MergedRows(selected, w) == td + rest by {
      assert selected == [selected[0]] + selected[1..];
      MergedRowsConcat([selected[0]], selected[1..], w);
    }
    AppendAssoc(td, td, rest);
  }

  /** The saved sheet's max_row is its row count: 12 + the template's data rows + the sum over
      merged files of theirs. */
  lemma OutputRowCount(selected: seq<SourceFile>)
    requires Saves(selected)
    ensures var t := selected[0].book[TargetSheet];
            MaxRow(Run(selected).book[TargetSheet]) == |Run(selected).book[TargetSheet]| ==
              HeaderRows + DataRowCount(t) + TotalRowsAdded(selected, MaxColumn(t))
  {
    var t := selected[0].book[TargetSheet];
    assert Run(selected).book[TargetSheet] == PreparedSheet(t) + MergedRows(selected, MaxColumn(t));
    PreparedSheetShape(t);
  }

  /** Rows of one to `w` cells without a float. */
  predicate RowsShaped(rows: seq<Row>, w: nat)
  {
    forall k :: 0 <= k < |rows| ==> 1 <= |rows[k]| <= w && Normalized(rows[k])
  }

  lemma RowsShapedConcat(a: seq<Row>, b: seq<Row>, w: nat)
    requires RowsShaped(a, w) && RowsShaped(b, w)
    ensures RowsShaped(a + b, w)
  {
    forall k | 0 <= k < |a + b| ensures 1 <= |(a + b)[k]| <= w && Normalized((a + b)[k]) {
      if k >= |a| {
        assert (a + b)[k] == b[k - |a|];
      }
    }
  }

  /** The output's data region, rows 13.., consists of rows one to max_col cells wide without a
      float. */
  lemma DataRegionShaped(selected: seq<SourceFile>)
    requires Saves(selected)
    ensures |Run(selected).book[TargetSheet]| >= HeaderRows
    ensures RowsShaped(Run(selected).book[TargetSheet][HeaderRows..], MaxColumn(selected[0].book[TargetSheet]))
  {
    var t := selected[0].book[TargetSheet];
    var w := MaxColumn(t);
    var td, q := TemplateData(t), MergedRows(selected, w);
    DataRegionIsConcatenation(selected);
    TemplateDataRows(t);
    MergedRowsShape(selected, w);
    RowsShapedConcat(td, q, w);
  }

  /** A sheet whose rows past the header are shaped has every such row shaped. */
  lemma {:induction false} ShapedBelowHeader(out: Sheet, w: nat)
    requires |out| >= HeaderRows
    requires RowsShaped(out[HeaderRows..], w)
    ensures forall k :: HeaderRows <= k < |out| ==> 1 <= |out[k]| <= w && Normalized(out[k])
  {
    forall k | HeaderRows <= k < |out|
      ensures 1 <= |out[k]| <= w && Normalized(out[k])
    {
      assert out[k] == out[HeaderRows..][k - HeaderRows];
    }
  }

  /** Every row below the header is at least one and at most max_col cells wide and holds
      normalised values only. */
  lemma DataRowsShape(selected: seq<SourceFile>)
    requires Saves(selected)
    ensures var out := Run(selected).book[TargetSheet];
            forall k :: HeaderRows <= k < |out| ==>
              1 <= |out[k]| <= MaxColumn(selected[0].book[TargetSheet]) && Normalized(out[k])
  {
    DataRegionShaped(selected);
    ShapedBelowHeader(Run(selected).book[TargetSheet], MaxColumn(selected[0].book[TargetSheet]));
  }

  /** Normalising any row of the output's data region again changes nothing. */
  lemma DataRowsAreFixedPoints(selected: seq<SourceFile>, k: int)
    requires Saves(selected)
    requires HeaderRows <= k < |Run(selected).book[TargetSheet]|
    ensures NormalizeRow(Run(selected).book[TargetSheet][k]) == Run(selected).book[TargetSheet][k]
  {
    var out := Run(selected).book[TargetSheet];
    DataRowsShape(selected);
    NormalizedRowFixed(out[k]);
  }

  /** For a sheet of twelve header rows and then data rows `width` cells wide, the data region
      is those rows normalised. */
  lemma DataRegionOfRows(header: Sheet, data: seq<Row>, width: nat)
    requires |header| == HeaderRows
    requires forall k :: 0 <= k < |data| ==> |data[k]| == width
    ensures |DataRegion(header + data, width)| == |data|
    ensures forall k :: 0 <= k < |data| ==> DataRegion(header + data, width)[k] == NormalizeRow(data[k])
  {
    var s := header + data;
    forall k | 0 <= k < |data| ensures RowValues(s, HeaderRows + 1 + k, width) == data[k] {
      assert s[HeaderRows + k] == data[k];
      RowValuesPadded(s, HeaderRows + 1 + k, width);
    }
  }

  /** A five-column row whose first cell is `c`. */
  function FirstColumn(c: Cell): Row
  {
    [c, Empty, Empty, Empty, Empty]
  }

  /** Twelve header rows, five columns wide. */
  function ExampleHeader(): Sheet
  {
    seq(HeaderRows, _ => FirstColumn(Text("h")))
  }

  /** For an example sheet: five columns, and the data region is the given rows normalised. */
  lemma ExampleSheet(data: seq<Cell>, s: Sheet, expected: seq<Row>)
    requires s == ExampleHeader() + seq(|data|, k requires 0 <= k < |data| => FirstColumn(data[k]))
    requires |expected| == |data|
    requires forall k :: 0 <= k < |data| ==> expected[k] == FirstColumn(Normalize(data[k]))
    ensures MaxColumn(s) == 5
    ensures DataRegion(s, 5) == expected
  {
    assert forall k :: 0 <= k < |s| ==> |s[k]| == 5;
    var rows := seq(|data|, k requires 0 <= k < |data| => FirstColumn(data[k]));
    DataRegionOfRows(ExampleHeader(), rows, 5);
    forall k | 0 <= k < |data| ensures NormalizeRow(FirstColumn(data[k])) == FirstColumn(Normalize(data[k])) {
      assert NormalizeRow(FirstColumn(data[k]))[0] == Normalize(data[k]);
    }
  }

  lemma ExampleTemplateData(t: Sheet)
    requires t == ExampleHeader() + [FirstColumn(Num(1.4)), FirstColumn(Num(2.6))]
    ensures MaxColumn(t) == 5
    ensures TemplateData(t) == [FirstColumn(Int(1)), FirstColumn(Int(3))]
  {
    NormalizeExamples();
    ExampleSheet([Num(1.4), Num(2.6)], t, [FirstColumn(Int(1)), FirstColumn(Int(3))]);
    TemplateDataRows(t);
  }

  lemma ExampleSecondRows(s2: Sheet)
    requires s2 == ExampleHeader() + [FirstColumn(Num(3.5)), FirstColumn(Text("text")), FirstColumn(Bool(true))]
    ensures MergedRows([Opened(map[TargetSheet := s2], None)], 5) ==
              [FirstColumn(Int(4)), FirstColumn(Text("text")), FirstColumn(Bool(true))]
  {
    var second := Opened(map[TargetSheet := s2], None);
    var d2 := [FirstColumn(Int(4)), FirstColumn(Text("text")), FirstColumn(Bool(true))];
    NormalizeExamples();
    ExampleSheet([Num(3.5), Text("text"), Bool(true)], s2, d2);
    assert Contribution(second, 5).Merged?;
    ContributionRows(second, 5);
    assert [second][..0] == [];
  }

  /** A template with two data rows (1.4 and 2.6 in column 1) and a second file with three
      (3.5, "text", True): column 1 of the output's data region reads 1, 3, 1, 3, 4, "text", True.
      The template's rows come twice, because the loop reprocesses the template. */
  lemma TwoFileExample(t: Sheet, s2: Sheet)
    requires t == ExampleHeader() + [FirstColumn(Num(1.4)), FirstColumn(Num(2.6))]
    requires s2 == ExampleHeader() + [FirstColumn(Num(3.5)), FirstColumn(Text("text")), FirstColumn(Bool(true))]
    ensures var out := Run([Opened(map[TargetSheet := t], None), Opened(map[TargetSheet := s2], None)]);
            out.Saved? &&
            out.book[TargetSheet][HeaderRows..] ==
              [FirstColumn(Int(1)), FirstColumn(Int(3)), FirstColumn(Int(1)), FirstColumn(Int(3)),
               FirstColumn(Int(4)), FirstColumn(Text("text")), FirstColumn(Bool(true))]
  {
    var second := Opened(map[TargetSheet := s2], None);
    var selected := [Opened(map[TargetSheet := t], None), second];
    ExampleTemplateData(t);
    ExampleSecondRows(s2);
    assert selected[1..] == [second];
    TemplateDataAppearsTwice(selected);
    var one, three := FirstColumn(Int(1)), FirstColumn(Int(3));
    assert [one, three] + [one, three] + [FirstColumn(Int(4)), FirstColumn(Text("text")), FirstColumn(Bool(true))] ==
           [one, three, one, three, FirstColumn(Int(4)), FirstColumn(Text("text")), FirstColumn(Bool(true))];
  }
}
