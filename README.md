# Excel files consolidator — a Dafny model of the merge

The Streamlit app merges the "Data Table" sheet of many Excel workbooks into one. The first
selected file is the template, loaded with its formulas kept (app.py:79). Its sheet keeps rows
1–12 (the header) as they are, and every other sheet of it is removed. Its own data rows (13
onwards) are then copied back without formatting (app.py:96-107). Numbers in them are rounded.
Every other value is written back as it was read, and a formula cell is read as its formula
text, so formulas stay formulas. Then every selected file, the template included, goes through a
loop in selection order. That loop loads each file with cached values, not formulas. Each file
has the normalised values of its rows 13 onwards appended below the master's last row. A file
without the sheet, or one that raises while loading or reading, is skipped.

The model is split into five modules:

- `Cells` (cells.dfy): a cell is `Int | Num(real) | Bool | Text | Empty`. `Normalize` is the
  per-cell rule of the two row comprehensions: Python's `round`, which rounds to the nearest
  integer with ties going to the even one, applied to numbers that are not booleans.
- `FileNames` (file_names.dfy): the name filter of the folder scan and the loop over one
  directory's names.
- `Sheets` (sheets.dfy): a sheet is its sequence of stored rows. `CellAt`, `MaxRow` and
  `MaxColumn` read it the way openpyxl does, for a sheet whose last stored row holds a cell
  (`Trimmed`). The classes `Worksheet` and `Workbook` hold the in-place operations the script
  calls: `iter_rows` on one row, `delete_rows`, `append`, `load_workbook` and `remove`. Reading a
  row of a sheet that is not opened read-only creates the cells it yields (`Materialise`). That
  is why the master always has at least twelve rows once row 12 has been read.
- `Consolidation` (consolidation.dfy): `SourceFile` describes a selected file as the run meets it.
  It is `Unreadable` when loading raises, or `Opened(book, fault)`. `fault` names a row of the
  "Data Table" sheet that fails to parse. A read-only pass parses rows from row 1 up to max_row,
  header rows included, so such a row makes the loop skip the file even when it is a header row.
  `Run` is the reference definition of a whole run. The imperative methods (`Consolidate`,
  `KeepOnlyTarget`, `PrepareTemplate`, `MergeAll`, `MergeFile`, `ReadDataRows`, `AppendClipped`)
  follow the script's statements and are proved to compute `Run`.
- `ConsolidationLemmas` (consolidation_lemmas.dfy): what the saved workbook satisfies.

Behaviour of the code that is easy to miss:

- The template's data rows are in the output twice (`TemplateDataAppearsTwice`). They are
  appended once when the template is flattened (app.py:106-107), and again when the loop at
  app.py:110 reprocesses `selected_files[0]`. Take a template with 1.4 and 2.6 in column 1 of its
  data rows and a second file with 3.5, "text" and True. Column 1 of the output's data rows then
  reads 1, 3, 1, 3, 4, "text", True (`TwoFileExample`).
- The program's two copies of the template rows can differ. The first copy holds formula text
  (app.py:79, 101, 107), and the second holds the cached values (app.py:119, 132, 138).
- `max_col` is the template sheet's `max_column`, not the cell count of row 12 as stored. Row 12
  is read with `max_col=ws_master.max_column`, and openpyxl pads the row it yields to that width
  (app.py:91-93).
- Rows from the loop are not padded to `max_col`. They are read `min(ws_src.max_column, max_col)`
  cells wide (app.py:126, 131), and `[:max_col]` only cuts. So every appended row is at most
  `max_col` wide (`MergedRowsShape`). Only the flattened template's rows are guaranteed to be
  exactly `max_col` wide (`TemplateDataRows`); a loop file's rows are min(its `max_column`,
  `max_col`) wide (`ContributionRows`).
- The run is deterministic: a second run on the same inputs gives the same data rows, since
  `Run` is a function of the selected files.

## Model

| member | source | states |
|---|---|---|
| `Cells.RoundHalfEven` | app.py:101 | the result is within 1/2 of the number, and is even when the number lies exactly halfway |
| `Cells.RoundHalfEvenUnique` | app.py:101 | any integer within 1/2 that is even on a tie is the result of rounding: the two properties define round-half-to-even |
| `Cells.RoundHalfEvenOfInteger` | app.py:101 | rounding an integral number gives that integer back |
| `Cells.Normalize` | app.py:101-102 | a non-boolean number becomes an int within 1/2 of it, ties to even; booleans, text, ints and empty cells are unchanged; no result is a float |
| `Cells.NormalizeRow` | app.py:132-133 | the row keeps its width and every cell is normalised at its own position |
| `Cells.NormalizeRowIsNormalized` | app.py:132-133 | a normalised row contains no float |
| `Cells.NormalizedRowFixed` | app.py:132-133 | a row without floats is left unchanged by normalisation |
| `Cells.NormalizeRowIdempotent` | app.py:101-102 | normalising twice is the same as normalising once |
| `Cells.NormalizeExamples` | app.py:101-102 | 2.5→2, 3.5→4, −0.5→0, −1.5→−2, 1.4→1, 2.6→3; int, True and "text" pass through |
| `FileNames.IsWorkbookFile` | app.py:24 | a kept name is at least five characters long and does not start with "~$" |
| `FileNames.IsWorkbookFileByExtension` | app.py:24 | a name is kept iff its last five characters, lower-cased, are ".xlsx" or ".xlsm" and it does not start with "~$" |
| `FileNames.LockFileRefused` | app.py:24 | no name starting with "~$" is kept, whatever follows |
| `FileNames.UpperCaseExtensionKept` | app.py:24 | "A.XLSM" is kept |
| `FileNames.XlsRefused` | app.py:24 | ".xls" is not kept |
| `FileNames.BackupCopyRefused` | app.py:24 | "a.xlsx.bak" is not kept |
| `FileNames.OpenWorkbookLockRefused` | app.py:24 | "~$a.xlsx" is not kept |
| `FileNames.WorkbookFiles` | app.py:23-25 | the names one directory contributes: no more than it lists, each listed and accepted by the filter |
| `FileNames.WorkbookFilesMembers` | app.py:23-25 | a name is in the scan's result iff it is in the directory and passes the filter |
| `FileNames.ScanDirectory` | app.py:23-25 | the loop returns exactly the filtered listing, in listing order |
| `Sheets.MaxRow` | app.py:97 | `max_row` is at least 1 and covers every stored row; on a trimmed sheet it is the last row holding a cell, or 1 when no row does |
| `Sheets.Widest` | app.py:91 | the result bounds every stored row's length and is the length of one of them (or 0) |
| `Sheets.MaxColumn` | app.py:91 | `max_column` is at least 1, bounds every row's width, and is reached by some row unless it is 1 |
| `Sheets.RowValuesPadded` | app.py:91 | the contract of `RowValues`: reading a row up to `width` yields the stored row padded with empty cells and cut to `width`, a stored row exactly that wide as it is, and only empty cells past the stored rows |
| `Sheets.Pad` | app.py:91 | padding keeps the row as a prefix and adds empty cells up to the width |
| `Sheets.Materialise` | app.py:91 | once row r is read up to `width`, the sheet stores at least r rows and row r at least `width` cells |
| `Sheets.MaterialiseKeepsValues` | app.py:91 | creating row r's cells changes no cell value and no stored row but row r |
| `Sheets.Worksheet.IterRow` | app.py:91 | returns the row's values up to `width` and leaves the sheet with those cells created |
| `Sheets.Worksheet.DeleteRows` | app.py:104 | rows idx .. idx+amount−1 are removed and the later rows move up |
| `Sheets.Worksheet.Append` | app.py:107 | the row is added after the last row |
| `Sheets.Workbook.Load` | app.py:79 | one fresh worksheet per sheet of the file, holding that sheet's rows |
| `Sheets.Workbook.Remove` | app.py:87 | the named sheet is gone and every other remains |
| `Consolidation.DataRegion` | app.py:100-102 | the rows read from 13 to max_row: one per data row of the sheet, max(0, max_row − 12) of them |
| `Consolidation.DataRegionRows` | app.py:131-134 | each such row is `width` cells without a float, cell c of the k-th being the sheet's cell at row 13 + k, column c + 1, normalised |
| `Consolidation.Clip` | app.py:138 | `row_data[:max_col]` keeps the first min(width, max_col) cells in order, and a row no wider than `max_col` whole |
| `Consolidation.ClipAll` | app.py:107 | every row is cut to `max_col` cells, the number of rows unchanged |
| `Consolidation.ClipAllNarrow` | app.py:138 | cutting rows no wider than `max_col` leaves them unchanged |
| `Consolidation.Contribution` | app.py:117-143 | a file is merged iff it loads, has "Data Table" and no row 1..max_row of it fails to parse; a file without the sheet is the only one skipped for that reason; a merged file adds one row per data row |
| `Consolidation.ContributionRows` | app.py:126-138 | a merged file adds its normalised rows 13.. read min(its max_column, max_col) wide, each that wide and without a float |
| `Consolidation.MergedRows` | app.py:110-143 | the loop appends, in all, the sum over merged files of max(0, max_row − 12) rows |
| `Consolidation.MergedRowsShape` | app.py:126-138 | every row the loop appends is one to `max_col` cells wide and holds no float |
| `Consolidation.PreparedSheet` | app.py:90-107 | the prepared master has at least the twelve header rows and no trailing row without cells |
| `Consolidation.Run` | app.py:77-147 | a saved workbook holds "Data Table" and no other sheet, with at least twelve rows and no trailing row without cells |
| `Consolidation.ReadDataRows` | app.py:129-134 | the buffer is dropped exactly when a row in 1..max_row fails to parse (a header row on the first step, a data row when reached); otherwise it holds the normalised rows 13..max_row |
| `Consolidation.AppendClipped` | app.py:137-138 | the sheet afterwards is the old sheet followed by every buffered row cut to `max_col` |
| `Consolidation.MergeFile` | app.py:117-143 | one iteration appends exactly the file's contribution, and nothing when the file is skipped (missing sheet, load error, read error) |
| `Consolidation.KeepOnlyTarget` | app.py:84-88 | afterwards the workbook holds only "Data Table", the same worksheet as before |
| `Consolidation.PrepareTemplate` | app.py:90-107 | `max_col` is the template's `max_column`, and the sheet becomes the header with created row 12 followed by the flattened data rows |
| `Consolidation.MergeAll` | app.py:110-143 | the loop appends every file's contribution in selection order |
| `Consolidation.Consolidate` | app.py:49-147 | the handler's outcome is `Run`: the saved workbook or the reason it aborted |
| `ConsolidationLemmas.RunOutcome` | app.py:49-50 | a run saves iff some file is selected and the template loads in full and has "Data Table"; each failed check aborts with its own reason (app.py:49-50, 79-82, 162-164) |
| `ConsolidationLemmas.HeaderFrozen` | app.py:91-107 | the saved sheet has at least 12 rows, and every cell of rows 1–12 holds the template's value |
| `ConsolidationLemmas.PreparedSheetShape` | app.py:90-107 | the prepared master has 12 + (the template's data row count) rows, its header cells are the template's, and below them lie the flattened data rows |
| `ConsolidationLemmas.DataRegionAfterHeaderRead` | app.py:91-100 | reading the header row does not change the data rows read afterwards |
| `ConsolidationLemmas.TemplateDataRows` | app.py:99-107 | the template's flattened rows are its normalised rows 13.., one per data row, each exactly `max_col` wide |
| `ConsolidationLemmas.DataRegionIsConcatenation` | app.py:97-138 | rows 13.. of the output are the template's flattened rows, then every file's rows in selection order |
| `ConsolidationLemmas.TemplateContribution` | app.py:110-138 | the template reprocessed by the loop contributes its flattened rows once more |
| `ConsolidationLemmas.TemplateDataAppearsTwice` | app.py:106-110 | rows 13.. of the output are the template's data, the template's data again, then the rows of files 2..n |
| `ConsolidationLemmas.MergedRowsConcat` | app.py:110-138 | the rows appended for a + b are those for a followed by those for b |
| `ConsolidationLemmas.SkippedFileAddsNothing` | app.py:118-143 | a skipped file adds no row, and the files after it are merged as if it were absent |
| `ConsolidationLemmas.ShortSheetAddsNothing` | app.py:125-131 | a sheet whose max_row is at most 12 adds no row |
| `ConsolidationLemmas.HeaderRowFaultSkipsFile` | app.py:131 | a file one of whose header rows fails to parse is skipped with an error |
| `ConsolidationLemmas.OutputRowCount` | app.py:97-138 | the saved sheet's max_row equals its row count: 12 + the template's data rows + the rows of every merged file |
| `ConsolidationLemmas.DataRegionShaped` | app.py:100-138 | the output's rows 13.., taken as a whole, are each one to `max_col` cells wide and hold no float |
| `ConsolidationLemmas.ShapedBelowHeader` | app.py:100-138 | when the rows past the header are shaped as a whole, each row at index 12 or later is one to `max_col` cells wide and holds no float |
| `ConsolidationLemmas.DataRowsShape` | app.py:100-138 | every output row below the header is one to `max_col` cells wide and holds no float |
| `ConsolidationLemmas.DataRowsAreFixedPoints` | app.py:101-132 | normalising any output data row again changes nothing |
| `ConsolidationLemmas.TwoFileExample` | app.py:97-138 | for the two-file example above, the output's data rows read 1, 3, 1, 3, 4, "text", True in column 1 |

## Left out

- The Streamlit interface: the folder and output inputs, the select-all checkbox, the multiselect,
  the progress bar, status text, messages and the download button (app.py:11-41, 72-74, 111-114,
  151-160). The model starts from the resolved list of selected files.
- File-system work: `os.walk` and its order, `relpath`/`join` path building, `makedirs`, the
  write-permission probe, `save` and the check that the saved file exists (app.py:20-35, 54-69,
  146-150). `ScanDirectory` covers the filter over one directory's names only. A saved outcome
  stands for the workbook that `save` writes.
- Logging and the progress percentage.
- openpyxl's load modes. The template is loaded with formulas kept, and the loop loads each file
  values-only, read-only. The model gives a file one set of values for both loads: formula text
  versus cached value is not distinguished. Formatting and header formulas are not modelled. A
  read-only sheet's `max_row` and `max_column` are taken from its stored rows, not from the
  file's dimension record.
- Sheets whose last stored row holds no cell. openpyxl never loads such a sheet, and the sheet the
  run saves is never one (`Consolidation.Run`). The model does not exclude one as input, and for
  one `MaxRow` counts its empty trailing rows.
- How `append` picks its row: the model appends after the last stored row.
- The read of the template's data rows at app.py:100 also creates cells. Those rows are deleted
  right after, so the model reads them without creating cells.
- Sheet order within a workbook: a workbook is a map by sheet name. The program removes the
  other sheets in workbook order (app.py:85); the model's `KeepOnlyTarget` picks them in no
  particular order, which cannot change its result.
- Floating point: numbers are exact reals, so representation effects (2.675) do not arise, and
  `round` of NaN or infinity (which raises) cannot occur. Dates and other cell types are not
  represented; they would pass through unchanged, like text.
- Lower-casing covers the ASCII letters only. Python's `str.lower` also maps other letters; no
  letter outside ASCII lower-cases into ".xlsx" or ".xlsm".
- Closing source workbooks (app.py:122, 140) changes nothing the model tracks.
- Sheets.Workbook.Load: does not promise that the worksheets it creates are distinct from one
  another, because only the "Data Table" worksheet is used after the other sheets are removed.
