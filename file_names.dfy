/** Which file names the folder scan offers for consolidation. */
module FileNames {

  /** str.lower() on one character, for the ASCII letters. */
  function LowerChar(c: char): char
  {
    if 'A' <= c <= 'Z' then (c as int - 'A' as int + 'a' as int) as char else c
  }

  /** str.lower() on a whole name. */
  function Lower(s: string): string
  {
    seq(|s|, i requires 0 <= i < |s| => LowerChar(s[i]))
  }

  predicate EndsWith(s: string, suffix: string)
  {
    |suffix| <= |s| && s[|s| - |suffix|..] == suffix
  }

  predicate StartsWith(s: string, prefix: string)
  {
    |prefix| <= |s| && s[..|prefix|] == prefix
  }

  /** The scan keeps a name whose lower-cased form ends in ".xlsx" or ".xlsm" and that is not an
      Excel lock file ("~$" prefix, looked for in the name as it is). A kept name is longer than the
      lock-file prefix and at least as long as an extension. */
  predicate IsWorkbookFile(name: string)
    ensures IsWorkbookFile(name) ==> |name| >= 5 && name[..2] != "~$"
  {
    (EndsWith(Lower(name), ".xlsx") || EndsWith(Lower(name), ".xlsm")) && !StartsWith(name, "~$")
  }

  /** Lower-casing distributes over concatenation. */
  lemma LowerAppend(a: string, b: string)
    ensures Lower(a + b) == Lower(a) + Lower(b)
  {
    assert forall i :: 0 <= i < |a + b| ==> Lower(a + b)[i] == (Lower(a) + Lower(b))[i];
  }

  /** A name is kept exactly when its last five characters, lower-cased, are one of the two
      extensions and it does not begin with the lock-file prefix: the decision looks at the
      extension case-insensitively and at nothing else in the stem. */
  lemma IsWorkbookFileByExtension(stem: string, ext: string)
    requires |ext| == 5
    ensures IsWorkbookFile(stem + ext) <==>
              (Lower(ext) == ".xlsx" || Lower(ext) == ".xlsm") && !StartsWith(stem + ext, "~$")
  {
    LowerAppend(stem, ext);
    var l := Lower(stem + ext);
    assert l[|l| - 5..] == Lower(ext);
  }

  /** Lock files are refused whatever their extension. */
  lemma LockFileRefused(rest: string)
    ensures !IsWorkbookFile("~$" + rest)
  {
    assert ("~$" + rest)[..2] == "~$";
  }

  /** The extension is matched without regard to case. */
  lemma UpperCaseExtensionKept()
    ensures IsWorkbookFile("A.XLSM")
  {
    IsWorkbookFileByExtension("A", ".XLSM");
    assert "A" + ".XLSM" == "A.XLSM";
    assert Lower(".XLSM") == ".xlsm";
    assert "A.XLSM"[..2] != "~$" by { assert "A.XLSM"[0] == 'A'; }
  }

  /** The old binary format is not offered. */
  lemma XlsRefused()
    ensures !IsWorkbookFile(".xls")
  {
  }

  /** Only the end of the name counts: a backup copy is not offered. */
  lemma BackupCopyRefused()
    ensures !IsWorkbookFile("a.xlsx.bak")
  {
    IsWorkbookFileByExtension("a.xls", "x.bak");
    assert "a.xls" + "x.bak" == "a.xlsx.bak";
    assert Lower("x.bak")[1] == '.';
  }

  /** The lock file Excel keeps beside an open workbook is not offered. */
  lemma OpenWorkbookLockRefused()
    ensures !IsWorkbookFile("~$a.xlsx")
  {
    LockFileRefused("a.xlsx");
    assert "~$" + "a.xlsx" == "~$a.xlsx";
  }

  /** The names of one directory that the scan keeps, in the order they are listed. */
  function WorkbookFiles(names: seq<string>): (files: seq<string>)
    ensures |files| <= |names|
    ensures forall k :: 0 <= k < |files| ==> files[k] in names && IsWorkbookFile(files[k])
  {
    if names == [] then []
    else WorkbookFiles(names[..|names| - 1]) +
         (if IsWorkbookFile(names[|names| - 1]) then [names[|names| - 1]] else [])
  }

  /** The scan keeps every name the predicate accepts, and only those. */
  lemma {:induction false} WorkbookFilesMembers(names: seq<string>)
    ensures forall n :: n in WorkbookFiles(names) <==> n in names && IsWorkbookFile(n)
  {
    if names != [] {
      var init := names[..|names| - 1];
      WorkbookFilesMembers(init);
      assert names == init + [names[|names| - 1]];
    }
  }

  /** The inner loop of the folder scan: go through one directory's names and append each one
      that is a workbook. */
  method ScanDirectory(names: seq<string>) returns (files: seq<string>)
    ensures files == WorkbookFiles(names)
  {
    files := [];
    var i := 0;
    while i < |names|
      invariant 0 <= i <= |names|
      invariant files == WorkbookFiles(names[..i])
    {
      assert names[..i + 1][..i] == names[..i];
      if IsWorkbookFile(names[i]) {
        files := files + [names[i]];
      }
      i := i + 1;
    }
    assert names[..i] == names;
  }
}
