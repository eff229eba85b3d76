/** Sessions of the editor driven through its handlers, showing what callers
    can conclude from the handlers' contracts alone. */
module Scenarios {
  import opened JsValues
  import opened ExcelUtils
  import opened Editor

  /** The duplicate is a deep copy: editing a cell of the copy leaves the
      original sheet as it was. */
  method EditDuplicate(e: ExcelEditor, r: nat, c: nat, v: Cell)
    requires e.Valid() && e.isAdmin && e.activeSheetIndex < |e.sheets|
    modifies e
    ensures e.Valid()
    ensures |e.Contents()| == |old(e.Contents())| + 1
    ensures e.Contents()[old(e.activeSheetIndex)] == old(e.Contents())[old(e.activeSheetIndex)]
    ensures e.Contents()[|old(e.sheets)|].data == SetCell(old(e.Contents())[old(e.activeSheetIndex)].data, r, c, v)
  {
    var thrown := e.HandleDuplicateSheet();
    e.HandleCellChange(r, c, v);
  }

  /** Sheet names are not kept unique: deleting the first of `[X, Sheet2]` and
      then adding a sheet yields two sheets named `Sheet2`. */
  method DeleteThenAddRepeatsName(e: ExcelEditor)
    requires e.Valid() && e.isAdmin
    requires |e.sheets| == 2 && e.activeSheetIndex == 0 && e.sheets[1].name == AddedSheetName(1)
    modifies e
    ensures |e.sheets| == 2
    ensures e.sheets[0].name == e.sheets[1].name == Literal("Sheet2")
  {
    e.HandleDeleteSheet();
    e.HandleAddSheet();
    assert e.sheets[1].name == e.Contents()[1].name;
  }

  /** Load `sample.xlsx` with `Sheet1` (headers `A`, `B`, one row `1, 2`) and
      an empty `Sheet2`, set cell (0, 1) to 99, save, then download: the
      download reads back as the edited sheets. */
  method SampleSession() returns (downloaded: Workbook)
    ensures WellFormed(downloaded)
    ensures SheetsOf(downloaded) == Edited()
  {
    var e := LoadSample();
    EditAndSave(e);
    downloaded := DownloadEdited(e);
  }

  /** The start of the session: a fresh editor loads the sample. */
  method LoadSample() returns (e: ExcelEditor)
    ensures fresh(e) && e.Valid() && e.activeSheetIndex == 0 && !e.modified
    ensures e.Contents() == SheetsOf(SampleFile())
    ensures |e.sheets| == 2
  {
    e := new ExcelEditor(false);
    SampleFileReads();
    e.LoadExcelFile(Resolved(SampleFile()));
  }

  /** The middle of the session: cell (0, 1) of the loaded sample set to 99,
      then a successful save. */
  method EditAndSave(e: ExcelEditor)
    requires e.Valid() && e.activeSheetIndex == 0 && !e.modified
    requires e.Contents() == SheetsOf(SampleFile())
    modifies e
    ensures e.Valid() && e.Contents() == Edited()
    ensures !e.modified
  {
    SampleFileReads();
    assert |e.sheets| == |e.Contents()| == 2;
    e.HandleCellChange(0, 1, Number(99));
    SampleEdited();
    assert e.Contents() == Edited();
    assert e.modified;
    var sent := e.HandleSave(Resolved(()));
    assert !e.modified;
  }

  /** The end of the session: the download of the edited sample. */
  method DownloadEdited(e: ExcelEditor) returns (wb: Workbook)
    requires e.Valid() && e.Contents() == Edited()
    ensures WellFormed(wb) && SheetsOf(wb) == Edited()
  {
    SampleEdited();
    wb := e.HandleDownload();
  }

  /** The workbook of `sample.xlsx` in the session above. */
  function SampleFile(): (wb: Workbook) {
    Workbook([Literal("Sheet1"), Literal("Sheet2")],
             map[Literal("Sheet1") := [[Text(Literal("A")), Text(Literal("B"))], [Number(1), Number(2)]],
                 Literal("Sheet2") := []])
  }

  lemma SheetNamesDiffer()
    ensures Literal("Sheet1") != Literal("Sheet2")
  {
    assert Literal("Sheet1")[5] == '1' as CodeUnit;
    assert Literal("Sheet2")[5] == '2' as CodeUnit;
  }

  lemma SampleFileReads()
    ensures WellFormed(SampleFile())
    ensures SheetsOf(SampleFile()) ==
              [SheetData(Literal("Sheet1"), [[Number(1), Number(2)]], [Literal("A"), Literal("B")]),
               SheetData(Literal("Sheet2"), [], [])]
    ensures SheetsOf(SampleFile()) != []
  {
    SheetNamesDiffer();
    var row := [Text(Literal("A")), Text(Literal("B"))];
    assert HeadersFrom(row, 0) == [Literal("A"), Literal("B")];
  }

  /** The sheets of `sample.xlsx` after the edit. */
  function Edited(): (sheets: seq<SheetData>) {
    [SheetData(Literal("Sheet1"), [[Number(1), Number(99)]], [Literal("A"), Literal("B")]),
     SheetData(Literal("Sheet2"), [], [])]
  }

  lemma SampleEdited()
    ensures UniqueNames(Edited()) && AllHeadersNonEmpty(Edited())
    ensures var loaded := SheetsOf(SampleFile());
            loaded[0 := loaded[0].(data := SetCell(loaded[0].data, 0, 1, Number(99)))] == Edited()
  {
    SheetNamesDiffer();
    SampleFileReads();
    var g := [[Number(1), Number(2)]];
    assert PadRows(g, 0) == g;
    assert WriteAt(g[0], 1, Number(99)) == [Number(1), Number(99)];
    assert SetCell(g, 0, 1, Number(99)) == [[Number(1), Number(99)]];
    var loaded := SheetsOf(SampleFile());
    assert loaded[0].data == g;
  }
}
