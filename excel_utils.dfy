/** The workbook converter between the xlsx library's positional grids and the
    editor's sheets. The library calls themselves (`read`, `write`,
    `sheet_to_json`, `aoa_to_sheet`) are not modelled: a worksheet stands as
    the row grid `sheet_to_json(_, { header: 1 })` returns and
    `aoa_to_sheet` consumes. */
module ExcelUtils {
  import opened JsValues

  /** Rows of cells, as `header: 1` yields them. */
  type Grid = seq<seq<Cell>>

  /** A sheet as a value: name, data rows and column headers. */
  datatype SheetData = SheetData(name: JsString, data: Grid, headers: seq<JsString>)

  /** The workbook object the library reads and writes: the ordered sheet-name
      list and the name-keyed record of worksheets. */
  datatype Workbook = Workbook(sheetNames: seq<JsString>, sheets: map<JsString, Grid>)

  /** What `readExcelFile` returns. */
  datatype ReadResult = ReadResult(fileName: JsString, sheets: seq<SheetData>)

  /** Every listed name has a worksheet, as a workbook from `read` always does. */
  predicate WellFormed(wb: Workbook) {
    forall n :: n in wb.sheetNames ==> n in wb.sheets
  }

  // ---------------------------------------------------------------------------
  // Reading: grid -> sheet
  // ---------------------------------------------------------------------------

  /** `String.fromCharCode(65 + index)`: one code unit, wrapped to 16 bits. */
  function SynthesizedHeader(index: nat): (h: JsString)
    ensures |h| == 1
  {
    [((65 + index) % 0x1_0000) as CodeUnit]
  }

  /** The header of column `index` derived from the first-row cell there:
      never empty; a non-empty text cell is its own header, and a falsy cell
      gets the synthesized letter. */
  function HeaderOf(cell: Cell, index: nat): (h: JsString)
    ensures h != []
    ensures cell.Text? && cell.s != [] ==> h == cell.s
    ensures !Truthy(cell) ==> h == SynthesizedHeader(index)
  {
    if Truthy(cell) then CellToString(cell) else SynthesizedHeader(index)
  }

  /** `row.map((header, index) => ...)` over the row's tail starting at column
      `start`. */
  function HeadersFrom(row: seq<Cell>, start: nat): (h: seq<JsString>)
    ensures |h| == |row|
    ensures forall i :: 0 <= i < |row| ==> h[i] == HeaderOf(row[i], start + i)
    decreases |row|
  {
    if row == [] then [] else [HeaderOf(row[0], start)] + HeadersFrom(row[1..], start + 1)
  }

  /** One sheet of `readExcelFile`: the first row becomes the headers, the
      remaining rows are the data; an empty grid gives neither. */
  function SheetFromGrid(name: JsString, grid: Grid): (s: SheetData)
    ensures s.name == name
    ensures grid == [] ==> s.headers == [] && s.data == []
    ensures grid != [] ==> s.data == grid[1..]
    ensures grid != [] ==> |s.headers| == |grid[0]|
    ensures grid != [] ==> forall i :: 0 <= i < |grid[0]| ==>
              s.headers[i] == (if Truthy(grid[0][i]) then CellToString(grid[0][i])
                               else SynthesizedHeader(i))
  {
    var headers := if |grid| > 0 then HeadersFrom(grid[0], 0) else [];
    var data := if |grid| > 0 then grid[1..] else [];
    SheetData(name, data, headers)
  }

  /** The sheets `readExcelFile` builds from a workbook, one per listed name. */
  function SheetsOf(wb: Workbook): (r: seq<SheetData>)
    requires WellFormed(wb)
    ensures |r| == |wb.sheetNames|
    ensures forall i :: 0 <= i < |r| ==> r[i].name == wb.sheetNames[i]
    ensures forall i :: 0 <= i < |r| ==>
              var rows := wb.sheets[wb.sheetNames[i]];
              r[i].data == (if rows == [] then [] else rows[1..])
  {
    seq(|wb.sheetNames|, i requires 0 <= i < |wb.sheetNames| =>
      SheetFromGrid(wb.sheetNames[i], wb.sheets[wb.sheetNames[i]]))
  }

  /** The names of a list of sheets, in order. */
  function NamesOf(sheets: seq<SheetData>): (r: seq<JsString>)
    ensures |r| == |sheets|
    ensures forall i :: 0 <= i < |sheets| ==> r[i] == sheets[i].name
  {
    if sheets == [] then [] else NamesOf(sheets[..|sheets| - 1]) + [sheets[|sheets| - 1].name]
  }

  /** The conversion loop of `readExcelFile`, after the fetch and `read`: one
      sheet pushed per entry of `SheetNames`, in that order. */
  method ReadExcelFile(fileName: JsString, wb: Workbook) returns (result: ReadResult)
    requires WellFormed(wb)
    ensures result.fileName == fileName
    ensures result.sheets == SheetsOf(wb)
  {
    var sheets: seq<SheetData> := [];
    var k := 0;
    while k < |wb.sheetNames|
      invariant 0 <= k <= |wb.sheetNames|
      invariant sheets == SheetsOf(wb)[..k]
    {
      var sheetName := wb.sheetNames[k];
      var worksheet := wb.sheets[sheetName];
      sheets := sheets + [SheetFromGrid(sheetName, worksheet)];
      k := k + 1;
    }
    result := ReadResult(fileName, sheets);
  }

  /** Reading yields one sheet per listed name, named after it and in the
      listed order. */
  lemma ReadNames(wb: Workbook)
    requires WellFormed(wb)
    ensures |SheetsOf(wb)| == |wb.sheetNames|
    ensures NamesOf(SheetsOf(wb)) == wb.sheetNames
  {
  }

  // ---------------------------------------------------------------------------
  // Writing: sheet -> grid
  // ---------------------------------------------------------------------------

  /** The headers as a row of text cells. */
  function HeaderRow(headers: seq<JsString>): (row: seq<Cell>)
    ensures |row| == |headers|
    ensures forall i :: 0 <= i < |headers| ==> row[i] == Text(headers[i])
  {
    seq(|headers|, i requires 0 <= i < |headers| => Text(headers[i]))
  }

  /** `[sheet.headers, ...sheet.data]`. */
  function GridOf(sheet: SheetData): (g: Grid)
    ensures |g| == 1 + |sheet.data|
    ensures g[0] == HeaderRow(sheet.headers)
    ensures g[1..] == sheet.data
  {
    [HeaderRow(sheet.headers)] + sheet.data
  }

  /** The workbook the `forEach` of `saveExcelFile` and `downloadExcel`
      assembles: each sheet's name pushed onto `SheetNames`, then its grid
      stored under that name in `Sheets`. */
  function WorkbookOf(sheets: seq<SheetData>): (wb: Workbook)
    ensures wb.sheetNames == NamesOf(sheets)
    ensures forall n :: n in wb.sheets <==> n in wb.sheetNames
    decreases |sheets|
  {
    if sheets == [] then Workbook([], map[])
    else
      var wb := WorkbookOf(sheets[..|sheets| - 1]);
      var last := sheets[|sheets| - 1];
      Workbook(wb.sheetNames + [last.name], wb.sheets[last.name := GridOf(last)])
  }

  /** The `forEach` loop shared by `saveExcelFile` and `downloadExcel`. */
  method BuildWorkbook(sheets: seq<SheetData>) returns (wb: Workbook)
    ensures wb == WorkbookOf(sheets)
    ensures wb.sheetNames == NamesOf(sheets)
    ensures WellFormed(wb)
  {
    wb := Workbook([], map[]);
    var k := 0;
    while k < |sheets|
      invariant 0 <= k <= |sheets|
      invariant wb == WorkbookOf(sheets[..k])
    {
      var sheet := sheets[k];
      var sheetData := GridOf(sheet);
      wb := wb.(sheetNames := wb.sheetNames + [sheet.name]);
      wb := wb.(sheets := wb.sheets[sheet.name := sheetData]);
      assert sheets[..k + 1][..k] == sheets[..k];
      k := k + 1;
    }
    assert sheets[..k] == sheets;
    WorkbookNames(sheets);
  }

  // ---------------------------------------------------------------------------
  // Properties
  // ---------------------------------------------------------------------------

  /** The written name list is the sheets' names in order, one per sheet, and
      the worksheet record holds exactly those names. */
  lemma {:induction false} WorkbookNames(sheets: seq<SheetData>)
    ensures WorkbookOf(sheets).sheetNames == NamesOf(sheets)
    ensures WorkbookOf(sheets).sheets.Keys == set i | 0 <= i < |sheets| :: sheets[i].name
    ensures WellFormed(WorkbookOf(sheets))
    decreases |sheets|
  {
    if sheets != [] {
      var init := sheets[..|sheets| - 1];
      WorkbookNames(init);
      var keys := set i | 0 <= i < |sheets| :: sheets[i].name;
      var initKeys := set i | 0 <= i < |init| :: init[i].name;
      assert keys == initKeys + {sheets[|sheets| - 1].name} by {
        forall n | n in keys ensures n in initKeys + {sheets[|sheets| - 1].name} {
          var i :| 0 <= i < |sheets| && sheets[i].name == n;
          if i < |init| { assert init[i].name == n; }
        }
        forall n | n in initKeys ensures n in keys {
          var i :| 0 <= i < |init| && init[i].name == n;
          assert sheets[i].name == n;
        }
      }
    }
  }

  /** Later sheets overwrite earlier ones of the same name: the worksheet
      stored under a sheet's name is the grid of the LAST sheet carrying it. */
  lemma {:induction false} WorkbookKeepsLast(sheets: seq<SheetData>, i: nat)
    requires i < |sheets|
    requires forall j :: i < j < |sheets| ==> sheets[j].name != sheets[i].name
    ensures sheets[i].name in WorkbookOf(sheets).sheets
    ensures WorkbookOf(sheets).sheets[sheets[i].name] == GridOf(sheets[i])
    decreases |sheets|
  {
    if i < |sheets| - 1 {
      var init := sheets[..|sheets| - 1];
      WorkbookKeepsLast(init, i);
    }
  }

  /** Header lists whose every entry is a non-empty string. */
  predicate HeadersNonEmpty(headers: seq<JsString>) {
    forall i :: 0 <= i < |headers| ==> headers[i] != []
  }

  /** Reading back a row of non-empty header strings gives the strings. */
  lemma HeadersOfHeaderRow(headers: seq<JsString>, start: nat)
    requires HeadersNonEmpty(headers)
    ensures HeadersFrom(HeaderRow(headers), start) == headers
  {
  }

  /** Round trip of one sheet: splitting the flattened grid gives back the
      sheet exactly when no header is the empty string (an empty header is
      falsy and is read back as a synthesized letter). */
  lemma ReadAfterWrite(sheet: SheetData)
    ensures SheetFromGrid(sheet.name, GridOf(sheet)) == sheet <==> HeadersNonEmpty(sheet.headers)
  {
  }

  /** The converse round trip: a grid whose first row is all non-empty text
      is rebuilt exactly by flattening the sheet read from it. */
  lemma WriteAfterRead(name: JsString, grid: Grid)
    requires grid != []
    requires forall i :: 0 <= i < |grid[0]| ==> grid[0][i].Text? && grid[0][i].s != []
    ensures GridOf(SheetFromGrid(name, grid)) == grid
  {
    var g := GridOf(SheetFromGrid(name, grid));
    assert g[0] == grid[0];
    assert g == [g[0]] + g[1..];
    assert grid == [grid[0]] + grid[1..];
  }

  /** No two sheets share a name. */
  predicate UniqueNames(sheets: seq<SheetData>) {
    forall i, j :: 0 <= i < j < |sheets| ==> sheets[i].name != sheets[j].name
  }

  /** No sheet has an empty header. */
  predicate AllHeadersNonEmpty(sheets: seq<SheetData>) {
    forall i :: 0 <= i < |sheets| ==> HeadersNonEmpty(sheets[i].headers)
  }

  /** Round trip of a workbook: with distinct names and non-empty headers,
      reading the written workbook gives back the sheets. */
  lemma WorkbookRoundTrip(sheets: seq<SheetData>)
    requires UniqueNames(sheets)
    requires AllHeadersNonEmpty(sheets)
    ensures WellFormed(WorkbookOf(sheets))
    ensures SheetsOf(WorkbookOf(sheets)) == sheets
  {
    WorkbookNames(sheets);
    var back := SheetsOf(WorkbookOf(sheets));
    forall i | 0 <= i < |sheets| ensures back[i] == sheets[i] {
      WorkbookKeepsLast(sheets, i);
      ReadAfterWrite(sheets[i]);
    }
  }

  /** Two sheets with one name: the name is written twice, and both read back
      as the later sheet. */
  lemma DuplicateNameReadsLater(sheets: seq<SheetData>, i: nat, j: nat)
    requires i < j < |sheets| && sheets[i].name == sheets[j].name
    requires forall k :: j < k < |sheets| ==> sheets[k].name != sheets[j].name
    requires HeadersNonEmpty(sheets[j].headers)
    ensures |WorkbookOf(sheets).sheetNames| == |sheets|
    ensures WorkbookOf(sheets).sheetNames[i] == WorkbookOf(sheets).sheetNames[j] == sheets[j].name
    ensures WellFormed(WorkbookOf(sheets))
    ensures SheetsOf(WorkbookOf(sheets))[i] == SheetsOf(WorkbookOf(sheets))[j] == sheets[j]
  {
    WorkbookNames(sheets);
    WorkbookKeepsLast(sheets, j);
    ReadAfterWrite(sheets[j]);
  }

  /** A synthesized header is an upper-case letter exactly when the column
      index, taken modulo 2^16, is below 26. */
  lemma SynthesizedHeaderIsLetter(index: nat)
    ensures 'A' as CodeUnit <= SynthesizedHeader(index)[0] <= 'Z' as CodeUnit
            <==> index % 0x1_0000 < 26
  {
  }
}
