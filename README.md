# Sheet editor session and workbook converter

This project models the logic of a browser spreadsheet editor, in Dafny: the
`ExcelEditor` component's session state and its handlers, and the
converter between the xlsx library's positional row grids and the editor's
sheets.

- `js_values.dfy` (module `JsValues`): JavaScript strings as sequences of
  UTF-16 code units, grid cells (`Blank`, `Text`, `Number`, `Bool`), JavaScript
  truthiness and `String(value)`.
- `excel_utils.dfy` (module `ExcelUtils`): the pure core of `readExcelFile`,
  `saveExcelFile` and `downloadExcel`.
  - Split: the first row of a grid becomes the headers. A falsy header
    cell becomes `String.fromCharCode(65 + index)`, wrapped to 16 bits as
    JavaScript does. The remaining rows are the data.
  - Flatten: `[headers, ...data]`.
  - The two `forEach` loops are methods proved against specification
    functions. One pushes sheets in `SheetNames` order. The other builds
    `SheetNames` and the name-keyed `Sheets` record.
  - The round-trip lemmas hold in both directions. The read-after-write lemma
    is an if-and-only-if: it holds exactly when no header is empty.
- `excel_editor.dfy` (module `Editor`): class `ExcelEditor` holds the
  fields `sheets`, `activeSheetIndex`, `fileName`, `modified`, `error` and the
  `isAdmin` capability.
  - Methods model the add, delete, duplicate and cell-edit handlers, plus
    the state effects of load, save and download.
  - Load and save take the outcome of their awaited call as a parameter.
  - A sheet's data is an outer array of inner row arrays. `handleCellChange`
    copies only the outer arrays and then writes into the existing inner row
    array in place, so inner row arrays are modelled by reference. The field
    `store` holds every row array the session has created, by address. A
    sheet holds addresses into it.
  - `Contents()` is the sheets as values. The session invariant `Valid()`
    says that every address is in the store and that no row array is
    reachable from two places.
  - A load, an added sheet and a duplicate create new row arrays at the end
    of the store. So a later edit of a copy cannot change the original, and
    `Scenarios.EditDuplicate` proves it.
- `scenarios.dfy` (module `Scenarios`): sessions driven through the handlers'
  contracts.
  - A duplicate edited independently of its original.
  - Two sheets ending up with the same name after a delete and an add.
  - Load of `sample.xlsx`, edit, save and download, with the download
    reading back as the edited sheets.

On these points the model follows the code, which a reader might expect to
behave otherwise:

- Sheet names are not kept unique. `Sheet{N+1}` after a delete can repeat
  a name (`Scenarios.DeleteThenAddRepeatsName`). For two sheets with one
  name, the workbook object built before the library's `write` lists the
  name twice and stores only the later sheet under it. Read back as that
  object, both positions give the later sheet, provided that sheet has no
  empty header (`ExcelUtils.DuplicateNameReadsLater`). What `write` itself does with a
  repeated name is not part of this model.
- Header synthesis is exactly `String.fromCharCode(65 + index)`: the result
  is a letter only for column indices below 26, modulo 2^16. There are no
  multi-letter column names.
- The cell edit copies the sheet list, the active sheet object and its outer
  `data` array, but not the inner row it changes: that row array is written
  in place, and so is shared with the previous state.
- A load does not reset `activeSheetIndex`. Deleting with an index outside
  the sheets removes nothing but still moves the index back and sets
  `modified`.
- Duplicating while the active index names no sheet throws a `TypeError`.
  This is modelled as the result `thrown` with the state unchanged.

## Model

| member | source | states |
|---|---|---|
| JsValues.Truthy | src/utils/excelUtils.ts:30 | a cell is falsy exactly when it is `undefined`/`null`, `""`, `0` or `false` |
| JsValues.NumberToString | src/utils/excelUtils.ts:30 | `String(n)` starts with a minus sign exactly when `n` is negative; the rest is decimal digits whose value is `|n|` |
| JsValues.DigitsValue | src/utils/excelUtils.ts:30 | the decimal digits produced for `n` denote `n` |
| JsValues.CellToString | src/utils/excelUtils.ts:30 | `String(cell)` of a truthy cell is a non-empty string, and of a text cell is that text |
| ExcelUtils.SynthesizedHeader | src/utils/excelUtils.ts:30 | `String.fromCharCode(65 + index)` is exactly one code unit |
| ExcelUtils.HeaderOf | src/utils/excelUtils.ts:30 | a header is never empty: a non-empty text cell gives its own text, a falsy cell gives the synthesized letter |
| ExcelUtils.HeadersFrom | src/utils/excelUtils.ts:29-30 | the header list has exactly one entry per first-row cell; entry `i` is `String(cell)` when the cell is truthy, else the synthesized letter for column `i` |
| ExcelUtils.SheetFromGrid | src/utils/excelUtils.ts:28-33 | an empty grid gives no headers and no data; otherwise there are as many headers as first-row cells, each `String(cell)` if truthy else `chr(65+i)`, and the data is the grid from row 1 on, unchanged |
| ExcelUtils.SynthesizedHeaderIsLetter | src/utils/excelUtils.ts:30 | the synthesized header is an upper-case letter if and only if the column index modulo 2^16 is below 26 |
| ExcelUtils.SheetsOf | src/utils/excelUtils.ts:24-40 | one sheet per listed name, in order, named after it, whose data is the worksheet's rows after the first |
| ExcelUtils.ReadExcelFile | src/utils/excelUtils.ts:22-45 | the loop pushes exactly the sheets read from each listed name, in `SheetNames` order, and returns the file name it was given |
| ExcelUtils.ReadNames | src/utils/excelUtils.ts:24-40 | reading gives one sheet per listed name, carrying that name, in the listed order |
| ExcelUtils.GridOf | src/utils/excelUtils.ts:61 | the flattened grid has `1 + |data|` rows: first the header row, one text cell per header holding that header, then the data rows unchanged |
| ExcelUtils.WorkbookOf | src/utils/excelUtils.ts:60-65 | the built workbook lists the sheets' names in order, and has a worksheet under exactly the listed names |
| ExcelUtils.BuildWorkbook | src/utils/excelUtils.ts:55-65 | the `forEach` loop builds exactly the specified workbook, its `SheetNames` are the sheets' names in order, and every listed name has a worksheet |
| ExcelUtils.WorkbookNames | src/utils/excelUtils.ts:60-64 | the written name list is the sheets' names in input order, one per sheet, and the worksheet record's keys are exactly those names |
| ExcelUtils.WorkbookKeepsLast | src/utils/excelUtils.ts:63-64 | the worksheet stored under a name is the flattened grid of the last sheet carrying that name |
| ExcelUtils.DuplicateNameReadsLater | src/utils/excelUtils.ts:63-64 | with two sheets of one name, the built workbook lists the name at both positions and stores the later sheet under it, so, when the later sheet has no empty header, both read back as that sheet |
| ExcelUtils.HeadersOfHeaderRow | src/utils/excelUtils.ts:29-30 | reading a row of non-empty header strings back gives those strings |
| ExcelUtils.ReadAfterWrite | src/utils/excelUtils.ts:28-33 | splitting a sheet's flattened grid gives back the sheet if and only if none of its headers is the empty string |
| ExcelUtils.WriteAfterRead | src/utils/excelUtils.ts:28-33 | a grid whose first row is all non-empty text is rebuilt exactly by flattening the sheet read from it |
| ExcelUtils.WorkbookRoundTrip | src/utils/excelUtils.ts:22-40 | with distinct names and non-empty headers, reading the written workbook gives back the same sheets in the same order |
| Editor.AddedSheetName | src/components/ExcelEditor.tsx:77 | the name added to `count` sheets is `Sheet` followed by the decimal digits of `count + 1` |
| Editor.AddedSheetNamesDiffer | src/components/ExcelEditor.tsx:77 | two adds give the same name if and only if they happen at the same sheet count |
| Editor.CopyNameExtends | src/components/ExcelEditor.tsx:98 | the copy's name is the original's followed by the 7 units of ` (Copy)`, so it always differs from the original's |
| Editor.RemoveIndex | src/components/ExcelEditor.tsx:88 | the filter drops exactly position `k`, keeping the others in order, and drops nothing when `k` is out of range |
| Editor.WriteAt | src/components/ExcelEditor.tsx:116 | an array assignment sets cell `c`, keeps every other cell, fills any gap with holes and grows the row to `c + 1` when needed |
| Editor.PadRows | src/components/ExcelEditor.tsx:112-114 | the padded grid has exactly `max(|grid|, r + 1)` rows: the old rows unchanged, then empty rows |
| Editor.SetCell | src/components/ExcelEditor.tsx:111-116 | the edited grid has `|grid|` rows, or `r + 1` when row `r` was missing; its cells are stated by `Editor.SetCellRows` |
| Editor.SetCellRows | src/components/ExcelEditor.tsx:111-116 | after the edit, row `r` is the old row (or a new empty one) with cell `c` set to the value; every other old row is unchanged; the rows skipped over are empty |
| Editor.SetCellInSheets | src/components/ExcelEditor.tsx:108-118 | padding the active sheet's rows and then writing one cell of it is the cell edit on that sheet, the other sheets untouched |
| Editor.AppendNewSheet | src/components/ExcelEditor.tsx:76-81 | `[...sheets, newSheet]` with new row arrays for the new sheet's data: the earlier sheets and their values are kept, the new sheet reads back as given, its rows are new addresses only, and no row array becomes shared |
| Editor.RemoveSheet | src/components/ExcelEditor.tsx:88 | the filtered sheet list still shares no row array and reads as the filtered list of values |
| Editor.CellChange | src/components/ExcelEditor.tsx:107-118 | only sheet `a` changes; its value becomes the cell edit of its old value; of the old row arrays only those of sheet `a` can change; sheet `a`'s old row addresses keep their positions; an existing row is written in place, in the same row array; no row array becomes shared |
| Editor.EnsureRow | src/components/ExcelEditor.tsx:108-114 | copying the outer arrays and creating the missing rows pads sheet `a`'s value up to row `r` and changes no other sheet; sheet `a`'s old row addresses stay a prefix of its new ones; the row written next is old to sheet `a` or new; the old store is kept |
| Editor.WriteInPlace | src/components/ExcelEditor.tsx:116 | writing into the row array changes exactly that one row array, to the old one with the cell written, and so exactly that row of sheet `a` in the sheets' value |
| Editor.CreateRows | src/utils/excelUtils.ts:26-39 | the row arrays created for a read result are appended to the store, the old store is kept, the sheets holding them share no row array, refer to the new part only, and read back as exactly the read result |
| Editor.LayoutValues | src/utils/excelUtils.ts:26-39 | sheets whose rows are laid out one after another from an address read back as the given values and share no row array |
| Editor.ExcelEditor.constructor | src/components/ExcelEditor.tsx:15-21 | initial state: no sheets, index 0, `sample.xlsx`, not modified, no error |
| Editor.ExcelEditor.HandleAddSheet | src/components/ExcelEditor.tsx:74-84 | for a non-admin nothing changes; for an admin it appends `Sheet{N+1}` with `data = [[]]`, `headers = []`, keeps the earlier sheets, activates the new sheet at the old length and sets `modified` |
| Editor.ExcelEditor.HandleDeleteSheet | src/components/ExcelEditor.tsx:86-92 | a non-admin, or a workbook of at most one sheet, is left unchanged; otherwise exactly the active sheet is removed, the others keep their order and values, the index becomes `max(0, old - 1)`, which stays below the new length, and `modified` is set; the count never drops below 1 |
| Editor.ExcelEditor.HandleDuplicateSheet | src/components/ExcelEditor.tsx:94-105 | for a non-admin nothing changes; with no sheet at the index it throws and nothing changes; otherwise it appends a deep copy in new row arrays named `name + " (Copy)"` with equal headers and data, keeps the earlier sheets, activates the copy and sets `modified` |
| Editor.ExcelEditor.HandleCellChange | src/components/ExcelEditor.tsx:107-122 | the active sheet's data becomes `SetCell(data, row, col, value)`; all other sheets, the index, file name and error are unchanged; of the old row arrays only the active sheet's can change; the active sheet's old row addresses keep their positions, and an existing edited row is written in place in its old row array; `modified` is set; no row array becomes shared |
| Editor.ExcelEditor.LoadExcelFile | src/components/ExcelEditor.tsx:27-48 | a rejected load sets the load error and keeps sheets and `modified`; a workbook without sheets sets the not-found error and keeps them; otherwise the sheets are replaced wholesale by the read result in new row arrays, `modified` is cleared and the error is cleared; the active index is not touched |
| Editor.ExcelEditor.HandleSave | src/components/ExcelEditor.tsx:50-62 | the workbook sent is the one built from the current sheets; success clears `modified`, failure leaves it; the sheets are unchanged either way |
| Editor.ExcelEditor.HandleDownload | src/components/ExcelEditor.tsx:64-72 | the downloaded workbook is the one built from the current sheets; with distinct names and non-empty headers it reads back as exactly those sheets |
| Scenarios.EditDuplicate | src/components/ExcelEditor.tsx:94-122 | after duplicating and editing the copy, the original sheet's value is unchanged and the copy holds the edit |
| Scenarios.DeleteThenAddRepeatsName | src/components/ExcelEditor.tsx:74-92 | deleting the first of `[X, Sheet2]` and then adding leaves two sheets named `Sheet2` |
| Scenarios.SampleSession | src/components/ExcelEditor.tsx:27-72 | loading the two-sheet sample, setting cell (0, 1) to 99, saving and downloading gives a workbook that reads back as the edited sheets |
| Scenarios.LoadSample | src/components/ExcelEditor.tsx:27-40 | the sample's two sheets load with index 0 and `modified` false |
| Scenarios.EditAndSave | src/components/ExcelEditor.tsx:50-58 | the edit sets `modified`; the successful save clears it and keeps the edited sheets |

## Left out

- The `fetch` of the workbook, its cache-defeating headers and timestamp, the
  `FormData`/`Blob` construction and the `/api/save-excel` POST are network
  I/O. Load and save take their outcome (`Resolved` or `Rejected`) as a
  parameter instead.
- The xlsx library's `read`, `write`, `sheet_to_json` and `aoa_to_sheet` are
  foreign calls. A worksheet is modelled as the row grid they exchange, so the
  library's own behaviour (for example dropping trailing blank rows) is not
  captured.
- `readExcelFile` on a workbook whose name list names a missing worksheet
  passes `undefined` to `sheet_to_json`, and what that does is not part of
  this model. The model requires every listed name to have a worksheet, as
  in a workbook that `read` produces.
- The browser download through an anchor element and object URLs is a browser
  side effect. `HandleDownload` returns the workbook it would encode.
- JSX rendering, toasts, console logging and the `loading` flag are UI.
- The asynchronous interleaving of load and save is a concurrency concern.
  Each completion is modelled as one atomic step.
- Selecting a sheet through the selector component (`setActiveSheetIndex` from
  `SheetSelector`): the selector is not part of this model.
- server.js (static serving, CORS and a stub save endpoint) is not part of
  this model.
- Numbers are integers. JavaScript's floating point, `NaN` (also falsy) and
  the exponent notation `String` uses from 1e21 on are not modelled.
- `Blank` stands for `undefined` and `null` alike. Writing past the end of
  `data` leaves holes in JavaScript; the model fills them with empty rows.
  Holes read the same as empty rows in every operation modelled here.
- Only the current session state is modelled: a previous React state
  object is not kept as a value of its own. The in-place write is stated on
  the store instead. `HandleCellChange` ensures that the old row addresses
  keep their positions and that the edited row is the old row array itself,
  written in place. So the previous sheet list, read against the new store,
  shows the edit, but no lemma speaks of a kept previous state.
- `HandleCellChange` requires the active index to name a sheet. The grid,
  and with it the handler, is rendered only then
  (src/components/ExcelEditor.tsx:208-212).
- A row array the session no longer uses stays in the store. Garbage
  collection is not modelled.
- The header `map` skips holes in the first row, leaving holes in `headers`.
  The model reads a hole as `Blank` and synthesizes a letter for it.
- `Literal` maps each character of a source string literal to one code unit,
  which is exact for the ASCII literals the component uses.
- Editor.ExcelEditor.HandleDownload: the read-back equality is stated only
  for workbooks with distinct names and non-empty headers, because otherwise
  it does not hold (see `ExcelUtils.ReadAfterWrite` and
  `ExcelUtils.DuplicateNameReadsLater`).
