/** The editor session of the `ExcelEditor` component: the sheet collection,
    the active sheet, the modified flag and the load error, changed by the
    structural handlers (add, delete, duplicate), the cell-edit handler and
    the completions of the asynchronous load and save.

    A sheet's data is an array of row arrays. The handlers copy the outer
    arrays but write a cell into the inner row array in place, so the inner
    row arrays are modelled by reference: the session keeps a store of every
    row array it has created, a sheet holds addresses into that store, and
    the session's invariant is that no address is reachable from two places. */
module Editor {
  import opened JsValues
  import opened ExcelUtils

  /** A reference to one inner row array: its address in the row store. */
  type Ref = nat

  /** The row arrays created so far, by address. */
  type Store = seq<seq<Cell>>

  /** `SheetData` as the component holds it: the rows by reference. */
  datatype Sheet = Sheet(name: JsString, data: seq<Ref>, headers: seq<JsString>)

  /** Why the last load put up the error screen. */
  datatype LoadError = NotFound | LoadFailed

  /** How an awaited call finished. */
  datatype Outcome<+T> = Resolved(value: T) | Rejected

  /** The row array at an address; an address the store does not have reads
      as an empty row (a valid session never holds one). */
  function Deref(store: Store, r: Ref): (row: seq<Cell>) {
    if r < |store| then store[r] else []
  }

  /** The cells behind a list of row references. */
  function GridValue(refs: seq<Ref>, store: Store): (g: Grid)
    ensures |g| == |refs|
  {
    seq(|refs|, j requires 0 <= j < |refs| => Deref(store, refs[j]))
  }

  /** A sheet as a value. */
  function ValueOf(s: Sheet, store: Store): (v: SheetData) {
    SheetData(s.name, GridValue(s.data, store), s.headers)
  }

  /** A list of sheets as values. */
  function Values(ss: seq<Sheet>, store: Store): (vs: seq<SheetData>)
    ensures |vs| == |ss|
  {
    seq(|ss|, i requires 0 <= i < |ss| => ValueOf(ss[i], store))
  }

  /** No row reference occurs twice in the list. */
  predicate DistinctRows(refs: seq<Ref>) {
    forall j, l :: 0 <= j < l < |refs| ==> refs[j] != refs[l]
  }

  /** No row array is shared, within a sheet or between two sheets. */
  predicate Unaliased(ss: seq<Sheet>) {
    && (forall i :: 0 <= i < |ss| ==> DistinctRows(ss[i].data))
    && (forall i, k, j, l :: 0 <= i < k < |ss| && 0 <= j < |ss[i].data| && 0 <= l < |ss[k].data| ==>
          ss[i].data[j] != ss[k].data[l])
  }

  /** Every row reference of the sheets is an address in `[lo, hi)`. */
  predicate Within(ss: seq<Sheet>, lo: nat, hi: nat) {
    forall i, j :: 0 <= i < |ss| && 0 <= j < |ss[i].data| ==> lo <= ss[i].data[j] < hi
  }

  /** The `k` addresses a store of size `n` gives the next `k` row arrays it
      creates. */
  function NewRefs(n: nat, k: nat): (refs: seq<Ref>)
    ensures |refs| == k
    ensures forall j :: 0 <= j < k ==> refs[j] == n + j
  {
    seq(k, j requires 0 <= j < k => n + j)
  }

  /** The rows of every sheet, one sheet after another: the row arrays
      `sheet_to_json` creates for a workbook. */
  function AllRows(vs: seq<SheetData>): (rows: Grid)
    decreases |vs|
  {
    if vs == [] then [] else AllRows(vs[..|vs| - 1]) + vs[|vs| - 1].data
  }

  /** Where the rows of sheet `i` start in `AllRows(vs)`. */
  function Offset(vs: seq<SheetData>, i: nat): (start: nat)
    requires i <= |vs|
  {
    |AllRows(vs[..i])|
  }

  /** The sheets `vs` holding their rows by reference, the rows laid out in
      order from address `n`. */
  function Layout(vs: seq<SheetData>, n: nat): (ss: seq<Sheet>)
    ensures |ss| == |vs|
  {
    seq(|vs|, i requires 0 <= i < |vs| =>
      Sheet(vs[i].name, NewRefs(n + Offset(vs, i), |vs[i].data|), vs[i].headers))
  }

  /** `s.filter((_, index) => index !== k)`. */
  function RemoveIndex<T>(s: seq<T>, k: int): (r: seq<T>)
    ensures 0 <= k < |s| ==> r == s[..k] + s[k + 1..]
    ensures !(0 <= k < |s|) ==> r == s
    decreases |s|
  {
    if s == [] then []
    else if k == |s| - 1 then RemoveIndex(s[..|s| - 1], k)
    else RemoveIndex(s[..|s| - 1], k) + [s[|s| - 1]]
  }

  /** `row[c] = v` on a JavaScript array: positions skipped over read as
      holes. */
  function WriteAt(row: seq<Cell>, c: nat, v: Cell): (r: seq<Cell>)
    ensures |r| == if c < |row| then |row| else c + 1
    ensures r[c] == v
    ensures forall k :: 0 <= k < |row| && k != c ==> r[k] == row[k]
    ensures forall k :: |row| <= k < c ==> r[k] == Blank
  {
    if c < |row| then row[c := v] else row + seq(c - |row|, _ => Blank) + [v]
  }

  /** The store `after` keeps every row array of `before` except those that
      `refs` points to, and may have created more. */
  predicate KeptOutside(before: Store, after: Store, refs: seq<Ref>) {
    |after| >= |before| && forall r :: 0 <= r < |before| && r !in refs ==> after[r] == before[r]
  }

  /** `n` empty rows. */
  function EmptyRows(n: nat): (g: Grid)
    ensures |g| == n
    ensures forall i :: 0 <= i < n ==> g[i] == []
  {
    seq(n, _ => [])
  }

  /** The grid with empty rows appended until row `r` exists. */
  function PadRows(grid: Grid, r: nat): (g: Grid)
    ensures |g| == if r < |grid| then |grid| else r + 1
    ensures forall i :: 0 <= i < |grid| ==> g[i] == grid[i]
    ensures forall i :: |grid| <= i < |g| ==> g[i] == []
  {
    if r < |grid| then grid else grid + EmptyRows(r + 1 - |grid|)
  }

  /** The data after `handleCellChange(r, c, v)`: a missing row `r` is
      created empty first (rows skipped over read as empty), then cell `c`
      of row `r` is set. */
  function SetCell(grid: Grid, r: nat, c: nat, v: Cell): (g: Grid)
    ensures |g| == if r < |grid| then |grid| else r + 1
  {
    var padded := PadRows(grid, r);
    padded[r := WriteAt(padded[r], c, v)]
  }

  /** The cells after the edit: row `r` is the old row (or a new empty one)
      with cell `c` set, every other old row is kept, and rows skipped over
      are empty. */
  lemma SetCellRows(grid: Grid, r: nat, c: nat, v: Cell)
    ensures var g := SetCell(grid, r, c, v);
            && g[r] == WriteAt(if r < |grid| then grid[r] else [], c, v)
            && g[r][c] == v
            && (forall i :: 0 <= i < |grid| && i != r ==> g[i] == grid[i])
            && (forall i :: |grid| <= i < r ==> g[i] == [])
  {
  }

  /** The name `handleAddSheet` gives the sheet it appends to `count` sheets. */
  function AddedSheetName(count: nat): (name: JsString)
    ensures |name| > 5 && name[..5] == Literal("Sheet")
    ensures forall k :: 5 <= k < |name| ==> '0' as CodeUnit <= name[k] <= '9' as CodeUnit
    ensures DecimalValue(name[5..]) == count + 1
  {
    var name := Literal("Sheet") + NumberToString(count + 1);
    assert name[5..] == NumberToString(count + 1);
    name
  }

  /** Added sheets are named apart exactly by the sheet count at the time of
      the add: two adds give the same name only at the same count. */
  lemma AddedSheetNamesDiffer(a: nat, b: nat)
    ensures AddedSheetName(a) == AddedSheetName(b) <==> a == b
  {
    if AddedSheetName(a) == AddedSheetName(b) {
      assert DecimalValue(AddedSheetName(a)[5..]) == DecimalValue(AddedSheetName(b)[5..]);
    }
  }

  /** The suffix `handleDuplicateSheet` appends to the copied sheet's name. */
  function CopySuffix(): (suffix: JsString)
    ensures |suffix| == 7 && suffix[0] == ' ' as CodeUnit && suffix[1..] == Literal("(Copy)")
  {
    Literal(" (Copy)")
  }

  /** The copy's name extends the original's: the original is a proper
      prefix of it, so a copy is never named like its original. */
  lemma CopyNameExtends(name: JsString)
    ensures var copy := name + CopySuffix();
            |copy| == |name| + 7 && copy[..|name|] == name && copy != name
  {
  }

  class ExcelEditor {
    const isAdmin: bool
    /** The row arrays the session has created, by address. */
    var store: Store
    var sheets: seq<Sheet>
    var activeSheetIndex: nat
    var fileName: JsString
    var modified: bool
    var error: Option<LoadError>

    /** Every row reference points into the store, and none is shared. */
    ghost predicate Valid()
      reads this
    {
      Unaliased(sheets) && Within(sheets, 0, |store|)
    }

    /** The sheet collection as values. */
    function Contents(): (vs: seq<SheetData>)
      reads this
    {
      Values(sheets, store)
    }

    /** The component's initial state: no sheets, the first sheet active,
        `sample.xlsx`, nothing modified, no error. */
    constructor (isAdmin: bool)
      ensures Valid()
      ensures this.isAdmin == isAdmin
      ensures sheets == [] && store == []
      ensures activeSheetIndex == 0 && fileName == Literal("sample.xlsx")
      ensures !modified && error == None
    {
      this.isAdmin := isAdmin;
      store := [];
      sheets := [];
      activeSheetIndex := 0;
      fileName := Literal("sample.xlsx");
      modified := false;
      error := None;
    }

    /** `handleAddSheet`: for an admin, append an empty sheet `Sheet{N+1}`
        and activate it. */
    method HandleAddSheet()
      requires Valid()
      modifies this
      ensures Valid()
      ensures !isAdmin ==> sheets == old(sheets) && store == old(store)
                           && activeSheetIndex == old(activeSheetIndex) && modified == old(modified)
      ensures isAdmin ==>
                && |sheets| == |old(sheets)| + 1
                && sheets[..|old(sheets)|] == old(sheets)
                && store == old(store) + [[]]
                && Contents() == old(Contents()) + [SheetData(AddedSheetName(|old(sheets)|), [[]], [])]
                && activeSheetIndex == |old(sheets)|
                && modified
      ensures fileName == old(fileName) && error == old(error)
    {
      if !isAdmin {
        return;
      }
      var updated, extended := AppendNewSheet(sheets, store, AddedSheetName(|sheets|), [[]], []);
      sheets, store, activeSheetIndex, modified := updated, extended, |sheets|, true;
    }

    /** `handleDeleteSheet`: for an admin and more than one sheet, drop the
        active sheet and step the active index back by one, not below 0. */
    method HandleDeleteSheet()
      requires Valid()
      modifies this
      ensures Valid()
      ensures store == old(store)
      ensures !isAdmin || |old(sheets)| <= 1 ==>
                sheets == old(sheets) && activeSheetIndex == old(activeSheetIndex)
                && modified == old(modified)
      ensures isAdmin && |old(sheets)| > 1 ==>
                && sheets == RemoveIndex(old(sheets), old(activeSheetIndex))
                && Contents() == RemoveIndex(old(Contents()), old(activeSheetIndex))
                && activeSheetIndex == (if old(activeSheetIndex) > 0 then old(activeSheetIndex) - 1 else 0)
                && modified
      ensures |old(sheets)| >= 1 ==> |sheets| >= 1
      ensures old(activeSheetIndex) < |old(sheets)| ==> activeSheetIndex < |sheets|
      ensures fileName == old(fileName) && error == old(error)
    {
      if !isAdmin || |sheets| <= 1 {
        return;
      }
      sheets := RemoveSheet(sheets, store, activeSheetIndex);
      activeSheetIndex := if activeSheetIndex - 1 > 0 then activeSheetIndex - 1 else 0;
      modified := true;
    }

    /** `handleDuplicateSheet`: for an admin, append a deep copy of the active
        sheet named `{name} (Copy)` and activate it. With no sheet at the
        active index, reading its name throws (`thrown`) and nothing changes. */
    method HandleDuplicateSheet() returns (thrown: bool)
      requires Valid()
      modifies this
      ensures Valid()
      ensures thrown <==> isAdmin && old(activeSheetIndex) >= |old(sheets)|
      ensures !isAdmin || thrown ==>
                sheets == old(sheets) && store == old(store)
                && activeSheetIndex == old(activeSheetIndex) && modified == old(modified)
      ensures isAdmin && !thrown ==>
                && old(activeSheetIndex) < |old(sheets)|
                && |sheets| == |old(sheets)| + 1
                && sheets[..|old(sheets)|] == old(sheets)
                && store == old(store) + old(Contents())[old(activeSheetIndex)].data
                && Contents() == old(Contents()) +
                     [old(Contents())[old(activeSheetIndex)].(name := old(Contents())[old(activeSheetIndex)].name + CopySuffix())]
                && Within(sheets[|old(sheets)|..], |old(store)|, |store|)
                && activeSheetIndex == |old(sheets)|
                && modified
      ensures fileName == old(fileName) && error == old(error)
    {
      thrown := false;
      if !isAdmin {
        return;
      }
      if activeSheetIndex >= |sheets| {
        thrown := true;
        return;
      }
      var currentSheet := sheets[activeSheetIndex];
      var copy := GridValue(currentSheet.data, store);
      var updated, extended :=
        AppendNewSheet(sheets, store, currentSheet.name + CopySuffix(), copy, currentSheet.headers);
      sheets, store, activeSheetIndex, modified := updated, extended, |sheets|, true;
    }

    /** `handleCellChange(rowIndex, columnIndex, value)` on the active sheet.
        The grid is shown, and so the handler callable, only while the active
        index names a sheet. Only row arrays of the active sheet change. */
    method HandleCellChange(rowIndex: nat, columnIndex: nat, value: Cell)
      requires Valid()
      requires activeSheetIndex < |sheets|
      modifies this
      ensures Valid()
      ensures |sheets| == |old(sheets)|
      ensures forall i :: 0 <= i < |sheets| && i != activeSheetIndex ==> sheets[i] == old(sheets[i])
      ensures var vs := Values(old(sheets), old(store));
              Contents() == vs[old(activeSheetIndex) := vs[old(activeSheetIndex)].(data :=
                SetCell(vs[old(activeSheetIndex)].data, rowIndex, columnIndex, value))]
      ensures KeptOutside(old(store), store, old(sheets[activeSheetIndex].data))
      ensures modified
      ensures activeSheetIndex == old(activeSheetIndex)
      ensures |sheets[activeSheetIndex].data| >= |old(sheets[activeSheetIndex].data)|
      ensures sheets[activeSheetIndex].data[..|old(sheets[activeSheetIndex].data)|]
              == old(sheets[activeSheetIndex].data)
      ensures rowIndex < |old(sheets[activeSheetIndex].data)| ==>
              store[old(sheets[activeSheetIndex].data[rowIndex])]
              == WriteAt(old(store[sheets[activeSheetIndex].data[rowIndex]]), columnIndex, value)
      ensures fileName == old(fileName) && error == old(error)
    {
      var updated, written := CellChange(sheets, store, activeSheetIndex, rowIndex, columnIndex, value);
      ghost var refs := sheets[activeSheetIndex].data;
      sheets, store, modified := updated, written, true;
      assert sheets[activeSheetIndex].data[..|refs|] == refs;
    }

    /** The state effects of `loadExcelFile`, given how fetching and parsing
        the file ended: a rejection or an empty workbook sets the error and
        keeps the sheets; otherwise the sheets are replaced wholesale by newly
        created row arrays and the modified flag is cleared. The active index
        is not touched. */
    method LoadExcelFile(outcome: Outcome<Workbook>)
      requires Valid()
      requires outcome.Resolved? ==> WellFormed(outcome.value)
      modifies this
      ensures Valid()
      ensures activeSheetIndex == old(activeSheetIndex) && fileName == old(fileName)
      ensures |store| >= |old(store)| && store[..|old(store)|] == old(store)
      ensures outcome.Rejected? ==>
                sheets == old(sheets) && store == old(store) && modified == old(modified)
                && error == Some(LoadFailed)
      ensures outcome.Resolved? && outcome.value.sheetNames == [] ==>
                sheets == old(sheets) && store == old(store) && modified == old(modified)
                && error == Some(NotFound)
      ensures outcome.Resolved? && outcome.value.sheetNames != [] ==>
                && Contents() == SheetsOf(outcome.value) && !modified && error == None
                && Within(sheets, |old(store)|, |store|)
    {
      error := None;
      if outcome.Rejected? {
        error := Some(LoadFailed);
        return;
      }
      var result := ReadExcelFile(fileName, outcome.value);
      if |result.sheets| == 0 {
        error := Some(NotFound);
        return;
      }
      var loaded, extended := CreateRows(result.sheets, store);
      sheets, store := loaded, extended;
      fileName := result.fileName;
      modified := false;
    }

    /** The state effects of `handleSave`: the workbook built from the
        sheets is what is sent; a successful upload clears the modified flag,
        a failed one leaves the whole state as it was. */
    method HandleSave(outcome: Outcome<()>) returns (sent: Workbook)
      requires Valid()
      modifies this
      ensures Valid()
      ensures sent == WorkbookOf(Contents())
      ensures sheets == old(sheets) && store == old(store)
      ensures activeSheetIndex == old(activeSheetIndex)
      ensures fileName == old(fileName) && error == old(error)
      ensures modified == if outcome.Resolved? then false else old(modified)
    {
      sent := BuildWorkbook(Contents());
      if outcome.Resolved? {
        modified := false;
      }
    }

    /** `handleDownload`: the workbook built from the sheets, with no effect
        on the session. With distinct names and non-empty headers it reads
        back as the sheets themselves. */
    method HandleDownload() returns (wb: Workbook)
      requires Valid()
      ensures wb == WorkbookOf(Contents())
      ensures UniqueNames(Contents()) && AllHeadersNonEmpty(Contents()) ==>
                WellFormed(wb) && SheetsOf(wb) == Contents()
    {
      wb := BuildWorkbook(Contents());
      if UniqueNames(Contents()) && AllHeadersNonEmpty(Contents()) {
        WorkbookRoundTrip(Contents());
      }
    }
  }

  /** Padding the rows of sheet `a` and then writing one cell of it is
      `SetCell` on that sheet. */
  lemma SetCellInSheets(vs: seq<SheetData>, a: nat, r: nat, c: nat, v: Cell)
    requires a < |vs|
    ensures var p := vs[a := vs[a].(data := PadRows(vs[a].data, r))];
            p[a := p[a].(data := p[a].data[r := WriteAt(p[a].data[r], c, v)])]
            == vs[a := vs[a].(data := SetCell(vs[a].data, r, c, v))]
  {
  }

  /** `[...sheets, newSheet]` for a sheet whose rows are newly created row
      arrays holding `grid`: the earlier sheets and their value are kept, the
      new sheet reads back as given, refers only to the new part of the
      store, and shares no row. */
  method AppendNewSheet(ss: seq<Sheet>, store: Store, name: JsString, grid: Grid, headers: seq<JsString>)
    returns (updated: seq<Sheet>, extended: Store)
    requires Unaliased(ss) && Within(ss, 0, |store|)
    ensures Unaliased(updated) && Within(updated, 0, |extended|)
    ensures |updated| == |ss| + 1 && updated[..|ss|] == ss
    ensures Within(updated[|ss|..], |store|, |extended|)
    ensures extended == store + grid
    ensures Values(updated, extended) == Values(ss, store) + [SheetData(name, grid, headers)]
  {
    var newSheet := Sheet(name, NewRefs(|store|, |grid|), headers);
    AppendRows(ss, store, grid);
    AppendSheet(ss, newSheet, |store|, |store| + |grid|);
    extended := store + grid;
    assert GridValue(newSheet.data, extended) == grid;
    updated := ss + [newSheet];
    assert updated[..|ss|] == ss && updated[|ss|..] == [newSheet];
  }

  /** Creating row arrays leaves the value of the sheets already in the store
      as it was. */
  lemma AppendRows(ss: seq<Sheet>, store: Store, more: Grid)
    requires Within(ss, 0, |store|)
    ensures Values(ss, store + more) == Values(ss, store)
  {
    forall i | 0 <= i < |ss| ensures ValueOf(ss[i], store + more) == ValueOf(ss[i], store) {
      assert GridValue(ss[i].data, store + more) == GridValue(ss[i].data, store) by {
        forall j | 0 <= j < |ss[i].data|
          ensures Deref(store + more, ss[i].data[j]) == Deref(store, ss[i].data[j])
        {
          assert ss[i].data[j] < |store|;
        }
      }
    }
  }

  /** A sheet whose rows are distinct and all in `[lo, hi)`, appended to
      sheets whose rows are all below `lo`, shares no row with them. */
  lemma AppendSheet(ss: seq<Sheet>, s: Sheet, lo: nat, hi: nat)
    requires Unaliased(ss) && Within(ss, 0, lo) && lo <= hi
    requires DistinctRows(s.data) && forall j :: 0 <= j < |s.data| ==> lo <= s.data[j] < hi
    ensures Unaliased(ss + [s]) && Within(ss + [s], 0, hi)
  {
  }

  /** Row `j` of sheet `i` sits at `Offset(vs, i) + j` in `AllRows(vs)`. */
  lemma {:induction false} AllRowsAt(vs: seq<SheetData>, i: nat, j: nat)
    requires i < |vs| && j < |vs[i].data|
    ensures Offset(vs, i) + j < |AllRows(vs)|
    ensures AllRows(vs)[Offset(vs, i) + j] == vs[i].data[j]
    decreases |vs|
  {
    var init := vs[..|vs| - 1];
    assert AllRows(vs) == AllRows(init) + vs[|vs| - 1].data;
    if i == |vs| - 1 {
      assert vs[..i] == init;
    } else {
      assert init[..i] == vs[..i];
      AllRowsAt(init, i, j);
    }
  }

  /** The rows of sheet `i` directly follow those of the sheets before it. */
  lemma OffsetStep(vs: seq<SheetData>, i: nat)
    requires i < |vs|
    ensures Offset(vs, i + 1) == Offset(vs, i) + |vs[i].data|
  {
    assert vs[..i + 1][..i] == vs[..i];
  }

  /** The rows of sheet `i` all come before those of any later sheet `k`. */
  lemma {:induction false} OffsetOrder(vs: seq<SheetData>, i: nat, k: nat)
    requires i < k <= |vs|
    ensures Offset(vs, i) + |vs[i].data| <= Offset(vs, k)
    decreases k - i
  {
    OffsetStep(vs, i);
    if i + 1 < k {
      OffsetOrder(vs, i + 1, k);
    }
  }

  /** Row `j` of laid-out sheet `i` is at address `n + Offset(vs, i) + j`. */
  lemma LayoutAt(vs: seq<SheetData>, n: nat, i: nat, j: nat)
    requires i < |vs|
    ensures |Layout(vs, n)[i].data| == |vs[i].data|
    ensures j < |vs[i].data| ==> Layout(vs, n)[i].data[j] == n + Offset(vs, i) + j
  {
  }

  /** Laying out the rows of `vs` from address `n` in a store that holds
      them there gives sheets with distinct rows, in that range, whose value
      is `vs`. */
  lemma LayoutValues(vs: seq<SheetData>, store: Store, n: nat)
    requires n + |AllRows(vs)| <= |store|
    requires forall t :: 0 <= t < |AllRows(vs)| ==> store[n + t] == AllRows(vs)[t]
    ensures Unaliased(Layout(vs, n))
    ensures Within(Layout(vs, n), n, n + |AllRows(vs)|)
    ensures Values(Layout(vs, n), store) == vs
  {
    LayoutUnaliased(vs, n);
    LayoutWithin(vs, n);
    var ss := Layout(vs, n);
    forall i | 0 <= i < |ss| ensures Values(ss, store)[i] == vs[i] {
      LayoutSheetValue(vs, store, n, i);
    }
  }

  /** Laid-out sheet `i` reads back from the store as `vs[i]`. */
  lemma LayoutSheetValue(vs: seq<SheetData>, store: Store, n: nat, i: nat)
    requires i < |vs| && n + |AllRows(vs)| <= |store|
    requires forall t :: 0 <= t < |AllRows(vs)| ==> store[n + t] == AllRows(vs)[t]
    ensures ValueOf(Layout(vs, n)[i], store) == vs[i]
  {
    var refs := Layout(vs, n)[i].data;
    LayoutAt(vs, n, i, 0);
    forall j | 0 <= j < |vs[i].data| ensures GridValue(refs, store)[j] == vs[i].data[j] {
      LayoutAt(vs, n, i, j);
      AllRowsAt(vs, i, j);
      var t := Offset(vs, i) + j;
      assert refs[j] == n + t && n + t < |store|;
      assert store[n + t] == AllRows(vs)[t];
      assert GridValue(refs, store)[j] == store[n + t];
    }
    assert GridValue(refs, store) == vs[i].data;
  }

  /** Laid-out sheets share no row. */
  lemma LayoutUnaliased(vs: seq<SheetData>, n: nat)
    ensures Unaliased(Layout(vs, n))
  {
    var ss := Layout(vs, n);
    forall i | 0 <= i < |ss| ensures DistinctRows(ss[i].data) {
      assert ss[i].data == NewRefs(n + Offset(vs, i), |vs[i].data|);
    }
    forall i, k, j, l | 0 <= i < k < |ss| && 0 <= j < |ss[i].data| && 0 <= l < |ss[k].data|
      ensures ss[i].data[j] != ss[k].data[l]
    {
      LayoutAt(vs, n, i, j);
      LayoutAt(vs, n, k, l);
      OffsetOrder(vs, i, k);
    }
  }

  /** Laid-out sheets refer only to the addresses their rows were laid out at. */
  lemma LayoutWithin(vs: seq<SheetData>, n: nat)
    ensures Within(Layout(vs, n), n, n + |AllRows(vs)|)
  {
    var ss := Layout(vs, n);
    forall i, j | 0 <= i < |ss| && 0 <= j < |ss[i].data| ensures n <= ss[i].data[j] < n + |AllRows(vs)| {
      LayoutAt(vs, n, i, j);
      AllRowsAt(vs, i, j);
    }
  }

  /** The row arrays `sheet_to_json` creates for the sheets `vs`, appended
      to the store after its existing rows: the sheets holding them are
      unaliased, refer to the new part of the store only, and have value
      `vs`. */
  method CreateRows(vs: seq<SheetData>, store: Store) returns (ss: seq<Sheet>, extended: Store)
    ensures Unaliased(ss) && Within(ss, |store|, |extended|) && Within(ss, 0, |extended|)
    ensures Values(ss, extended) == vs
    ensures |extended| >= |store| && extended[..|store|] == store
  {
    var n := |store|;
    var rows := AllRows(vs);
    extended := store + rows;
    forall t | 0 <= t < |rows| ensures extended[n + t] == rows[t] {
    }
    LayoutValues(vs, extended, n);
    ss := Layout(vs, n);
    forall i, j | 0 <= i < |ss| && 0 <= j < |ss[i].data| ensures 0 <= ss[i].data[j] < |extended| {
      assert n <= ss[i].data[j] < n + |rows|;
    }
    assert extended[..n] == store;
  }

  /** The data change of `handleCellChange` on sheet `a`: pad the outer
      array with new rows until row `r` exists, then write the cell into that
      row array in place. Only sheet `a`, and of the old row arrays only
      those of sheet `a`, can change. */
  method CellChange(ss: seq<Sheet>, store: Store, a: nat, r: nat, c: nat, v: Cell)
    returns (updated: seq<Sheet>, written: Store)
    requires Unaliased(ss) && Within(ss, 0, |store|) && a < |ss|
    ensures Unaliased(updated) && Within(updated, 0, |written|)
    ensures |updated| == |ss|
    ensures forall i :: 0 <= i < |ss| && i != a ==> updated[i] == ss[i]
    ensures var vs := Values(ss, store);
            Values(updated, written) == vs[a := vs[a].(data := SetCell(vs[a].data, r, c, v))]
    ensures KeptOutside(store, written, ss[a].data)
    ensures |updated[a].data| >= |ss[a].data| && updated[a].data[..|ss[a].data|] == ss[a].data
    ensures r < |ss[a].data| ==> written[ss[a].data[r]] == WriteAt(store[ss[a].data[r]], c, v)
  {
    var padded;
    updated, padded := EnsureRow(ss, store, a, r);
    written := WriteInPlace(updated, padded, a, r, c, v);
    if r < |ss[a].data| {
      assert updated[a].data[r] == ss[a].data[r];
      assert padded[ss[a].data[r]] == store[ss[a].data[r]];
    }
    SetCellInSheets(Values(ss, store), a, r, c, v);
    forall k | 0 <= k < |store| && k !in ss[a].data
      ensures written[k] == store[k]
    {
      assert padded[k] == store[k];
    }
  }

  /** The first half of `handleCellChange`: copy the outer arrays and, when
      row `r` of sheet `a` is missing, create empty row arrays for it and the
      rows skipped over. The value of sheet `a` is padded, nothing else
      changes, and the rows stay unaliased. */
  method EnsureRow(ss: seq<Sheet>, store: Store, a: nat, r: nat) returns (updated: seq<Sheet>, padded: Store)
    requires Unaliased(ss) && Within(ss, 0, |store|) && a < |ss|
    ensures Unaliased(updated) && Within(updated, 0, |padded|)
    ensures |updated| == |ss| && r < |updated[a].data|
    ensures forall i :: 0 <= i < |ss| && i != a ==> updated[i] == ss[i]
    ensures |updated[a].data| >= |ss[a].data| && updated[a].data[..|ss[a].data|] == ss[a].data
    ensures updated[a].data[r] in ss[a].data || updated[a].data[r] >= |store|
    ensures |padded| >= |store| && padded[..|store|] == store
    ensures var vs := Values(ss, store);
            Values(updated, padded) == vs[a := vs[a].(data := PadRows(vs[a].data, r))]
  {
    var currentSheet := ss[a];
    var newData := currentSheet.data;
    padded := store;
    if r >= |newData| {
      var k := r + 1 - |newData|;
      newData := newData + NewRefs(|store|, k);
      padded := store + EmptyRows(k);
      PadUnaliased(ss, store, a, k);
      PadValues(ss, store, a, r);
      assert padded[..|store|] == store;
    } else {
      assert ss[a := currentSheet.(data := newData)] == ss;
    }
    updated := ss[a := currentSheet.(data := newData)];
  }

  /** `k` new row arrays appended to sheet `a` keep the sheets unaliased and
      in the store extended by them. */
  lemma PadUnaliased(ss: seq<Sheet>, store: Store, a: nat, k: nat)
    requires Unaliased(ss) && Within(ss, 0, |store|) && a < |ss|
    ensures var t := ss[a := ss[a].(data := ss[a].data + NewRefs(|store|, k))];
            Unaliased(t) && Within(t, 0, |store| + k)
  {
  }

  /** Empty row arrays created for the missing rows of sheet `a`, up to row
      `r`, pad that sheet's value with empty rows and change no other. */
  lemma PadValues(ss: seq<Sheet>, store: Store, a: nat, r: nat)
    requires Within(ss, 0, |store|) && a < |ss| && r >= |ss[a].data|
    ensures var k := r + 1 - |ss[a].data|;
            var t := ss[a := ss[a].(data := ss[a].data + NewRefs(|store|, k))];
            var vs := Values(ss, store);
            Values(t, store + EmptyRows(k)) == vs[a := vs[a].(data := PadRows(vs[a].data, r))]
  {
    var k := r + 1 - |ss[a].data|;
    var t := ss[a := ss[a].(data := ss[a].data + NewRefs(|store|, k))];
    var st := store + EmptyRows(k);
    AppendRows(ss, store, EmptyRows(k));
    var vs := Values(ss, store);
    forall i | 0 <= i < |t|
      ensures Values(t, st)[i] == vs[a := vs[a].(data := PadRows(vs[a].data, r))][i]
    {
      if i == a {
        forall j | 0 <= j < |t[a].data| ensures GridValue(t[a].data, st)[j] == PadRows(vs[a].data, r)[j] {
          if j < |ss[a].data| {
            assert Deref(st, ss[a].data[j]) == Deref(store, ss[a].data[j]);
          }
        }
      } else {
        assert Values(t, st)[i] == Values(ss, st)[i];
      }
    }
  }

  /** The second half of `handleCellChange`: `newData[r][c] = v`, written
      into the existing row array. Only that array changes, and so only that
      row of sheet `a` in the sheets' value. */
  method WriteInPlace(ss: seq<Sheet>, store: Store, a: nat, r: nat, c: nat, v: Cell) returns (written: Store)
    requires Unaliased(ss) && Within(ss, 0, |store|) && a < |ss| && r < |ss[a].data|
    ensures |written| == |store|
    ensures forall k :: 0 <= k < |store| && k != ss[a].data[r] ==> written[k] == store[k]
    ensures written[ss[a].data[r]] == WriteAt(store[ss[a].data[r]], c, v)
    ensures var vs := Values(ss, store);
            Values(ss, written) == vs[a := vs[a].(data := vs[a].data[r := WriteAt(vs[a].data[r], c, v)])]
  {
    var row := ss[a].data[r];
    assert store[row] == Values(ss, store)[a].data[r];
    var cells := WriteAt(store[row], c, v);
    WriteValues(ss, store, a, r, cells);
    written := store[row := cells];
  }

  /** Writing into the row array behind `ss[a].data[r]` changes exactly that
      row of sheet `a` in the sheets' value, because no other reference
      points to it. */
  lemma WriteValues(ss: seq<Sheet>, store: Store, a: nat, r: nat, row: seq<Cell>)
    requires Unaliased(ss) && Within(ss, 0, |store|) && a < |ss| && r < |ss[a].data|
    ensures var vs := Values(ss, store);
            Values(ss, store[ss[a].data[r] := row]) == vs[a := vs[a].(data := vs[a].data[r := row])]
  {
    var target := ss[a].data[r];
    var st := store[target := row];
    var vs := Values(ss, store);
    forall i | 0 <= i < |ss| ensures Values(ss, st)[i] == vs[a := vs[a].(data := vs[a].data[r := row])][i] {
      if i == a {
        forall j | 0 <= j < |ss[a].data|
          ensures GridValue(ss[a].data, st)[j] == vs[a].data[r := row][j]
        {
          if j != r {
            assert ss[a].data[j] != target;
          }
        }
      } else {
        forall j | 0 <= j < |ss[i].data| ensures GridValue(ss[i].data, st)[j] == vs[i].data[j] {
          assert ss[i].data[j] != target by {
            if i < a {
              assert ss[i].data[j] != ss[a].data[r];
            } else {
              assert ss[a].data[r] != ss[i].data[j];
            }
          }
        }
      }
    }
  }

  /** `sheets.filter((_, index) => index !== k)`: the remaining sheets still
      share no row, stay in the store and read as the remaining values. */
  method RemoveSheet(ss: seq<Sheet>, store: Store, k: nat) returns (remaining: seq<Sheet>)
    requires Unaliased(ss) && Within(ss, 0, |store|)
    ensures remaining == RemoveIndex(ss, k)
    ensures Unaliased(remaining) && Within(remaining, 0, |store|)
    ensures Values(remaining, store) == RemoveIndex(Values(ss, store), k)
  {
    if k < |ss| {
      RemoveUnaliased(ss, store, k);
      RemoveValues(ss, store, k);
    }
    remaining := RemoveIndex(ss, k);
  }

  /** Removing sheet `k` keeps the rest unaliased and in the store. */
  lemma RemoveUnaliased(ss: seq<Sheet>, store: Store, k: nat)
    requires Unaliased(ss) && Within(ss, 0, |store|) && k < |ss|
    ensures Unaliased(ss[..k] + ss[k + 1..]) && Within(ss[..k] + ss[k + 1..], 0, |store|)
  {
  }

  /** Removing sheet `k` from the references removes it from the values. */
  lemma RemoveValues(ss: seq<Sheet>, store: Store, k: nat)
    requires k < |ss|
    ensures Values(ss[..k] + ss[k + 1..], store) == Values(ss, store)[..k] + Values(ss, store)[k + 1..]
  {
  }
}
