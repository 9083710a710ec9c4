/** The spreadsheet log of server.js: column widths and appending one
    submission to the "Form Submissions" sheet of the workbook file. */
module Excel {
  import opened Wrappers
  import opened Records

  /** The sheet every submission is appended to. */
  const SheetName: string := "Form Submissions"

  /** Extra characters added to every column width. */
  const Padding: nat := 2

  /** One entry of a sheet's `!cols` list: a width in characters. */
  datatype ColInfo = ColInfo(wch: nat)

  /** A worksheet: the rows it encodes and its column widths. Storing the rows
      themselves makes decoding give back what was encoded. */
  datatype Sheet = Sheet(rows: seq<Row>, cols: seq<ColInfo>)

  /** A workbook: the sheet names in order (`SheetNames`) and the sheets by name (`Sheets`). */
  datatype Workbook = Workbook(names: seq<string>, sheets: map<string, Sheet>)

  /** The names list and the sheet map describe the same sheets, each name once. */
  ghost predicate WellFormed(wb: Workbook)
  {
    && (forall i, j :: 0 <= i < j < |wb.names| ==> wb.names[i] != wb.names[j])
    && (forall n :: n in wb.names <==> n in wb.sheets)
  }

  /** The file on disk: the workbook it holds (`None` when the file does not
      exist), and whether reading and writing it succeed. */
  datatype Disk = Disk(file: Option<Workbook>, readOk: bool, writeOk: bool)

  /** What `appendToExcel` does: the workbook it wrote, or the error it threw
      (a file access error, or the library's refusal of a sheet name that the
      names list already has). */
  datatype AppendResult = Saved(workbook: Workbook) | FileAccessError | SheetNameTaken

  function Max(a: nat, b: nat): (m: nat)
    ensures m >= a && m >= b && (m == a || m == b)
  {
    if a >= b then a else b
  }

  // ---------------------------------------------------------------------------
  // Column widths (autoAdjustColumnWidths)

  /** `String(row[key] || "").length`. */
  function CellWidth(row: Row, key: string): nat
  {
    Utf16Length(CellText(Lookup(row, key)))
  }

  /** A cell that is missing, explicitly `undefined` or empty has width 0, and
      only such a cell does. */
  lemma {:induction false} MissingOrEmptyCellIsZero(row: Row, key: string)
    ensures key !in Keys(row) ==> CellWidth(row, key) == 0
    ensures CellWidth(row, key) == 0 <==> Lookup(row, key) == Undefined || Lookup(row, key) == Str("")
  {
    LookupFindsFirst(row, key);
  }

  /** The longest cell of column `key` over `data`, 0 when there are no rows. */
  function MaxContentWidth(data: seq<Row>, key: string): (m: nat)
    ensures forall j :: 0 <= j < |data| ==> CellWidth(data[j], key) <= m
    ensures data == [] ==> m == 0
    ensures data != [] ==> exists j :: 0 <= j < |data| && m == CellWidth(data[j], key)
  {
    if data == [] then 0
    else
      var rest := MaxContentWidth(data[1..], key);
      assert forall j :: 0 <= j < |data| - 1 ==> data[1..][j] == data[j + 1];
      Max(CellWidth(data[0], key), rest)
  }

  /** `w` is the padded maximum of the header length and every cell length of
      column `key`: it bounds each of them and is attained by one of them. */
  ghost predicate IsColumnWidth(w: nat, key: string, data: seq<Row>)
  {
    && w >= Utf16Length(key) + Padding
    && (forall j :: 0 <= j < |data| ==> w >= CellWidth(data[j], key) + Padding)
    && (w == Utf16Length(key) + Padding
        || exists j :: 0 <= j < |data| && w == CellWidth(data[j], key) + Padding)
  }

  /** `Math.max(key.length, ...data.map(...)) + 2`. */
  function ColumnWidth(key: string, data: seq<Row>): (w: nat)
    ensures IsColumnWidth(w, key, data)
  {
    Max(Utf16Length(key), MaxContentWidth(data, key)) + Padding
  }

  /** The width of a column is determined by its header and its cells alone. */
  lemma ColumnWidthUnique(w1: nat, w2: nat, key: string, data: seq<Row>)
    requires IsColumnWidth(w1, key, data) && IsColumnWidth(w2, key, data)
    ensures w1 == w2
  {
  }

  /** The `!cols` list for `data`: one width per key of the first row, in key order. */
  function ColumnWidths(data: seq<Row>): (cols: seq<ColInfo>)
    ensures data == [] ==> cols == []
    ensures data != [] ==> |cols| == |data[0]|
    ensures forall i :: 0 <= i < |cols| ==> IsColumnWidth(cols[i].wch, data[0][i].key, data)
  {
    var keys := if data == [] then [] else Keys(data[0]);
    seq(|keys|, i requires 0 <= i < |keys| => ColInfo(ColumnWidth(keys[i], data)))
  }

  /** A key that only later rows have gets no column width: every width
      belongs to a key of the first row, and that key is not `k`. */
  lemma LaterKeysGetNoWidth(data: seq<Row>, k: string)
    requires data != [] && k !in Keys(data[0])
    ensures |ColumnWidths(data)| == |data[0]|
    ensures forall i :: 0 <= i < |ColumnWidths(data)| ==>
      data[0][i].key != k && IsColumnWidth(ColumnWidths(data)[i].wch, data[0][i].key, data)
  {
    var cols := ColumnWidths(data);
    forall i | 0 <= i < |cols| ensures data[0][i].key != k {
      assert Keys(data[0])[i] == data[0][i].key;
    }
  }

  /** A two-column second row under a one-column first row gets one width,
      and it covers both rows' cells of that column. */
  lemma ExampleColumnWidths()
    ensures var data := [[Field("a", Str("x"))], [Field("a", Str("yyyy")), Field("b", Str("zzzzzzzz"))]];
            ColumnWidths(data) == [ColInfo(6)]
  {
    var data := [[Field("a", Str("x"))], [Field("a", Str("yyyy")), Field("b", Str("zzzzzzzz"))]];
    var cols := ColumnWidths(data);
    assert Lookup(data[0], "a") == Str("x");
    assert Lookup(data[1], "a") == Str("yyyy");
    assert CellWidth(data[0], "a") == 1;
    assert CellWidth(data[1], "a") == 4;
    ColumnWidthUnique(cols[0].wch, 6, "a", data);
  }

  /** `autoAdjustColumnWidths(worksheet, data)`: sets the sheet's `!cols` from `data`. */
  function AutoAdjustColumnWidths(worksheet: Sheet, data: seq<Row>): (ws: Sheet)
    ensures ws.rows == worksheet.rows
    ensures |ws.cols| == if data == [] then 0 else |data[0]|
    ensures forall i :: 0 <= i < |ws.cols| ==> IsColumnWidth(ws.cols[i].wch, data[0][i].key, data)
  {
    worksheet.(cols := ColumnWidths(data))
  }

  // ---------------------------------------------------------------------------
  // Workbook operations whose library code is not part of this model

  /** `XLSX.utils.json_to_sheet(rows)`. */
  function JsonToSheet(rows: seq<Row>): Sheet
  {
    Sheet(rows, [])
  }

  /** `XLSX.utils.sheet_to_json(worksheet)`. */
  function SheetToJson(worksheet: Sheet): seq<Row>
  {
    worksheet.rows
  }

  /** The assumption about the encoding library: decoding a sheet gives back the rows it was made from. */
  lemma SheetRoundTrip(rows: seq<Row>)
    ensures SheetToJson(JsonToSheet(rows)) == rows
  {
  }

  /** `XLSX.utils.book_new()`. */
  function BookNew(): (wb: Workbook)
    ensures WellFormed(wb) && wb.sheets == map[]
  {
    Workbook([], map[])
  }

  /** `XLSX.utils.book_append_sheet(wb, worksheet, name)`: the library throws
      on a name already in the workbook's names, so callers pass a new one. */
  function BookAppendSheet(wb: Workbook, worksheet: Sheet, name: string): (wb': Workbook)
    requires name !in wb.names && name !in wb.sheets
    ensures WellFormed(wb) ==> WellFormed(wb')
    ensures wb'.names == wb.names + [name]
    ensures wb'.sheets == wb.sheets[name := worksheet]
  {
    Workbook(wb.names + [name], wb.sheets[name := worksheet])
  }

  // ---------------------------------------------------------------------------
  // Appending one submission (appendToExcel)

  /** Reading and writing the file both succeed (the file is read only when it exists). */
  predicate FileAccessOk(disk: Disk)
  {
    (disk.file.Some? ==> disk.readOk) && disk.writeOk
  }

  /** The file lists the sheet name without holding a sheet under it, so
      `book_append_sheet` would refuse the name; a workbook the library reads
      is never like this. */
  predicate NameWithoutSheet(file: Option<Workbook>)
  {
    file.Some? && SheetName !in file.value.sheets && SheetName in file.value.names
  }

  /** Every step of the append succeeds. */
  predicate AppendSucceeds(disk: Disk)
  {
    FileAccessOk(disk) && !NameWithoutSheet(disk.file)
  }

  /** The rows already logged: those of the sheet when the file and sheet exist, none otherwise. */
  function LoggedRows(file: Option<Workbook>): seq<Row>
  {
    if file.Some? && SheetName in file.value.sheets then file.value.sheets[SheetName].rows else []
  }

  /** The sheets in the file, none when it does not exist. */
  function SheetsOf(file: Option<Workbook>): map<string, Sheet>
  {
    if file.Some? then file.value.sheets else map[]
  }

  /** The sheet names in the file, none when it does not exist. */
  function NamesOf(file: Option<Workbook>): seq<string>
  {
    if file.Some? then file.value.names else []
  }

  /** The workbook written back after appending `data`: the named sheet holds the
      logged rows followed by `data`, with widths recomputed over all of them;
      a sheet that was missing is added at the end of the names. */
  function Appended(file: Option<Workbook>, data: Row): (wb: Workbook)
    ensures SheetName in wb.sheets
    ensures wb.sheets[SheetName].rows == LoggedRows(file) + [data]
    ensures wb.sheets[SheetName].cols == ColumnWidths(LoggedRows(file) + [data])
    ensures forall n :: n in wb.sheets && n != SheetName <==> n in SheetsOf(file) && n != SheetName
    ensures forall n :: n in SheetsOf(file) && n != SheetName ==> wb.sheets[n] == SheetsOf(file)[n]
    ensures file.Some? && WellFormed(file.value) ==> WellFormed(wb)
    ensures wb.names == if SheetName in SheetsOf(file) then NamesOf(file) else NamesOf(file) + [SheetName]
    ensures file.None? ==> WellFormed(wb) && wb.names == [SheetName]
  {
    var rows := LoggedRows(file) + [data];
    var names := if SheetName in SheetsOf(file) then NamesOf(file) else NamesOf(file) + [SheetName];
    Workbook(names, SheetsOf(file)[SheetName := Sheet(rows, ColumnWidths(rows))])
  }

  /** `appendToExcel(data)` against the file `disk`. */
  method AppendToExcel(disk: Disk, data: Row) returns (result: AppendResult)
    ensures result.Saved? <==> AppendSucceeds(disk)
    ensures result == SheetNameTaken <==> (disk.file.Some? ==> disk.readOk) && NameWithoutSheet(disk.file)
    ensures result.Saved? ==> result.workbook == Appended(disk.file, data)
  {
    var workbook: Workbook;
    var worksheet: Sheet;
    var existingData: seq<Row> := [];

    if disk.file.Some? {
      if !disk.readOk {
        return FileAccessError;
      }
      workbook := disk.file.value;
      if SheetName in workbook.sheets {
        worksheet := workbook.sheets[SheetName];
        existingData := SheetToJson(worksheet);
      } else {
        worksheet := JsonToSheet([]);
        if SheetName in workbook.names {
          return SheetNameTaken;
        }
        workbook := BookAppendSheet(workbook, worksheet, SheetName);
      }
    } else {
      workbook := BookNew();
      worksheet := JsonToSheet([]);
      workbook := BookAppendSheet(workbook, worksheet, SheetName);
    }

    existingData := existingData + [data];

    var updatedWorksheet := JsonToSheet(existingData);
    updatedWorksheet := AutoAdjustColumnWidths(updatedWorksheet, existingData);

    workbook := workbook.(sheets := workbook.sheets[SheetName := updatedWorksheet]);
    if !disk.writeOk {
      return FileAccessError;
    }
    result := Saved(workbook);
  }

  /** Appending grows the log by exactly one row and keeps the earlier rows,
      in order, as they were. */
  lemma AppendKeepsEarlierRows(file: Option<Workbook>, data: Row)
    ensures |LoggedRows(Some(Appended(file, data)))| == |LoggedRows(file)| + 1
    ensures forall i :: 0 <= i < |LoggedRows(file)| ==> LoggedRows(Some(Appended(file, data)))[i] == LoggedRows(file)[i]
    ensures LoggedRows(Some(Appended(file, data)))[|LoggedRows(file)|] == data
  {
  }

  /** Without the file, or without the sheet in it, the sheet afterwards holds
      just the new record; a new file holds that one sheet and nothing else. */
  lemma NewSheetHoldsOneRow(file: Option<Workbook>, data: Row)
    requires file.None? || SheetName !in file.value.sheets
    ensures LoggedRows(Some(Appended(file, data))) == [data]
    ensures file.None? ==> Appended(file, data).sheets.Keys == {SheetName}
  {
  }

  /** Appending is not idempotent: the same record submitted twice is logged twice. */
  lemma RepeatedAppendLogsTwice(file: Option<Workbook>, data: Row)
    ensures LoggedRows(Some(Appended(Some(Appended(file, data)), data))) == LoggedRows(file) + [data, data]
  {
  }
}
