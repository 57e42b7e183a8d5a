/**
BoundedXmlBuilder and worksheetXml of apps/api/src/infrastructure/safe-xlsx.ts: the XML of one
worksheet, built row by row and cell by cell under a byte limit. The markup itself is a parameter:
the proofs hold for any texts, in UTF-8, around the cell references.
*/
module Worksheet {
  import opened Wrappers
  import opened ZipFormat
  import opened ColumnReference

  /** The bytes of an ASCII text. */
  function Ascii(s: string): (r: Bytes)
    ensures |r| == |s|
  {
    seq(|s|, i requires 0 <= i < |s| => s[i] as int % 0x80)
  }

  // ---------- The builder ----------

  class BoundedXmlBuilder {
    const maximumBytes: int
    var chunks: seq<Bytes>
    var size: nat
    ghost var contents: Bytes

    ghost predicate Valid()
      reads this
    {
      size == |contents| && Concat(chunks) == contents
    }

    constructor (maximumBytes: int)
      ensures Valid() && contents == [] && this.maximumBytes == maximumBytes
    {
      this.maximumBytes := maximumBytes;
      chunks := [];
      size := 0;
      contents := [];
    }

    /** False stands for the thrown error. */
    method Append(value: Bytes) returns (ok: bool)
      requires Valid()
      modifies this
      ensures Valid()
      ensures ok <==> |old(contents)| + |value| <= maximumBytes
      ensures contents == if ok then old(contents) + value else old(contents)
    {
      var byteLength := |value|;
      if byteLength > maximumBytes - size {
        return false;
      }
      assert (chunks + [value])[..|chunks|] == chunks;
      chunks := chunks + [value];
      size := size + byteLength;
      contents := contents + value;
      return true;
    }

    method Finish() returns (data: Bytes)
      requires Valid()
      ensures data == contents
    {
      data := Concat(chunks);
    }
  }

  // ---------- Sheets and their markup ----------

  /**
  A number with its decimal text, or None if it is not finite; a string with its escaped text, or
  None if refused. Texts are in UTF-8.
  */
  datatype Cell = Number(text: Option<Bytes>) | Inline(text: Option<Bytes>) | OtherValue

  datatype Row = Cells(cells: seq<Cell>) | NotAnArray

  /** A width with its decimal text; None if it is not finite. */
  datatype Width = Width(text: string, value: Option<real>)

  /** UTF-16 code units. */
  type Unit = n: nat | n < 0x1_0000
  type Units = seq<Unit>

  datatype Sheet = Sheet(name: Units, rowCount: int, columnCount: int, rows: seq<Row>, widths: seq<Width>)

  /** The literal text around the values: cell and opening are given the references they print. */
  datatype Markup = Markup(
    opening: string -> Bytes,
    colsOpen: Bytes, col: (nat, string) -> Bytes, colsClose: Bytes,
    dataOpen: Bytes, rowOpen: nat -> Bytes, cell: (string, Cell) -> Bytes, rowClose: Bytes,
    close: Bytes)

  predicate CellOk(cell: Cell) {
    !cell.OtherValue? && cell.text.Some?
  }

  predicate CellsOk(cells: seq<Cell>) {
    forall i | 0 <= i < |cells| :: CellOk(cells[i])
  }

  predicate RowOk(row: Row, columnCount: int) {
    row.Cells? && |row.cells| <= columnCount && CellsOk(row.cells)
  }

  predicate RowsOk(rows: seq<Row>, columnCount: int) {
    forall i | 0 <= i < |rows| :: RowOk(rows[i], columnCount)
  }

  predicate SizeOk(sheet: Sheet) {
    1 <= sheet.rowCount <= 1_048_576 && 1 <= sheet.columnCount <= 16_384
  }

  predicate SheetOk(sheet: Sheet) {
    |sheet.rows| == sheet.rowCount && RowsOk(sheet.rows, sheet.columnCount)
  }

  /** The first k cells behind what came before, each with its own reference. */
  function AfterCells(markup: Markup, before: Bytes, cells: seq<Cell>, rowIndex: nat, k: nat): Bytes
    requires k <= |cells|
  {
    if k == 0 then before
    else AfterCells(markup, before, cells, rowIndex, k - 1) + markup.cell(CellReference(k - 1, rowIndex), cells[k - 1])
  }

  function AfterRow(markup: Markup, before: Bytes, row: Row, rowIndex: nat): Bytes {
    if row.NotAnArray? then before
    else AfterCells(markup, before + markup.rowOpen(rowIndex), row.cells, rowIndex, |row.cells|) + markup.rowClose
  }

  /** The first k rows, counted from 1. */
  function AfterRows(markup: Markup, before: Bytes, rows: seq<Row>, k: nat): Bytes
    requires k <= |rows|
  {
    if k == 0 then before else AfterRow(markup, AfterRows(markup, before, rows, k - 1), rows[k - 1], k)
  }

  function AfterWidths(markup: Markup, before: Bytes, widths: seq<Width>, k: nat): Bytes
    requires k <= |widths|
  {
    if k == 0 then before else AfterWidths(markup, before, widths, k - 1) + markup.col(k, widths[k - 1].text)
  }

  function AfterCols(markup: Markup, before: Bytes, widths: seq<Width>): Bytes {
    if widths == [] then before
    else AfterWidths(markup, before + markup.colsOpen, widths, |widths|) + markup.colsClose
  }

  /** The XML of a worksheet: its dimension, the column widths and the rows. */
  function SheetBytes(markup: Markup, sheet: Sheet): Bytes
    requires SizeOk(sheet)
  {
    var opening := markup.opening(CellReference(sheet.columnCount - 1, sheet.rowCount));
    var head := AfterCols(markup, opening, sheet.widths) + markup.dataOpen;
    AfterRows(markup, head, sheet.rows, |sheet.rows|) + markup.close
  }

  // ---------- What follows leaves a text as its beginning ----------

  lemma {:induction false} CellsGrow(markup: Markup, before: Bytes, cells: seq<Cell>, rowIndex: nat, k: nat, n: nat)
    requires k <= n <= |cells|
    ensures AfterCells(markup, before, cells, rowIndex, k) <= AfterCells(markup, before, cells, rowIndex, n)
    decreases n
  {
    if k < n {
      CellsGrow(markup, before, cells, rowIndex, k, n - 1);
    }
  }

  lemma RowGrows(markup: Markup, before: Bytes, row: Row, rowIndex: nat)
    ensures before <= AfterRow(markup, before, row, rowIndex)
    ensures row.Cells? ==> before + markup.rowOpen(rowIndex) <= AfterRow(markup, before, row, rowIndex)
  {
    if row.Cells? {
      CellsGrow(markup, before + markup.rowOpen(rowIndex), row.cells, rowIndex, 0, |row.cells|);
    }
  }

  lemma {:induction false} RowsGrow(markup: Markup, before: Bytes, rows: seq<Row>, k: nat, n: nat)
    requires k <= n <= |rows|
    ensures AfterRows(markup, before, rows, k) <= AfterRows(markup, before, rows, n)
    decreases n
  {
    if k < n {
      RowsGrow(markup, before, rows, k, n - 1);
      RowGrows(markup, AfterRows(markup, before, rows, n - 1), rows[n - 1], n);
    }
  }

  lemma {:induction false} WidthsGrow(markup: Markup, before: Bytes, widths: seq<Width>, k: nat, n: nat)
    requires k <= n <= |widths|
    ensures AfterWidths(markup, before, widths, k) <= AfterWidths(markup, before, widths, n)
    decreases n
  {
    if k < n {
      WidthsGrow(markup, before, widths, k, n - 1);
    }
  }

  lemma ColsGrow(markup: Markup, before: Bytes, widths: seq<Width>)
    ensures before <= AfterCols(markup, before, widths)
    ensures widths != [] ==> before + markup.colsOpen <= AfterCols(markup, before, widths)
  {
    WidthsGrow(markup, before + markup.colsOpen, widths, 0, |widths|);
  }

  // ---------- Building it ----------

  /** The inner loop of worksheetXml. */
  method AppendCells(markup: Markup, builder: BoundedXmlBuilder, cells: seq<Cell>, rowIndex: nat) returns (ok: bool)
    requires builder.Valid()
    modifies builder
    ensures ok ==> CellsOk(cells) && builder.Valid()
    ensures ok ==> builder.contents == AfterCells(markup, old(builder.contents), cells, rowIndex, |cells|)
    ensures !ok && CellsOk(cells) ==>
      |AfterCells(markup, old(builder.contents), cells, rowIndex, |cells|)| > builder.maximumBytes
  {
    ghost var before := builder.contents;
    for c := 0 to |cells|
      invariant builder.Valid() && forall i | 0 <= i < c :: CellOk(cells[i])
      invariant builder.contents == AfterCells(markup, before, cells, rowIndex, c)
    {
      if !CellOk(cells[c]) {
        return false;
      }
      var column := MakeColumnReference(c);
      ok := builder.Append(markup.cell(column + Decimal(rowIndex), cells[c]));
      if !ok {
        CellsGrow(markup, before, cells, rowIndex, c + 1, |cells|);
        return;
      }
    }
    ok := true;
  }

  /** One turn of the outer loop. */
  method AppendRow(markup: Markup, builder: BoundedXmlBuilder, row: Row, rowIndex: nat, columnCount: int)
    returns (ok: bool)
    requires builder.Valid()
    modifies builder
    ensures ok ==> RowOk(row, columnCount) && builder.Valid()
    ensures ok ==> builder.contents == AfterRow(markup, old(builder.contents), row, rowIndex)
    ensures !ok && RowOk(row, columnCount) ==>
      |AfterRow(markup, old(builder.contents), row, rowIndex)| > builder.maximumBytes
  {
    if row.NotAnArray? || |row.cells| > columnCount {
      return false;
    }
    RowGrows(markup, builder.contents, row, rowIndex);
    ok := builder.Append(markup.rowOpen(rowIndex));
    if ok {
      ok := AppendCells(markup, builder, row.cells, rowIndex);
    }
    if ok {
      ok := builder.Append(markup.rowClose);
    }
  }

  /** A row that is accepted but does not fit makes the whole text too long. */
  lemma NextRowExceeds(markup: Markup, before: Bytes, sheet: Sheet, k: nat, maximumBytes: int)
    requires 0 < k <= |sheet.rows|
    requires RowOk(sheet.rows[k - 1], sheet.columnCount) ==>
               |AfterRow(markup, AfterRows(markup, before, sheet.rows, k - 1), sheet.rows[k - 1], k)| > maximumBytes
    ensures SheetOk(sheet) ==> |AfterRows(markup, before, sheet.rows, |sheet.rows|)| > maximumBytes
  {
    RowsGrow(markup, before, sheet.rows, k, |sheet.rows|);
  }

  /** The outer loop of worksheetXml. */
  method AppendRows(markup: Markup, builder: BoundedXmlBuilder, sheet: Sheet) returns (ok: bool)
    requires builder.Valid()
    modifies builder
    ensures ok ==> SheetOk(sheet) && builder.Valid()
    ensures ok ==> builder.contents == AfterRows(markup, old(builder.contents), sheet.rows, |sheet.rows|)
    ensures !ok && SheetOk(sheet) ==>
      |AfterRows(markup, old(builder.contents), sheet.rows, |sheet.rows|)| > builder.maximumBytes
  {
    ghost var before := builder.contents;
    var rowIndex := 0;
    while rowIndex < |sheet.rows|
      invariant 0 <= rowIndex <= |sheet.rows|
      invariant builder.Valid() && forall i | 0 <= i < rowIndex :: RowOk(sheet.rows[i], sheet.columnCount)
      invariant builder.contents == AfterRows(markup, before, sheet.rows, rowIndex)
    {
      var row := sheet.rows[rowIndex];
      rowIndex := rowIndex + 1;
      if rowIndex > sheet.rowCount {
        return false;
      }
      ok := AppendRow(markup, builder, row, rowIndex, sheet.columnCount);
      if !ok {
        NextRowExceeds(markup, before, sheet, rowIndex, builder.maximumBytes);
        return;
      }
    }
    ok := rowIndex == sheet.rowCount;
  }

  method AppendCols(markup: Markup, builder: BoundedXmlBuilder, widths: seq<Width>) returns (ok: bool)
    requires builder.Valid()
    modifies builder
    ensures ok ==> builder.Valid() && builder.contents == AfterCols(markup, old(builder.contents), widths)
    ensures !ok ==> |AfterCols(markup, old(builder.contents), widths)| > builder.maximumBytes
  {
    if |widths| == 0 {
      return true;
    }
    ColsGrow(markup, builder.contents, widths);
    ghost var before := builder.contents + markup.colsOpen;
    ok := builder.Append(markup.colsOpen);
    if !ok {
      return;
    }
    for i := 0 to |widths|
      invariant builder.Valid() && builder.contents == AfterWidths(markup, before, widths, i)
    {
      WidthsGrow(markup, before, widths, i + 1, |widths|);
      ok := builder.Append(markup.col(i + 1, widths[i].text));
      if !ok {
        return;
      }
    }
    ok := builder.Append(markup.colsClose);
  }

  /** Everything in front of the rows. */
  method AppendHead(markup: Markup, builder: BoundedXmlBuilder, sheet: Sheet) returns (ok: bool)
    requires builder.Valid() && builder.contents == [] && SizeOk(sheet)
    modifies builder
    ensures ok ==> builder.Valid()
    ensures var opening := markup.opening(CellReference(sheet.columnCount - 1, sheet.rowCount));
            var head := AfterCols(markup, opening, sheet.widths) + markup.dataOpen;
            if ok then builder.contents == head else |head| > builder.maximumBytes
  {
    var column := MakeColumnReference(sheet.columnCount - 1);
    ghost var opening := markup.opening(CellReference(sheet.columnCount - 1, sheet.rowCount));
    ColsGrow(markup, opening, sheet.widths);
    ok := builder.Append(markup.opening(column + Decimal(sheet.rowCount)));
    assert [] + opening == opening;
    if ok {
      ok := AppendCols(markup, builder, sheet.widths);
    }
    if ok {
      ok := builder.Append(markup.dataOpen);
    }
  }

  /** worksheetXml: the whole text if every row is accepted and it fits, and None (the thrown error) otherwise. */
  method WorksheetXml(markup: Markup, sheet: Sheet, maximumBytes: int) returns (xml: Option<Bytes>)
    requires SizeOk(sheet)
    ensures xml.Some? <==> SheetOk(sheet) && |SheetBytes(markup, sheet)| <= maximumBytes
    ensures xml.Some? ==> xml.value == SheetBytes(markup, sheet)
  {
    var builder := new BoundedXmlBuilder(maximumBytes);
    ghost var opening := markup.opening(CellReference(sheet.columnCount - 1, sheet.rowCount));
    ghost var head := AfterCols(markup, opening, sheet.widths) + markup.dataOpen;
    RowsGrow(markup, head, sheet.rows, 0, |sheet.rows|);
    var ok := AppendHead(markup, builder, sheet);
    if ok {
      ok := AppendRows(markup, builder, sheet);
    }
    if ok {
      ok := builder.Append(markup.close);
    }
    if !ok {
      return None;
    }
    var data := builder.Finish();
    xml := Some(data);
  }
}
