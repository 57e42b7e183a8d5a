/**
The markup of a worksheet as worksheetXml of apps/api/src/infrastructure/safe-xlsx.ts spells it, and
a reader of its text: it finds the cells by their opening tags (ECMA-376 Part 1, section 18.3.1.4),
and takes the reference of each and the text between its tags.
*/
module WorksheetReader {
  import opened Wrappers
  import opened ZipFormat
  import opened ColumnReference
  import opened Worksheet

  const OPEN: Byte := 0x3C
  const CLOSE: Byte := 0x3E
  const QUOTE: Byte := 0x22

  // ---------- The markup ----------

  function Tag(s: string): Bytes {
    [OPEN] + Ascii(s) + [CLOSE]
  }

  function Tags(names: seq<string>): Bytes {
    if names == [] then [] else Tag(names[0]) + Tags(names[1..])
  }

  /** The opening tag of a cell, from its reference on. */
  function Attributes(reference: string, cell: Cell): string {
    "c r=\"" + reference + if cell.Inline? then "\" t=\"inlineStr\"" else "\""
  }

  function Openings(cell: Cell): seq<string> {
    if cell.Inline? then ["is", "t xml:space=\"preserve\""] else ["v"]
  }

  function Closings(cell: Cell): seq<string> {
    if cell.Inline? then ["/t", "/is"] else ["/v"]
  }

  function CellXml(reference: string, cell: Cell): Bytes {
    var text := if !cell.OtherValue? && cell.text.Some? then cell.text.value else [];
    Tag(Attributes(reference, cell)) + Tags(Openings(cell)) + text + Tags(Closings(cell)) + Tag("/c")
  }

  function ColXml(column: nat, width: string): Bytes {
    Tag("col min=\"" + Decimal(column) + "\" max=\"" + Decimal(column) + "\" width=\"" + width
        + "\" customWidth=\"1\"/")
  }

  const DECLARATION: string := "?xml version=\"1.0\" " + "encoding=\"UTF-8\" " + "standalone=\"yes\"?"
  const WORKSHEET: string := "worksheet xmlns=\"http://" + "schemas.openxmlformats.org/" + "spreadsheetml/2006/main\""

  function Dimension(last: string): string {
    "dimension ref=\"A1:" + last + "\"/"
  }

  function OpeningXml(last: string): Bytes {
    Tag(DECLARATION) + Tag(WORKSHEET) + Tag(Dimension(last))
  }

  function RowXml(row: nat): Bytes {
    Tag("row r=\"" + Decimal(row) + "\"")
  }

  /** The literal texts of worksheetXml. */
  const XML := Markup(OpeningXml, Tag("cols"), ColXml, Tag("/cols"),
                      Tag("sheetData"), RowXml, CellXml, Tag("/row"), Tags(["/sheetData", "/worksheet"]))

  // ---------- The reader ----------

  predicate StartsWith(b: Bytes, prefix: Bytes) {
    |prefix| <= |b| && forall i | 0 <= i < |prefix| :: b[i] == prefix[i]
  }

  function UpTo(b: Bytes, stop: Byte): Bytes {
    if b == [] || b[0] == stop then [] else [b[0]] + UpTo(b[1..], stop)
  }

  /** The text outside of tags, as far as the end tag of a cell. */
  function TextOf(b: Bytes, inTag: bool): Bytes
    decreases |b|
  {
    if b == [] || StartsWith(b, Tag("/c")) then []
    else if b[0] == OPEN then TextOf(b[1..], true)
    else if inTag then TextOf(b[1..], b[0] != CLOSE)
    else [b[0]] + TextOf(b[1..], false)
  }

  const CELL: Bytes := [OPEN] + Ascii("c r=\"")

  /** The reference and the text of every cell, in the order of the text. */
  function ReadCells(b: Bytes): seq<(Bytes, Bytes)> {
    if b == [] then []
    else if StartsWith(b, CELL) then [(UpTo(b[|CELL|..], QUOTE), TextOf(b, false))] + ReadCells(b[1..])
    else ReadCells(b[1..])
  }

  // ---------- The cells of a sheet ----------

  function CellEntry(cells: seq<Cell>, row: nat, c: nat): (Bytes, Bytes)
    requires c < |cells| && CellsOk(cells)
  {
    assert CellOk(cells[c]);
    (Ascii(ColumnText(c) + Decimal(row)), cells[c].text.value)
  }

  /** The cells of one row: column c has the letters of c, followed by the number of the row. */
  function CellsOfRow(cells: seq<Cell>, row: nat): (r: seq<(Bytes, Bytes)>)
    requires CellsOk(cells)
    ensures |r| == |cells|
  {
    seq(|cells|, c requires 0 <= c < |cells| => CellEntry(cells, row, c))
  }

  /** The first k rows, counted from 1. */
  function CellsOf(rows: seq<Row>, columnCount: int, k: nat): seq<(Bytes, Bytes)>
    requires RowsOk(rows, columnCount) && k <= |rows|
  {
    if k == 0 then []
    else
      assert RowOk(rows[k - 1], columnCount);
      CellsOf(rows, columnCount, k - 1) + CellsOfRow(rows[k - 1].cells, k)
  }

  // ---------- Texts without markup ----------

  predicate Plain(b: Bytes) {
    OPEN !in b && CLOSE !in b
  }

  /** The same for an ASCII text. */
  predicate PlainText(s: string) {
    forall i | 0 <= i < |s| :: s[i] != '<' && s[i] != '>' && s[i] < '\U{80}'
  }

  lemma PlainAscii(s: string)
    requires PlainText(s)
    ensures Plain(Ascii(s))
  {
  }

  lemma ReferenceIsPlain(column: nat, row: nat)
    ensures var reference := ColumnText(column) + Decimal(row);
            PlainText(reference) && QUOTE !in Ascii(reference)
  {
  }

  // ---------- Reading pieces, whatever follows ----------

  /** No cell begins in the text: an angle bracket is followed by two characters that say so. */
  predicate Quiet(b: Bytes) {
    forall i | 0 <= i < |b| && b[i] == OPEN :: i + 2 < |b| && !(b[i + 1] == 0x63 && b[i + 2] == 0x20)
  }

  lemma QuietConcat(a: Bytes, b: Bytes)
    requires Quiet(a) && Quiet(b)
    ensures Quiet(a + b)
  {
    forall i | 0 <= i < |a + b| && (a + b)[i] == OPEN
      ensures i + 2 < |a + b| && !((a + b)[i + 1] == 0x63 && (a + b)[i + 2] == 0x20)
    {
      if i >= |a| {
        assert b[i - |a|] == OPEN;
      }
    }
  }

  /** A tag other than that of a cell. */
  lemma TagIsQuiet(s: string)
    requires s != "" && PlainText(s) && !(|s| > 1 && s[0] == 'c' && s[1] == ' ')
    ensures Quiet(Tag(s))
  {
    PlainAscii(s);
    var tag := Tag(s);
    assert tag[1] == s[0] as int && if |s| > 1 then tag[2] == s[1] as int else tag[2] == CLOSE;
    forall i | 0 < i < |tag| ensures tag[i] != OPEN {
      if i <= |s| {
        assert tag[i] == Ascii(s)[i - 1];
      }
    }
  }

  /** The piece reads as these cells, and what follows it is read as if it were alone. */
  ghost predicate Reads(piece: Bytes, cells: seq<(Bytes, Bytes)>) {
    forall rest: Bytes :: ReadCells(piece + rest) == cells + ReadCells(rest)
  }

  lemma ReadsConcat(a: Bytes, b: Bytes, x: seq<(Bytes, Bytes)>, y: seq<(Bytes, Bytes)>)
    requires Reads(a, x) && Reads(b, y)
    ensures Reads(a + b, x + y)
  {
    forall rest: Bytes ensures ReadCells(a + b + rest) == x + y + ReadCells(rest) {
      assert a + b + rest == a + (b + rest);
    }
  }

  lemma NoCellHere(b: Bytes, rest: Bytes)
    requires b != [] && Quiet(b)
    ensures !StartsWith(b + rest, CELL)
  {
    assert CELL[0] == OPEN && CELL[1] == 0x63 && CELL[2] == 0x20;
  }

  lemma {:induction false} SkipsQuiet(b: Bytes, rest: Bytes)
    requires Quiet(b)
    ensures ReadCells(b + rest) == ReadCells(rest)
  {
    if b == [] {
      assert b + rest == rest;
    } else {
      assert (b + rest)[1..] == b[1..] + rest;
      NoCellHere(b, rest);
      forall i | 0 <= i < |b[1..]| && b[1..][i] == OPEN
        ensures i + 2 < |b[1..]| && !(b[1..][i + 1] == 0x63 && b[1..][i + 2] == 0x20)
      {
        assert b[i + 1] == OPEN;
      }
      SkipsQuiet(b[1..], rest);
    }
  }

  lemma QuietReads(b: Bytes)
    requires Quiet(b)
    ensures Reads(b, [])
  {
    forall rest: Bytes ensures ReadCells(b + rest) == [] + ReadCells(rest) {
      SkipsQuiet(b, rest);
    }
  }

  // ---------- A cell ----------

  lemma {:induction false} UpToStop(b: Bytes, stop: Byte, rest: Bytes)
    requires stop !in b
    ensures UpTo(b + [stop] + rest, stop) == b
  {
    if b != [] {
      UpToStop(b[1..], stop, rest);
      assert (b + [stop] + rest)[1..] == b[1..] + [stop] + rest;
    }
  }

  lemma NoEndHere(b: Bytes)
    requires b == [] || b[0] != OPEN
    ensures !StartsWith(b, Tag("/c"))
  {
    assert Tag("/c")[0] == OPEN;
  }

  lemma {:induction false} TextInTag(b: Bytes, rest: Bytes)
    requires Plain(b)
    ensures TextOf(b + [CLOSE] + rest, true) == TextOf(rest, false)
  {
    var all := b + [CLOSE] + rest;
    NoEndHere(all);
    if b == [] {
      assert all[1..] == rest;
    } else {
      TextInTag(b[1..], rest);
      assert all[1..] == b[1..] + [CLOSE] + rest;
    }
  }

  lemma TextBegins(b: Bytes, rest: Bytes)
    requires b != [] && b[0] != OPEN
    ensures TextOf(b + rest, false) == [b[0]] + TextOf(b[1..] + rest, false)
  {
    NoEndHere(b + rest);
    assert (b + rest)[1..] == b[1..] + rest;
  }

  lemma Prepended(b: Bytes, rest: Bytes)
    requires b != []
    ensures [b[0]] + (b[1..] + rest) == b + rest
  {
  }

  lemma {:induction false} TextOutside(b: Bytes, rest: Bytes)
    requires OPEN !in b
    ensures TextOf(b + rest, false) == b + TextOf(rest, false)
  {
    if b == [] {
      assert b + rest == rest;
    } else {
      TextOutside(b[1..], rest);
      TextBegins(b, rest);
      Prepended(b, TextOf(rest, false));
    }
  }

  /** A tag that does not end a cell has no text. */
  lemma TextOfTag(s: string, rest: Bytes)
    requires PlainText(s) && |s| >= 1 && (s[0] != '/' || (|s| > 1 && s[1] != 'c'))
    ensures TextOf(Tag(s) + rest, false) == TextOf(rest, false)
  {
    var all := Tag(s) + rest;
    PlainAscii(s);
    assert Tag("/c")[1] == '/' as int % 0x80 && Tag("/c")[2] == 'c' as int % 0x80;
    assert all[1] == s[0] as int % 0x80 && (|s| > 1 ==> all[2] == s[1] as int % 0x80);
    assert all[1..] == Ascii(s) + [CLOSE] + rest;
    TextInTag(Ascii(s), rest);
  }

  lemma TextEnds(rest: Bytes)
    ensures TextOf(Tag("/c") + rest, false) == []
  {
    assert StartsWith(Tag("/c") + rest, Tag("/c"));
  }

  // ---------- A cell reads back ----------

  /** A cell whose text, as an escaped text or a number, has no angle bracket. */
  predicate CellTextOk(cell: Cell) {
    CellOk(cell) && Plain(cell.text.value)
  }

  lemma PlainIsQuiet(b: Bytes)
    requires OPEN !in b
    ensures Quiet(b)
  {
  }

  /** Tags that neither begin nor end a cell. */
  predicate Ordinary(s: string) {
    && s != "" && PlainText(s) && !(|s| > 1 && s[0] == 'c' && s[1] == ' ')
    && (s[0] != '/' || (|s| > 1 && s[1] != 'c'))
  }

  lemma {:induction false} TagsAreQuiet(names: seq<string>)
    requires forall k | 0 <= k < |names| :: Ordinary(names[k])
    ensures Quiet(Tags(names))
  {
    if names != [] {
      TagIsQuiet(names[0]);
      TagsAreQuiet(names[1..]);
      QuietConcat(Tag(names[0]), Tags(names[1..]));
    }
  }

  lemma {:induction false} TextOfTags(names: seq<string>, rest: Bytes)
    requires forall k | 0 <= k < |names| :: Ordinary(names[k])
    ensures TextOf(Tags(names) + rest, false) == TextOf(rest, false)
  {
    if names == [] {
      assert Tags(names) + rest == rest;
    } else {
      TextOfTags(names[1..], rest);
      TextOfTag(names[0], Tags(names[1..]) + rest);
      assert Tags(names) + rest == Tag(names[0]) + (Tags(names[1..]) + rest);
    }
  }

  lemma CellTagsAreOrdinary(cell: Cell)
    ensures forall k | 0 <= k < |Openings(cell)| :: Ordinary(Openings(cell)[k])
    ensures forall k | 0 <= k < |Closings(cell)| :: Ordinary(Closings(cell)[k])
  {
    assert PlainText("is") && PlainText("t xml:space=\"preserve\"") && PlainText("v");
    assert PlainText("/t") && PlainText("/is") && PlainText("/v");
  }

  lemma AttributesArePlain(reference: string, cell: Cell)
    requires PlainText(reference)
    ensures PlainText(Attributes(reference, cell)) && Plain(Ascii(Attributes(reference, cell)))
  {
    assert PlainText("c r=\"") && PlainText("\" t=\"inlineStr\"") && PlainText("\"");
    PlainAscii(Attributes(reference, cell));
  }

  lemma QuietFour(a: Bytes, b: Bytes, c: Bytes, d: Bytes)
    requires Quiet(a) && Quiet(b) && Quiet(c) && Quiet(d)
    ensures Quiet(a + b + c + d)
  {
    QuietConcat(a, b);
    QuietConcat(a + b, c);
    QuietConcat(a + b + c, d);
  }

  lemma PiecesAreQuiet(cell: Cell)
    requires CellTextOk(cell)
    ensures Quiet(Tags(Openings(cell))) && Quiet(cell.text.value) && Quiet(Tags(Closings(cell))) && Quiet(Tag("/c"))
  {
    CellTagsAreOrdinary(cell);
    TagsAreQuiet(Openings(cell));
    PlainIsQuiet(cell.text.value);
    TagsAreQuiet(Closings(cell));
    TagIsQuiet("/c");
  }

  lemma TailOf(a: Bytes, b: Bytes, c: Bytes, d: Bytes, e: Bytes)
    ensures ([OPEN] + a + [CLOSE] + b + c + d + e)[1..] == a + [CLOSE] + (b + c + d + e)
  {
  }

  /** A cell without its first character. */
  lemma RestIsQuiet(reference: string, cell: Cell)
    requires CellTextOk(cell) && PlainText(reference)
    ensures Quiet(CellXml(reference, cell)[1..])
  {
    var opening := Ascii(Attributes(reference, cell)) + [CLOSE];
    AttributesArePlain(reference, cell);
    PlainIsQuiet(opening);
    PiecesAreQuiet(cell);
    QuietFour(Tags(Openings(cell)), cell.text.value, Tags(Closings(cell)), Tag("/c"));
    QuietConcat(opening, Tags(Openings(cell)) + cell.text.value + Tags(Closings(cell)) + Tag("/c"));
    TailOf(Ascii(Attributes(reference, cell)), Tags(Openings(cell)), cell.text.value, Tags(Closings(cell)), Tag("/c"));
  }

  lemma BodyIsRead(cell: Cell, rest: Bytes)
    requires CellTextOk(cell)
    ensures var b := Tags(Openings(cell)) + (cell.text.value + (Tags(Closings(cell)) + (Tag("/c") + rest)));
            TextOf(b, false) == cell.text.value
  {
    CellTagsAreOrdinary(cell);
    TextEnds(rest);
    TextOfTags(Closings(cell), Tag("/c") + rest);
    TextOutside(cell.text.value, Tags(Closings(cell)) + (Tag("/c") + rest));
    TextOfTags(Openings(cell), cell.text.value + (Tags(Closings(cell)) + (Tag("/c") + rest)));
  }

  /** What follows the reference in the opening tag, without its quote. */
  function After(cell: Cell): string {
    if cell.Inline? then " t=\"inlineStr\"" else ""
  }

  lemma AttributesSplit(reference: string, cell: Cell)
    ensures Ascii(Attributes(reference, cell)) == Ascii("c r=\"") + (Ascii(reference) + [QUOTE] + Ascii(After(cell)))
  {
    assert Attributes(reference, cell) == "c r=\"" + (reference + ("\"" + After(cell)));
  }

  lemma QuotedIsRead(name: Bytes, reference: Bytes, after: Bytes, rest: Bytes)
    requires QUOTE !in reference
    ensures var b := [OPEN] + (name + (reference + [QUOTE] + after)) + [CLOSE] + rest;
            StartsWith(b, [OPEN] + name) && UpTo(b[|name| + 1..], QUOTE) == reference
  {
    UpToStop(reference, QUOTE, after + [CLOSE] + rest);
    var b := [OPEN] + (name + (reference + [QUOTE] + after)) + [CLOSE] + rest;
    assert b[|name| + 1..] == reference + [QUOTE] + (after + [CLOSE] + rest);
  }

  lemma OpeningIsRead(reference: string, cell: Cell, rest: Bytes)
    requires QUOTE !in Ascii(reference)
    ensures var b := Tag(Attributes(reference, cell)) + rest;
            StartsWith(b, CELL) && UpTo(b[|CELL|..], QUOTE) == Ascii(reference)
  {
    AttributesSplit(reference, cell);
    QuotedIsRead(Ascii("c r=\""), Ascii(reference), Ascii(After(cell)), rest);
  }

  /** The reference stands between the quotes, and the text between the tags. */
  lemma CellIsRead(reference: string, cell: Cell, rest: Bytes)
    requires CellTextOk(cell) && PlainText(reference) && QUOTE !in Ascii(reference)
    ensures var b := CellXml(reference, cell) + rest;
            StartsWith(b, CELL) && UpTo(b[|CELL|..], QUOTE) == Ascii(reference) && TextOf(b, false) == cell.text.value
  {
    var body := Tags(Openings(cell)) + (cell.text.value + (Tags(Closings(cell)) + (Tag("/c") + rest)));
    assert CellXml(reference, cell) + rest == Tag(Attributes(reference, cell)) + body;
    OpeningIsRead(reference, cell, body);
    BodyIsRead(cell, rest);
    AttributesArePlain(reference, cell);
    assert Attributes(reference, cell)[0] == 'c';
    TextOfTag(Attributes(reference, cell), body);
  }

  lemma CellHere(b: Bytes)
    requires b != [] && StartsWith(b, CELL)
    ensures ReadCells(b) == [(UpTo(b[|CELL|..], QUOTE), TextOf(b, false))] + ReadCells(b[1..])
  {
  }

  lemma RestAlone(xml: Bytes, rest: Bytes)
    requires xml != [] && Quiet(xml[1..])
    ensures ReadCells((xml + rest)[1..]) == ReadCells(rest)
  {
    SkipsQuiet(xml[1..], rest);
    assert (xml + rest)[1..] == xml[1..] + rest;
  }

  lemma CellReads(reference: string, cell: Cell)
    requires CellTextOk(cell) && PlainText(reference) && QUOTE !in Ascii(reference)
    ensures Reads(CellXml(reference, cell), [(Ascii(reference), cell.text.value)])
  {
    var xml := CellXml(reference, cell);
    RestIsQuiet(reference, cell);
    forall rest: Bytes ensures ReadCells(xml + rest) == [(Ascii(reference), cell.text.value)] + ReadCells(rest) {
      CellIsRead(reference, cell, rest);
      CellHere(xml + rest);
      RestAlone(xml, rest);
    }
  }

  // ---------- A worksheet reads back ----------

  predicate TextsOk(rows: seq<Row>) {
    forall r, c | 0 <= r < |rows| && rows[r].Cells? && 0 <= c < |rows[r].cells| :: CellTextOk(rows[r].cells[c])
  }

  lemma OneMoreCell(before: Bytes, cells: seq<Cell>, row: nat, k: nat)
    requires k < |cells| && CellsOk(cells)
    ensures AfterCells(XML, before, cells, row, k + 1)
         == AfterCells(XML, before, cells, row, k) + CellXml(CellReference(k, row), cells[k])
    ensures CellsOfRow(cells, row)[..k + 1]
         == CellsOfRow(cells, row)[..k] + [(Ascii(CellReference(k, row)), cells[k].text.value)]
  {
  }

  lemma ReadsMore(a: Bytes, b: Bytes, x: seq<(Bytes, Bytes)>, y: seq<(Bytes, Bytes)>, z: seq<(Bytes, Bytes)>)
    requires Reads(a, x + y) && Reads(b, z)
    ensures Reads(a + b, x + (y + z))
  {
    ReadsConcat(a, b, x + y, z);
    assert x + (y + z) == x + y + z;
  }

  lemma {:induction false} CellsRead(before: Bytes, earlier: seq<(Bytes, Bytes)>, cells: seq<Cell>, row: nat, k: nat)
    requires k <= |cells| && CellsOk(cells) && forall c | 0 <= c < |cells| :: CellTextOk(cells[c])
    requires Reads(before, earlier)
    ensures Reads(AfterCells(XML, before, cells, row, k), earlier + CellsOfRow(cells, row)[..k])
  {
    if k == 0 {
      assert earlier + CellsOfRow(cells, row)[..k] == earlier;
    } else {
      var c := k - 1;
      CellsRead(before, earlier, cells, row, c);
      ReferenceIsPlain(c, row);
      CellReads(CellReference(c, row), cells[c]);
      OneMoreCell(before, cells, row, c);
      var last := [(Ascii(CellReference(c, row)), cells[c].text.value)];
      ReadsMore(AfterCells(XML, before, cells, row, c), CellXml(CellReference(c, row), cells[c]),
                earlier, CellsOfRow(cells, row)[..c], last);
    }
  }

  /** Markup without a cell adds none. */
  lemma ReadsQuiet(before: Bytes, cells: seq<(Bytes, Bytes)>, piece: Bytes)
    requires Reads(before, cells) && Quiet(piece)
    ensures Reads(before + piece, cells)
  {
    QuietReads(piece);
    ReadsConcat(before, piece, cells, []);
    assert cells + [] == cells;
  }

  lemma DecimalIsPlain(n: nat)
    ensures PlainText(Decimal(n))
  {
  }

  lemma RowTagsAreQuiet(number: nat)
    ensures Quiet(RowXml(number)) && Quiet(Tag("/row"))
  {
    DecimalIsPlain(number);
    assert PlainText("row r=\"") && PlainText("\"");
    TagIsQuiet("row r=\"" + Decimal(number) + "\"");
    TagIsQuiet("/row");
  }

  lemma RowReads(before: Bytes, earlier: seq<(Bytes, Bytes)>, row: Row, columnCount: int, number: nat)
    requires Reads(before, earlier) && RowOk(row, columnCount)
    requires forall c | 0 <= c < |row.cells| :: CellTextOk(row.cells[c])
    ensures Reads(AfterRow(XML, before, row, number), earlier + CellsOfRow(row.cells, number))
  {
    RowTagsAreQuiet(number);
    ReadsQuiet(before, earlier, RowXml(number));
    CellsRead(before + RowXml(number), earlier, row.cells, number, |row.cells|);
    var all := CellsOfRow(row.cells, number);
    assert all[..|row.cells|] == all;
    ReadsQuiet(AfterCells(XML, before + RowXml(number), row.cells, number, |row.cells|), earlier + all, Tag("/row"));
  }

  lemma {:induction false} RowsRead(before: Bytes, rows: seq<Row>, columnCount: int, k: nat)
    requires k <= |rows| && RowsOk(rows, columnCount) && TextsOk(rows) && Reads(before, [])
    ensures Reads(AfterRows(XML, before, rows, k), CellsOf(rows, columnCount, k))
  {
    if k > 0 {
      RowsRead(before, rows, columnCount, k - 1);
      assert RowOk(rows[k - 1], columnCount);
      RowReads(AfterRows(XML, before, rows, k - 1), CellsOf(rows, columnCount, k - 1), rows[k - 1], columnCount, k);
    }
  }

  lemma ColIsQuiet(column: nat, width: string)
    requires PlainText(width)
    ensures Quiet(ColXml(column, width))
  {
    DecimalIsPlain(column);
    assert PlainText("col min=\"") && PlainText("\" max=\"") && PlainText("\" width=\"");
    assert PlainText("\" customWidth=\"1\"/");
    TagIsQuiet("col min=\"" + Decimal(column) + "\" max=\"" + Decimal(column) + "\" width=\"" + width
               + "\" customWidth=\"1\"/");
  }

  lemma OneMoreWidth(before: Bytes, widths: seq<Width>, k: nat)
    requires k < |widths|
    ensures AfterWidths(XML, before, widths, k + 1)
         == AfterWidths(XML, before, widths, k) + ColXml(k + 1, widths[k].text)
  {
  }

  lemma {:induction false} WidthsRead(before: Bytes, widths: seq<Width>, k: nat)
    requires k <= |widths| && Reads(before, []) && forall i | 0 <= i < |widths| :: PlainText(widths[i].text)
    ensures Reads(AfterWidths(XML, before, widths, k), [])
  {
    if k > 0 {
      WidthsRead(before, widths, k - 1);
      ColIsQuiet(k, widths[k - 1].text);
      OneMoreWidth(before, widths, k - 1);
      ReadsQuiet(AfterWidths(XML, before, widths, k - 1), [], ColXml(k, widths[k - 1].text));
    }
  }

  lemma ColsRead(before: Bytes, widths: seq<Width>)
    requires Reads(before, []) && forall i | 0 <= i < |widths| :: PlainText(widths[i].text)
    ensures Reads(AfterCols(XML, before, widths), [])
  {
    if widths != [] {
      TagIsQuiet("cols");
      TagIsQuiet("/cols");
      ReadsQuiet(before, [], Tag("cols"));
      WidthsRead(before + Tag("cols"), widths, |widths|);
      ReadsQuiet(AfterWidths(XML, before + Tag("cols"), widths, |widths|), [], Tag("/cols"));
    }
  }

  lemma DeclarationIsQuiet()
    ensures Quiet(Tag(DECLARATION))
  {
    assert PlainText("?xml version=\"1.0\" ") && PlainText("encoding=\"UTF-8\" ") && PlainText("standalone=\"yes\"?");
    assert DECLARATION[0] == '?';
    TagIsQuiet(DECLARATION);
  }

  lemma WorksheetTagIsQuiet()
    ensures Quiet(Tag(WORKSHEET))
  {
    assert PlainText("worksheet xmlns=\"http://") && PlainText("schemas.openxmlformats.org/");
    assert PlainText("spreadsheetml/2006/main\"");
    assert WORKSHEET[0] == 'w';
    TagIsQuiet(WORKSHEET);
  }

  lemma DimensionIsQuiet(last: string)
    requires PlainText(last)
    ensures Quiet(Tag(Dimension(last)))
  {
    assert PlainText("dimension ref=\"A1:") && PlainText("\"/");
    assert Dimension(last)[0] == 'd';
    TagIsQuiet(Dimension(last));
  }

  lemma OpeningIsQuiet(last: string)
    requires PlainText(last)
    ensures Quiet(OpeningXml(last))
  {
    DeclarationIsQuiet();
    WorksheetTagIsQuiet();
    DimensionIsQuiet(last);
    QuietConcat(Tag(DECLARATION), Tag(WORKSHEET));
    QuietConcat(Tag(DECLARATION) + Tag(WORKSHEET), Tag(Dimension(last)));
  }

  /** Everything in front of the rows. */
  function HeadXml(sheet: Sheet): Bytes
    requires SizeOk(sheet)
  {
    AfterCols(XML, OpeningXml(CellReference(sheet.columnCount - 1, sheet.rowCount)), sheet.widths) + Tag("sheetData")
  }

  lemma DataTagReads(before: Bytes)
    requires Reads(before, [])
    ensures Reads(before + Tag("sheetData"), [])
  {
    TagIsQuiet("sheetData");
    ReadsQuiet(before, [], Tag("sheetData"));
  }

  lemma HeadReads(sheet: Sheet)
    requires SizeOk(sheet) && forall i | 0 <= i < |sheet.widths| :: PlainText(sheet.widths[i].text)
    ensures Reads(HeadXml(sheet), [])
  {
    var last := CellReference(sheet.columnCount - 1, sheet.rowCount);
    ReferenceIsPlain(sheet.columnCount - 1, sheet.rowCount);
    OpeningIsQuiet(last);
    QuietReads(OpeningXml(last));
    ColsRead(OpeningXml(last), sheet.widths);
    DataTagReads(AfterCols(XML, OpeningXml(last), sheet.widths));
  }

  lemma SheetIs(sheet: Sheet)
    requires SizeOk(sheet)
    ensures SheetBytes(XML, sheet)
         == AfterRows(XML, HeadXml(sheet), sheet.rows, |sheet.rows|) + Tags(["/sheetData", "/worksheet"])
  {
  }

  lemma ReadsAlone(b: Bytes, cells: seq<(Bytes, Bytes)>)
    requires Reads(b, cells)
    ensures ReadCells(b) == cells
  {
    assert b + [] == b && cells + ReadCells([]) == cells;
  }

  /**
  The text of an accepted worksheet reads back as its cells, row by row: cell c of row r has the letters
  of column c followed by r, and its own text.
  */
  lemma WorksheetReadsBack(sheet: Sheet)
    requires SizeOk(sheet) && SheetOk(sheet) && TextsOk(sheet.rows)
    requires forall i | 0 <= i < |sheet.widths| :: PlainText(sheet.widths[i].text)
    ensures ReadCells(SheetBytes(XML, sheet)) == CellsOf(sheet.rows, sheet.columnCount, |sheet.rows|)
  {
    var rows := AfterRows(XML, HeadXml(sheet), sheet.rows, |sheet.rows|);
    HeadReads(sheet);
    RowsRead(HeadXml(sheet), sheet.rows, sheet.columnCount, |sheet.rows|);
    assert PlainText("/sheetData") && PlainText("/worksheet");
    TagsAreQuiet(["/sheetData", "/worksheet"]);
    var cells := CellsOf(sheet.rows, sheet.columnCount, |sheet.rows|);
    ReadsQuiet(rows, cells, Tags(["/sheetData", "/worksheet"]));
    SheetIs(sheet);
    ReadsAlone(SheetBytes(XML, sheet), cells);
  }

  // ---------- Each cell has a reference of its own ----------

  lemma {:induction false} CellIsThere(rows: seq<Row>, columnCount: int, k: nat, r: nat, c: nat)
    requires RowsOk(rows, columnCount) && r < k <= |rows| && c < |rows[r].cells|
    ensures CellEntry(rows[r].cells, r + 1, c) in CellsOf(rows, columnCount, k)
  {
    assert RowOk(rows[r], columnCount);
    if r == k - 1 {
      assert CellsOfRow(rows[r].cells, k)[c] == CellEntry(rows[r].cells, k, c);
    } else {
      CellIsThere(rows, columnCount, k - 1, r, c);
    }
  }

  lemma {:induction false} CellComesFrom(rows: seq<Row>, columnCount: int, k: nat, i: nat) returns (r: nat, c: nat)
    requires RowsOk(rows, columnCount) && k <= |rows| && i < |CellsOf(rows, columnCount, k)|
    ensures r < k && RowOk(rows[r], columnCount) && c < |rows[r].cells|
    ensures CellsOf(rows, columnCount, k)[i] == CellEntry(rows[r].cells, r + 1, c)
  {
    var before := CellsOf(rows, columnCount, k - 1);
    if i < |before| {
      r, c := CellComesFrom(rows, columnCount, k - 1, i);
    } else {
      assert RowOk(rows[k - 1], columnCount);
      r, c := k - 1, i - |before|;
    }
  }

  lemma AsciiIsInjective(s: string, t: string)
    requires PlainText(s) && PlainText(t) && Ascii(s) == Ascii(t)
    ensures s == t
  {
    assert |s| == |Ascii(s)| == |t|;
    forall i | 0 <= i < |s| ensures s[i] == t[i] {
      assert Ascii(s)[i] == Ascii(t)[i];
    }
  }

  lemma EntriesDiffer(a: seq<Cell>, r: nat, c: nat, b: seq<Cell>, q: nat, d: nat)
    requires CellsOk(a) && CellsOk(b) && c < |a| && d < |b| && (r != q || c != d)
    ensures CellEntry(a, r, c).0 != CellEntry(b, q, d).0
  {
    ReferenceIsPlain(c, r);
    ReferenceIsPlain(d, q);
    if CellEntry(a, r, c).0 == CellEntry(b, q, d).0 {
      AsciiIsInjective(CellReference(c, r), CellReference(d, q));
      ReferencesDiffer(c, r, d, q);
    }
  }

  lemma {:induction false} ReferencesAreDistinct(rows: seq<Row>, columnCount: int, k: nat, i: nat, j: nat)
    requires RowsOk(rows, columnCount) && k <= |rows| && i < j < |CellsOf(rows, columnCount, k)|
    ensures CellsOf(rows, columnCount, k)[i].0 != CellsOf(rows, columnCount, k)[j].0
  {
    var before := CellsOf(rows, columnCount, k - 1);
    assert RowOk(rows[k - 1], columnCount);
    if j < |before| {
      ReferencesAreDistinct(rows, columnCount, k - 1, i, j);
    } else {
      var r, c := k - 1, i - |before|;
      if i < |before| {
        r, c := CellComesFrom(rows, columnCount, k - 1, i);
      }
      EntriesDiffer(rows[r].cells, r + 1, c, rows[k - 1].cells, k, j - |before|);
    }
  }

  /**
  What a worksheet shows: its cells have pairwise different references, cell c of row r is there with the
  letters of column c followed by r and with its text, and there is nothing else.
  */
  lemma WorksheetGrid(sheet: Sheet)
    requires SizeOk(sheet) && SheetOk(sheet) && TextsOk(sheet.rows)
    requires forall i | 0 <= i < |sheet.widths| :: PlainText(sheet.widths[i].text)
    ensures var cells := ReadCells(SheetBytes(XML, sheet));
            && (forall i, j | 0 <= i < j < |cells| :: cells[i].0 != cells[j].0)
            && (forall r, c | 0 <= r < |sheet.rows| && 0 <= c < |sheet.rows[r].cells| ::
                  (Ascii(ColumnText(c) + Decimal(r + 1)), sheet.rows[r].cells[c].text.value) in cells)
            && (forall i | 0 <= i < |cells| ::
                  exists r, c :: && 0 <= r < |sheet.rows| && 0 <= c < |sheet.rows[r].cells|
                                 && cells[i] == (Ascii(ColumnText(c) + Decimal(r + 1)),
                                                 sheet.rows[r].cells[c].text.value))
  {
    WorksheetReadsBack(sheet);
    var n, cells := |sheet.rows|, CellsOf(sheet.rows, sheet.columnCount, |sheet.rows|);
    forall i, j | 0 <= i < j < |cells| ensures cells[i].0 != cells[j].0 {
      ReferencesAreDistinct(sheet.rows, sheet.columnCount, n, i, j);
    }
    forall r, c | 0 <= r < n && 0 <= c < |sheet.rows[r].cells|
      ensures (Ascii(ColumnText(c) + Decimal(r + 1)), sheet.rows[r].cells[c].text.value) in cells
    {
      CellIsThere(sheet.rows, sheet.columnCount, n, r, c);
    }
    forall i | 0 <= i < |cells|
      ensures exists r, c :: && 0 <= r < n && 0 <= c < |sheet.rows[r].cells|
                             && cells[i] == (Ascii(ColumnText(c) + Decimal(r + 1)), sheet.rows[r].cells[c].text.value)
    {
      var r, c := CellComesFrom(sheet.rows, sheet.columnCount, n, i);
    }
  }

  lemma HeadBegins(sheet: Sheet)
    requires SizeOk(sheet)
    ensures OpeningXml(CellReference(sheet.columnCount - 1, sheet.rowCount)) <= HeadXml(sheet)
  {
    ColsGrow(XML, OpeningXml(CellReference(sheet.columnCount - 1, sheet.rowCount)), sheet.widths);
  }

  /** The dimension of the sheet ends with its last column and row. */
  lemma DimensionIsLast(sheet: Sheet)
    requires SizeOk(sheet)
    ensures var last := ColumnText(sheet.columnCount - 1) + Decimal(sheet.rowCount);
            Tag(DECLARATION) + Tag(WORKSHEET) + Tag("dimension ref=\"A1:" + last + "\"/") <= SheetBytes(XML, sheet)
  {
    HeadBegins(sheet);
    RowsGrow(XML, HeadXml(sheet), sheet.rows, 0, |sheet.rows|);
    SheetIs(sheet);
  }
}
