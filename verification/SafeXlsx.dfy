/**
createSafeXlsx of apps/api/src/infrastructure/safe-xlsx.ts: the byte budget it spends on the parts
of a workbook, and why storedZip then never refuses them.
*/
module SafeXlsx {
  import opened Wrappers
  import opened ZipFormat
  import opened StoredZip
  import opened Worksheet
  import opened ColumnReference
  import Crc32

  const MAX_SHEETS := 255
  const MAX_ZIP_UINT32 := 0xFFFF_FFFF

  /** The UTF-8 bytes of the parts that come before the worksheets. */
  datatype Parts = Parts(
    contentTypes: Bytes, rootRelationships: Bytes, workbook: Bytes, relationships: Bytes, styles: Bytes)

  /** lower is toLowerCase. */
  datatype Workbook = Workbook(
    markup: Markup, parts: Parts, lower: Units -> Units, sheets: seq<Sheet>, maxOutputBytes: int)

  // ---------- File names ----------

  function SheetName(index: nat): Bytes {
    Ascii("xl/worksheets/sheet" + Decimal(index + 1) + ".xml")
  }

  function FixedNames(): seq<Bytes> {
    [Ascii("[Content_Types].xml"), Ascii("_rels/.rels"), Ascii("xl/workbook.xml"),
     Ascii("xl/_rels/workbook.xml.rels"), Ascii("xl/styles.xml")]
  }

  function FileNames(sheetCount: nat): (r: seq<Bytes>)
    ensures |r| == 5 + sheetCount
  {
    FixedNames() + seq(sheetCount, i requires 0 <= i < sheetCount => SheetName(i))
  }

  // ---------- What is accepted, and what comes out ----------

  predicate IsHigh(u: Unit) {
    0xD800 <= u <= 0xDBFF
  }

  predicate IsLow(u: Unit) {
    0xDC00 <= u <= 0xDFFF
  }

  /** Unit k is half of a surrogate pair. */
  predicate Paired(text: Units, k: nat)
    requires k < |text|
  {
    || (IsHigh(text[k]) && k + 1 < |text| && IsLow(text[k + 1]))
    || (IsLow(text[k]) && k > 0 && IsHigh(text[k - 1]))
  }

  /** No control character but tab, line feed and carriage return, no lone surrogate, no noncharacter. */
  predicate UnitOk(text: Units, k: nat)
    requires k < |text|
  {
    if IsHigh(text[k]) || IsLow(text[k]) then Paired(text, k)
    else (text[k] >= 0x20 || text[k] == 9 || text[k] == 10 || text[k] == 13) && text[k] < 0xFFFE
  }

  predicate XmlText(text: Units) {
    forall k: nat | k < |text| :: UnitOk(text, k)
  }

  const APOSTROPHE: Unit := 0x27

  /** Backslash, slash, asterisk, question mark, colon and square brackets. */
  const FORBIDDEN: set<Unit> := {0x5C, 0x2F, 0x2A, 0x3F, 0x3A, 0x5B, 0x5D}

  predicate NameOk(name: Units) {
    && 1 <= |name| <= 31
    && (forall k | 0 <= k < |name| :: name[k] !in FORBIDDEN)
    && name[0] != APOSTROPHE && name[|name| - 1] != APOSTROPHE
    && XmlText(name)
  }

  predicate WidthOk(width: Width) {
    width.value.Some? && 0.0 < width.value.value <= 255.0
  }

  /** What a sheet must be by itself. */
  predicate Valid(sheet: Sheet) {
    && NameOk(sheet.name) && SizeOk(sheet)
    && |sheet.widths| <= sheet.columnCount
    && forall i | 0 <= i < |sheet.widths| :: WidthOk(sheet.widths[i])
  }

  /** Every sheet is valid, and no two have the same name in lower case. */
  predicate SheetsAccepted(lower: Units -> Units, sheets: seq<Sheet>) {
    && (forall i | 0 <= i < |sheets| :: Valid(sheets[i]))
    && (forall i, j | 0 <= i < j < |sheets| :: lower(sheets[i].name) != lower(sheets[j].name))
  }

  predicate InputOk(input: Workbook) {
    && 0 < |input.sheets| <= MAX_SHEETS
    && 1 <= input.maxOutputBytes <= MAX_ZIP_UINT32
    && SheetsAccepted(input.lower, input.sheets)
  }

  function FixedData(parts: Parts): seq<Bytes> {
    [parts.contentTypes, parts.rootRelationships, parts.workbook, parts.relationships, parts.styles]
  }

  function WorkbookEntry(input: Workbook, k: nat): Entry
    requires SheetsAccepted(input.lower, input.sheets) && k < 5 + |input.sheets|
  {
    Entry(FileNames(|input.sheets|)[k],
          if k < 5 then FixedData(input.parts)[k] else SheetBytes(input.markup, input.sheets[k - 5]))
  }

  /** The entries, in the order in which they are added. */
  function EntriesOf(input: Workbook): (r: seq<Entry>)
    requires SheetsAccepted(input.lower, input.sheets)
    ensures |r| == 5 + |input.sheets|
  {
    seq(5 + |input.sheets|, k requires 0 <= k < 5 + |input.sheets| => WorkbookEntry(input, k))
  }

  function EntryBytes(entries: seq<Entry>): nat {
    if entries == [] then 0 else EntryBytes(entries[..|entries| - 1]) + |entries[|entries| - 1].data|
  }

  function EntryNames(entries: seq<Entry>): (r: seq<Bytes>)
    ensures |r| == |entries|
  {
    seq(|entries|, i requires 0 <= i < |entries| => entries[i].name)
  }

  /** Entry 5 + i is that of worksheet i. */
  ghost predicate SheetEntry(input: Workbook, names: seq<Bytes>, all: seq<Entry>, i: nat) {
    && 5 + i < |names| == |all| && i < |input.sheets| && SizeOk(input.sheets[i])
    && all[5 + i] == Entry(names[5 + i], SheetBytes(input.markup, input.sheets[i]))
  }

  /** The names and entries are those of the workbook. */
  ghost predicate Describe(input: Workbook, names: seq<Bytes>, all: seq<Entry>) {
    && |all| == |names| == 5 + |input.sheets| && EntryNames(all) == names
    && (forall i | 0 <= i < 5 :: all[i] == Entry(names[i], FixedData(input.parts)[i]))
    && (forall i: nat | i < |input.sheets| :: SheetEntry(input, names, all, i))
  }

  predicate RowsAccepted(sheets: seq<Sheet>) {
    forall i | 0 <= i < |sheets| :: SheetOk(sheets[i])
  }

  /** The overhead leaves something for the data, and that is enough for all of it. */
  predicate WithinBudget(names: seq<Bytes>, all: seq<Entry>, maximumBytes: int) {
    Overhead(names) < maximumBytes && Overhead(names) + EntryBytes(all) <= maximumBytes
  }

  /** The workbook is accepted when its sheets are and everything together fits. */
  predicate Accepted(input: Workbook) {
    && InputOk(input)
    && RowsAccepted(input.sheets)
    && WithinBudget(FileNames(|input.sheets|), EntriesOf(input), input.maxOutputBytes)
  }

  // ---------- The names of worksheets ----------

  /** The code points of a text: a surrogate pair is one, and a lone surrogate stands for itself. */
  function CodePoints(text: Units): seq<int> {
    if text == [] then []
    else if |text| > 1 && IsHigh(text[0]) && IsLow(text[1])
    then [0x10000 + (text[0] - 0xD800) * 0x400 + text[1] - 0xDC00] + CodePoints(text[2..])
    else [text[0]] + CodePoints(text[1..])
  }

  /** Char of XML 1.0, section 2.2. */
  predicate XmlChar(c: int) {
    c in {0x9, 0xA, 0xD} || 0x20 <= c <= 0xD7FF || 0xE000 <= c <= 0xFFFD || 0x10000 <= c <= 0x10FFFF
  }

  lemma XmlTextTail(text: Units, n: nat)
    requires n == 1 || (n == 2 && |text| > 1 && IsHigh(text[0]) && IsLow(text[1]))
    requires |text| >= n && (n == 1 && |text| > 1 && IsHigh(text[0]) ==> !IsLow(text[1]))
    ensures (forall k: nat | n <= k < |text| :: UnitOk(text, k)) <==> XmlText(text[n..])
  {
    assert forall k: nat | k < |text[n..]| :: UnitOk(text[n..], k) <==> UnitOk(text, k + n);
    assert forall k: nat | n <= k < |text| :: UnitOk(text, k) <==> UnitOk(text[n..], k - n);
  }

  /** The first code point, and the one or two units of it. */
  lemma FirstIsChar(text: Units)
    requires text != []
    ensures var pair := |text| > 1 && IsHigh(text[0]) && IsLow(text[1]);
            XmlChar(CodePoints(text)[0]) <==> UnitOk(text, 0) && (pair ==> UnitOk(text, 1))
  {
  }

  /** A text is accepted exactly if each of its code points is a character of XML. */
  lemma {:induction false} XmlTextIsChars(text: Units)
    ensures XmlText(text) <==> forall c | c in CodePoints(text) :: XmlChar(c)
  {
    if text != [] {
      var n := if |text| > 1 && IsHigh(text[0]) && IsLow(text[1]) then 2 else 1;
      XmlTextTail(text, n);
      XmlTextIsChars(text[n..]);
      FirstIsChar(text);
      assert CodePoints(text) == [CodePoints(text)[0]] + CodePoints(text[n..]);
    }
  }

  /** What Excel and XML allow: the name, 2^20 rows, 2^14 columns, and widths up to 255 for some of them. */
  ghost predicate Allowed(sheet: Sheet) {
    && 0 < |sheet.name| < 32 && (forall c | c in "\\/*?:[]" :: c as int !in sheet.name)
    && sheet.name[0] != '\'' as int && sheet.name[|sheet.name| - 1] != '\'' as int
    && (forall c | c in CodePoints(sheet.name) :: XmlChar(c))
    && 0 < sheet.rowCount <= 0x10_0000 && 0 < sheet.columnCount <= 0x4000 && |sheet.widths| <= sheet.columnCount
    && forall w | w in sheet.widths :: w.value.Some? && 0.0 < w.value.value <= 255.0
  }

  lemma ForbiddenAre(name: Units)
    ensures (forall k | 0 <= k < |name| :: name[k] !in FORBIDDEN) <==> forall c | c in "\\/*?:[]" :: c as int !in name
  {
    var s := "\\/*?:[]";
    assert forall u :: u in FORBIDDEN <==> exists k :: 0 <= k < 7 && s[k] as int == u by {
      forall u | u in FORBIDDEN ensures exists k :: 0 <= k < 7 && s[k] as int == u {
        assert s[0] as int == 0x5C && s[1] as int == 0x2F && s[2] as int == 0x2A && s[3] as int == 0x3F;
        assert s[4] as int == 0x3A && s[5] as int == 0x5B && s[6] as int == 0x5D;
      }
    }
    forall c | c in s ensures c as int in FORBIDDEN {}
    if !(forall k | 0 <= k < |name| :: name[k] !in FORBIDDEN) {
      var k :| 0 <= k < |name| && name[k] in FORBIDDEN;
      var j :| 0 <= j < 7 && s[j] as int == name[k];
      assert s[j] in s;
    }
  }

  /** The sheets are accepted exactly if each is allowed and no two names agree in lower case. */
  lemma AcceptedSheets(lower: Units -> Units, sheets: seq<Sheet>)
    ensures SheetsAccepted(lower, sheets) <==>
              && (forall i | 0 <= i < |sheets| :: Allowed(sheets[i]))
              && (forall i, j | 0 <= i < |sheets| && 0 <= j < |sheets| && i != j ::
                    lower(sheets[i].name) != lower(sheets[j].name))
  {
    forall i | 0 <= i < |sheets| ensures Valid(sheets[i]) <==> Allowed(sheets[i]) {
      ForbiddenAre(sheets[i].name);
      XmlTextIsChars(sheets[i].name);
      assert forall k | 0 <= k < |sheets[i].widths| :: sheets[i].widths[k] in sheets[i].widths;
    }
  }

  // ---------- The budget is enough ----------

  lemma {:induction false} SameBytes(entries: seq<Entry>)
    ensures DataBytes(ItemsOf(entries)) == EntryBytes(entries)
  {
    if entries != [] {
      var n := |entries| - 1;
      SameBytes(entries[..n]);
      assert ItemsOf(entries)[..n] == ItemsOf(entries[..n]);
    }
  }

  lemma {:induction false} ItemWithin(items: seq<Item>, k: nat)
    requires k < |items|
    ensures |items[k].data| <= DataBytes(items)
  {
    if k < |items| - 1 {
      ItemWithin(items[..|items| - 1], k);
    }
  }

  lemma {:induction false} OverheadGrows(names: seq<Bytes>, k: nat)
    requires k <= |names|
    ensures Overhead(names[..k]) <= Overhead(names)
    decreases |names|
  {
    if k < |names| {
      OverheadGrows(names[..|names| - 1], k);
      assert names[..|names| - 1][..k] == names[..k];
    } else {
      assert names[..k] == names;
    }
  }

  lemma {:induction false} DataBytesGrow(items: seq<Item>, k: nat)
    requires k <= |items|
    ensures DataBytes(items[..k]) <= DataBytes(items)
    decreases |items|
  {
    if k < |items| {
      DataBytesGrow(items[..|items| - 1], k);
      assert items[..|items| - 1][..k] == items[..k];
    } else {
      assert items[..k] == items;
    }
  }

  /** The local records of the first k items take less than their overhead and data. */
  lemma {:induction false} OffsetWithin(items: seq<Item>, k: nat)
    requires AllWritable(items) && k <= |items|
    ensures Offset(items, k) <= Overhead(NamesOf(items[..k])) + DataBytes(items[..k])
    decreases k
  {
    var locals := LocalRecords(items);
    if k == 0 {
      assert locals[..0] == [];
    } else {
      OffsetWithin(items, k - 1);
      var _ := PartAt(locals, k - 1);
      assert items[..k][..k - 1] == items[..k - 1];
      assert NamesOf(items[..k])[..k - 1] == NamesOf(items[..k - 1]);
    }
  }

  lemma OffsetBelow(items: seq<Item>, k: nat)
    requires AllWritable(items) && k <= |items|
    ensures Offset(items, k) <= Overhead(NamesOf(items)) + DataBytes(items)
  {
    OffsetWithin(items, k);
    DataBytesGrow(items, k);
    assert NamesOf(items[..k]) == NamesOf(items)[..k];
    OverheadGrows(NamesOf(items), k);
  }

  lemma BudgetWritable(items: seq<Item>)
    requires DataBytes(items) <= MAX_ZIP_UINT32
    requires forall i | 0 <= i < |items| :: 0 < |items[i].name| <= 0xFFFF
    ensures AllWritable(items)
  {
    forall i | 0 <= i < |items| ensures Writable(items[i]) {
      ItemWithin(items, i);
    }
  }

  lemma BudgetAddressable(items: seq<Item>, limit: nat)
    requires AllWritable(items) && limit <= MAX_ZIP_UINT32
    requires Overhead(NamesOf(items)) + DataBytes(items) <= limit
    ensures Addressable(items) && Offset(items, |items|) <= limit
  {
    forall k | 0 <= k <= |items| ensures Offset(items, k) <= limit {
      OffsetBelow(items, k);
    }
  }

  lemma BudgetDirectory(items: seq<Item>)
    requires Addressable(items)
    ensures |Concat(CentralRecords(items))| <= Overhead(NamesOf(items)) + DataBytes(items)
  {
    var locals, centrals := LocalRecords(items), CentralRecords(items);
    LengthUpTo(items, locals, centrals, |items|);
    assert centrals[..|items|] == centrals && items[..|items|] == items;
  }

  lemma BudgetArchivable(items: seq<Item>, limit: nat)
    requires 0 < |items| <= 65535 && limit <= MAX_ZIP_UINT32
    requires forall i | 0 <= i < |items| :: 0 < |items[i].name| <= 0xFFFF
    requires Overhead(NamesOf(items)) + DataBytes(items) <= limit
    ensures Archivable(items) && |Archive(items)| == Overhead(NamesOf(items)) + DataBytes(items)
  {
    BudgetWritable(items);
    BudgetAddressable(items, limit);
    BudgetDirectory(items);
    ArchiveLength(items);
  }

  /**
  storedZip accepts whatever stays within the budget: none of its own guards, nor its check of
  the final size, can fail then.
  */
  lemma BudgetSuffices(entries: seq<Entry>, maximumBytes: nat)
    requires 0 < |entries| <= 65535 && maximumBytes <= MAX_ZIP_UINT32
    requires forall i | 0 <= i < |entries| :: 0 < |entries[i].name| <= 0xFFFF
    requires Overhead(EntryNames(entries)) + EntryBytes(entries) <= maximumBytes
    ensures Fits(entries, maximumBytes)
    ensures |Archive(ItemsOf(entries))| == Overhead(EntryNames(entries)) + EntryBytes(entries)
  {
    SameBytes(entries);
    assert NamesOf(ItemsOf(entries)) == EntryNames(entries);
    BudgetArchivable(ItemsOf(entries), maximumBytes);
  }

  // ---------- Building the workbook ----------

  lemma {:induction false} EntryBytesGrow(entries: seq<Entry>, k: nat)
    requires k <= |entries|
    ensures EntryBytes(entries[..k]) <= EntryBytes(entries)
    decreases |entries|
  {
    if k < |entries| {
      EntryBytesGrow(entries[..|entries| - 1], k);
      assert entries[..|entries| - 1][..k] == entries[..k];
    } else {
      assert entries[..k] == entries;
    }
  }

  /** addXml: push one entry, unless its data no longer fits into the budget. */
  method AddXml(entries: seq<Entry>, dataBytes: nat, dataBudget: nat, name: Bytes, data: Bytes, ghost all: seq<Entry>)
    returns (ok: bool, more: seq<Entry>, moreBytes: nat)
    requires |entries| < |all| && entries == all[..|entries|] && all[|entries|] == Entry(name, data)
    requires dataBytes == EntryBytes(entries) <= dataBudget
    ensures ok ==> |more| == |entries| + 1 && more == all[..|more|] && moreBytes == EntryBytes(more) <= dataBudget
    ensures !ok ==> EntryBytes(all) > dataBudget
  {
    more, moreBytes := entries, dataBytes;
    ghost var next := all[..|entries| + 1];
    assert next[..|entries|] == entries;
    EntryBytesGrow(all, |entries| + 1);
    if |data| > dataBudget - dataBytes {
      return false, more, moreBytes;
    }
    more := entries + [Entry(name, data)];
    moreBytes := dataBytes + |data|;
    ok := true;
  }

  /** The five parts before the worksheets. */
  method AddParts(parts: Parts, names: seq<Bytes>, dataBudget: nat, ghost all: seq<Entry>)
    returns (ok: bool, entries: seq<Entry>, dataBytes: nat)
    requires |names| >= 5 && |all| >= 5
    requires forall i | 0 <= i < 5 :: all[i] == Entry(names[i], FixedData(parts)[i])
    ensures ok ==> |entries| == 5 && entries == all[..5] && dataBytes == EntryBytes(entries) <= dataBudget
    ensures !ok ==> EntryBytes(all) > dataBudget
  {
    assert all[..0] == [];
    entries, dataBytes := [], 0;
    ok, entries, dataBytes := AddXml(entries, dataBytes, dataBudget, names[0], parts.contentTypes, all);
    if ok {
      ok, entries, dataBytes := AddXml(entries, dataBytes, dataBudget, names[1], parts.rootRelationships, all);
    }
    if ok {
      ok, entries, dataBytes := AddXml(entries, dataBytes, dataBudget, names[2], parts.workbook, all);
    }
    if ok {
      ok, entries, dataBytes := AddXml(entries, dataBytes, dataBudget, names[3], parts.relationships, all);
    }
    if ok {
      ok, entries, dataBytes := AddXml(entries, dataBytes, dataBudget, names[4], parts.styles, all);
    }
  }

  /** validateSheet; false where it throws. */
  method ValidateSheet(lower: Units -> Units, sheet: Sheet, names: set<Units>) returns (ok: bool, more: set<Units>)
    ensures ok <==> Valid(sheet) && lower(sheet.name) !in names
    ensures ok ==> more == names + {lower(sheet.name)}
  {
    more := names;
    if !NameOk(sheet.name) || !SizeOk(sheet) || lower(sheet.name) in names {
      return false, names;
    }
    more := names + {lower(sheet.name)};
    if |sheet.widths| > sheet.columnCount {
      return false, more;
    }
    for i := 0 to |sheet.widths|
      invariant forall k | 0 <= k < i :: WidthOk(sheet.widths[k])
    {
      if !WidthOk(sheet.widths[i]) {
        return false, more;
      }
    }
    ok := true;
  }

  method ValidateSheets(lower: Units -> Units, sheets: seq<Sheet>) returns (ok: bool)
    ensures ok <==> SheetsAccepted(lower, sheets)
  {
    var names := {};
    for i := 0 to |sheets|
      invariant SheetsAccepted(lower, sheets[..i])
      invariant names == set k | 0 <= k < i :: lower(sheets[k].name)
    {
      assert forall k | 0 <= k < i :: sheets[..i][k] == sheets[k];
      ok, names := ValidateSheet(lower, sheets[i], names);
      if !ok {
        return;
      }
    }
    assert sheets[..|sheets|] == sheets;
    ok := true;
  }

  lemma NextEntryFits(all: seq<Entry>, k: nat)
    requires k < |all|
    ensures EntryBytes(all[..k]) + |all[k].data| <= EntryBytes(all)
  {
    assert all[..k + 1][..k] == all[..k];
    EntryBytesGrow(all, k + 1);
  }

  /** One turn of the loop over the worksheets. */
  method AddSheet(input: Workbook, names: seq<Bytes>, i: nat, entries: seq<Entry>, dataBytes: nat, dataBudget: nat,
                  ghost all: seq<Entry>)
    returns (ok: bool, more: seq<Entry>, moreBytes: nat)
    requires SheetEntry(input, names, all, i) && |entries| == 5 + i && entries == all[..5 + i]
    requires dataBytes == EntryBytes(entries) <= dataBudget
    ensures ok ==> |more| == 6 + i && more == all[..6 + i] && moreBytes == EntryBytes(more) <= dataBudget
    ensures ok ==> SheetOk(input.sheets[i])
    ensures !ok ==> EntryBytes(all) > dataBudget || !SheetOk(input.sheets[i])
  {
    NextEntryFits(all, 5 + i);
    var xml := WorksheetXml(input.markup, input.sheets[i], dataBudget - dataBytes);
    if xml.None? {
      return false, entries, dataBytes;
    }
    ok, more, moreBytes := AddXml(entries, dataBytes, dataBudget, names[5 + i], xml.value, all);
  }

  method AddSheets(input: Workbook, names: seq<Bytes>, parts: seq<Entry>, partBytes: nat, dataBudget: nat,
                   ghost all: seq<Entry>)
    returns (ok: bool, entries: seq<Entry>, dataBytes: nat)
    requires Describe(input, names, all) && parts == all[..5] && partBytes == EntryBytes(parts) <= dataBudget
    ensures ok ==> entries == all && EntryBytes(all) <= dataBudget && RowsAccepted(input.sheets)
    ensures !ok ==> EntryBytes(all) > dataBudget || !RowsAccepted(input.sheets)
  {
    entries, dataBytes := parts, partBytes;
    for i := 0 to |input.sheets|
      invariant |entries| == 5 + i && entries == all[..5 + i] && dataBytes == EntryBytes(entries) <= dataBudget
      invariant forall k | 0 <= k < i :: SheetOk(input.sheets[k])
    {
      assert SheetEntry(input, names, all, i);
      ok, entries, dataBytes := AddSheet(input, names, i, entries, dataBytes, dataBudget, all);
      if !ok {
        return;
      }
    }
    assert all[..|all|] == all;
    ok := true;
  }

  predicate ShortNames(names: seq<Bytes>) {
    forall i | 0 <= i < |names| :: 0 < |names[i]| <= 0xFFFF
  }

  lemma NamesAreShort(sheetCount: nat)
    requires sheetCount <= MAX_SHEETS
    ensures ShortNames(FileNames(sheetCount))
  {
    forall i | 0 <= i < 5 + sheetCount ensures 0 < |FileNames(sheetCount)[i]| <= 0xFFFF {
      if i >= 5 {
        var n := i - 5 + 1;
        assert |Decimal(n)| <= |Decimal(n / 10)| + 1 && |Decimal(n / 10)| <= |Decimal(n / 100)| + 1;
        assert n / 10 / 10 == n / 100;
        assert FileNames(sheetCount)[i] == SheetName(i - 5);
      }
    }
  }

  /** From the budget to the result of storedZip. */
  method BuildArchive(table: array<bv32>, input: Workbook, names: seq<Bytes>, ghost all: seq<Entry>)
    returns (output: Option<Bytes>)
    requires Crc32.IsTable(table[..]) && |input.sheets| <= MAX_SHEETS && 0 <= input.maxOutputBytes <= MAX_ZIP_UINT32
    requires Describe(input, names, all) && ShortNames(names)
    ensures output.Some? <==> RowsAccepted(input.sheets) && WithinBudget(names, all, input.maxOutputBytes)
    ensures output.Some? ==> IsArchiveOf(output.value, all) && |output.value| == Overhead(names) + EntryBytes(all)
  {
    var dataBudget := input.maxOutputBytes - Overhead(names);
    if dataBudget < 1 {
      return None;
    }
    var ok, entries, dataBytes := AddParts(input.parts, names, dataBudget, all);
    if !ok {
      return None;
    }
    ok, entries, dataBytes := AddSheets(input, names, entries, dataBytes, dataBudget, all);
    if !ok {
      return None;
    }
    forall i | 0 <= i < |all| ensures 0 < |all[i].name| <= 0xFFFF {
      assert all[i].name == names[i];
    }
    BudgetSuffices(all, input.maxOutputBytes);
    output := WriteStoredZip(table, entries, input.maxOutputBytes);
  }

  lemma EntriesAre(input: Workbook)
    requires SheetsAccepted(input.lower, input.sheets)
    ensures Describe(input, FileNames(|input.sheets|), EntriesOf(input))
  {
  }

  /** createSafeXlsx: None stands for the thrown error. */
  method CreateSafeXlsx(table: array<bv32>, input: Workbook) returns (output: Option<Bytes>)
    requires Crc32.IsTable(table[..])
    ensures output.Some? <==> Accepted(input)
    ensures output.Some? ==> IsArchiveOf(output.value, EntriesOf(input))
    ensures output.Some? ==>
      |output.value| == Overhead(FileNames(|input.sheets|)) + EntryBytes(EntriesOf(input)) <= input.maxOutputBytes
  {
    if |input.sheets| == 0 || |input.sheets| > MAX_SHEETS
      || input.maxOutputBytes < 1 || input.maxOutputBytes > MAX_ZIP_UINT32
    {
      return None;
    }
    var valid := ValidateSheets(input.lower, input.sheets);
    if !valid {
      return None;
    }
    var names := FileNames(|input.sheets|);
    NamesAreShort(|input.sheets|);
    EntriesAre(input);
    output := BuildArchive(table, input, names, EntriesOf(input));
  }

  /** Part k of what a reader has found. */
  predicate PartIs(read: Option<seq<Item>>, k: nat, name: Bytes, data: Bytes) {
    read.Some? && k < |read.value| && read.value[k].name == name && read.value[k].data == data
  }

  lemma PartReadsBack(entries: seq<Entry>, k: nat)
    requires k < |entries|
    ensures PartIs(Some(ItemsOf(entries)), k, entries[k].name, entries[k].data)
  {
  }

  lemma FixedNamesAre(sheetCount: nat)
    ensures var names := FileNames(sheetCount);
            && names[0] == Ascii("[Content_Types].xml") && names[1] == Ascii("_rels/.rels")
            && names[2] == Ascii("xl/workbook.xml") && names[3] == Ascii("xl/_rels/workbook.xml.rels")
            && names[4] == Ascii("xl/styles.xml")
  {
  }

  lemma FixedPartsReadBack(input: Workbook, read: Option<seq<Item>>)
    requires SheetsAccepted(input.lower, input.sheets) && read == Some(ItemsOf(EntriesOf(input)))
    ensures var names := FileNames(|input.sheets|);
            && PartIs(read, 0, names[0], input.parts.contentTypes)
            && PartIs(read, 1, names[1], input.parts.rootRelationships)
            && PartIs(read, 2, names[2], input.parts.workbook)
            && PartIs(read, 3, names[3], input.parts.relationships)
            && PartIs(read, 4, names[4], input.parts.styles)
  {
    var all := EntriesOf(input);
    PartReadsBack(all, 0);
    PartReadsBack(all, 1);
    PartReadsBack(all, 2);
    PartReadsBack(all, 3);
    PartReadsBack(all, 4);
  }

  lemma SheetReadsBack(input: Workbook, read: Option<seq<Item>>, k: nat)
    requires SheetsAccepted(input.lower, input.sheets) && read == Some(ItemsOf(EntriesOf(input))) && k < |input.sheets|
    ensures PartIs(read, 5 + k, Ascii("xl/worksheets/sheet" + Decimal(k + 1) + ".xml"),
                   SheetBytes(input.markup, input.sheets[k]))
  {
    PartReadsBack(EntriesOf(input), 5 + k);
  }

  /**
  A reader of the workbook finds the five fixed parts under their names, and then each worksheet under
  the name of its position, with the text of that worksheet.
  */
  lemma WorkbookReadsBack(input: Workbook, output: Bytes)
    requires SheetsAccepted(input.lower, input.sheets) && IsArchiveOf(output, EntriesOf(input))
    ensures var read := ReadArchive(output);
            && read.Some? && |read.value| == 5 + |input.sheets|
            && PartIs(read, 0, Ascii("[Content_Types].xml"), input.parts.contentTypes)
            && PartIs(read, 1, Ascii("_rels/.rels"), input.parts.rootRelationships)
            && PartIs(read, 2, Ascii("xl/workbook.xml"), input.parts.workbook)
            && PartIs(read, 3, Ascii("xl/_rels/workbook.xml.rels"), input.parts.relationships)
            && PartIs(read, 4, Ascii("xl/styles.xml"), input.parts.styles)
            && forall k | 0 <= k < |input.sheets| ::
                 PartIs(read, 5 + k, Ascii("xl/worksheets/sheet" + Decimal(k + 1) + ".xml"),
                        SheetBytes(input.markup, input.sheets[k]))
  {
    var read := Some(ItemsOf(EntriesOf(input)));
    assert ReadArchive(output) == read;
    FixedNamesAre(|input.sheets|);
    FixedPartsReadBack(input, read);
    forall k | 0 <= k < |input.sheets|
      ensures PartIs(read, 5 + k, Ascii("xl/worksheets/sheet" + Decimal(k + 1) + ".xml"),
                     SheetBytes(input.markup, input.sheets[k]))
    {
      SheetReadsBack(input, read, k);
    }
  }
}
