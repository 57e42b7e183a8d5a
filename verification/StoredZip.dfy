/** storedZip of apps/api/src/infrastructure/safe-xlsx.ts. Entry names are their UTF-8 bytes. */
module StoredZip {
  import opened Wrappers
  import opened ZipFormat
  import Crc32

  datatype Entry = Entry(name: Bytes, data: Bytes)

  function Bits(data: Bytes): (r: seq<bv8>)
    ensures |r| == |data|
  {
    seq(|data|, i requires 0 <= i < |data| => data[i] as bv8)
  }

  function Checksum(data: Bytes): UInt32 {
    Crc32.Bitwise(Bits(data)) as int
  }

  function ItemOf(entry: Entry): Item {
    Item(entry.name, entry.data, Checksum(entry.data))
  }

  function ItemsOf(entries: seq<Entry>): (r: seq<Item>)
    ensures |r| == |entries|
  {
    seq(|entries|, i requires 0 <= i < |entries| => ItemOf(entries[i]))
  }

  // ---------- Filling a header ----------

  /** Buffer.writeUInt16LE. */
  method WriteUInt16LE(buffer: array<Byte>, n: UInt16, offset: nat)
    requires offset + 2 <= buffer.Length
    modifies buffer
    ensures buffer[..offset + 2] == old(buffer[..offset]) + LE16(n)
    ensures buffer[offset + 2..] == old(buffer[offset + 2..])
  {
    assert n / 0x100 < 0x100;
    buffer[offset] := n % 0x100;
    buffer[offset + 1] := n / 0x100;
  }

  /** Buffer.writeUInt32LE. */
  method WriteUInt32LE(buffer: array<Byte>, n: UInt32, offset: nat)
    requires offset + 4 <= buffer.Length
    modifies buffer
    ensures buffer[..offset + 4] == old(buffer[..offset]) + LE32(n)
    ensures buffer[offset + 4..] == old(buffer[offset + 4..])
  {
    WriteUInt16LE(buffer, n % 0x1_0000, offset);
    WriteUInt16LE(buffer, n / 0x1_0000, offset + 2);
  }

  method WriteShared(buffer: array<Byte>, item: Item, offset: nat)
    requires Writable(item) && offset + 22 <= buffer.Length
    modifies buffer
    ensures buffer[..offset + 22] == old(buffer[..offset]) + SharedFields(item)
  {
    WriteUInt16LE(buffer, UTF8_FLAG, offset);
    WriteUInt16LE(buffer, STORE_METHOD, offset + 2);
    WriteUInt16LE(buffer, DOS_TIME, offset + 4);
    WriteUInt16LE(buffer, DOS_DATE, offset + 6);
    WriteUInt32LE(buffer, item.crc, offset + 8);
    WriteUInt32LE(buffer, |item.data|, offset + 12);
    WriteUInt32LE(buffer, |item.data|, offset + 16);
    WriteUInt16LE(buffer, |item.name|, offset + 20);
  }

  method WriteLocalStart(buffer: array<Byte>)
    requires buffer.Length == 30
    modifies buffer
    ensures buffer[..6] == LE32(LOCAL_SIGNATURE) + LE16(VERSION)
  {
    WriteUInt32LE(buffer, LOCAL_SIGNATURE, 0);
    WriteUInt16LE(buffer, VERSION, 4);
  }

  method MakeLocalHeader(item: Item) returns (header: array<Byte>)
    requires Writable(item)
    ensures fresh(header) && header[..] == LocalHeader(item)
  {
    header := new Byte[30](_ => 0);
    WriteLocalStart(header);
    WriteShared(header, item, 6);
    WriteUInt16LE(header, 0, 28);
    assert header[..] == header[..30];
  }

  method WriteCentralEnd(buffer: array<Byte>, localOffset: UInt32)
    requires buffer.Length == 46
    modifies buffer
    ensures buffer[..]
         == old(buffer[..30]) + LE16(0) + LE16(0) + LE16(0) + LE16(0) + LE32(0) + LE32(localOffset)
  {
    WriteUInt16LE(buffer, 0, 30);
    WriteUInt16LE(buffer, 0, 32);
    WriteUInt16LE(buffer, 0, 34);
    WriteUInt16LE(buffer, 0, 36);
    WriteUInt32LE(buffer, 0, 38);
    WriteUInt32LE(buffer, localOffset, 42);
    assert buffer[..] == buffer[..46];
  }

  method WriteCentralStart(buffer: array<Byte>)
    requires buffer.Length == 46
    modifies buffer
    ensures buffer[..8] == LE32(CENTRAL_SIGNATURE) + LE16(VERSION) + LE16(VERSION)
  {
    WriteUInt32LE(buffer, CENTRAL_SIGNATURE, 0);
    WriteUInt16LE(buffer, VERSION, 4);
    WriteUInt16LE(buffer, VERSION, 6);
  }

  method MakeCentralHeader(item: Item, localOffset: UInt32) returns (header: array<Byte>)
    requires Writable(item)
    ensures fresh(header) && header[..] == CentralHeader(item, localOffset)
  {
    header := new Byte[46](_ => 0);
    WriteCentralStart(header);
    WriteShared(header, item, 8);
    WriteCentralEnd(header, localOffset);
  }

  method WriteSizes(buffer: array<Byte>, count: UInt16, centralSize: UInt32, centralOffset: UInt32, offset: nat)
    requires offset + 12 <= buffer.Length
    modifies buffer
    ensures buffer[..offset + 12]
         == old(buffer[..offset]) + LE16(count) + LE16(count) + LE32(centralSize) + LE32(centralOffset)
  {
    WriteUInt16LE(buffer, count, offset);
    WriteUInt16LE(buffer, count, offset + 2);
    WriteUInt32LE(buffer, centralSize, offset + 4);
    WriteUInt32LE(buffer, centralOffset, offset + 8);
  }

  method WriteEndStart(buffer: array<Byte>)
    requires buffer.Length == 22
    modifies buffer
    ensures buffer[..8] == LE32(END_SIGNATURE) + LE16(0) + LE16(0)
  {
    WriteUInt32LE(buffer, END_SIGNATURE, 0);
    WriteUInt16LE(buffer, 0, 4);
    WriteUInt16LE(buffer, 0, 6);
  }

  method MakeEndRecord(count: UInt16, centralSize: UInt32, centralOffset: UInt32) returns (end: array<Byte>)
    ensures fresh(end) && end[..] == EndRecord(count, centralSize, centralOffset)
  {
    end := new Byte[22](_ => 0);
    WriteEndStart(end);
    WriteSizes(end, count, centralSize, centralOffset, 8);
    WriteUInt16LE(end, 0, 20);
    assert end[..] == end[..22];
  }

  // ---------- The archive ----------

  /** What storedZip accepts. */
  predicate Fits(entries: seq<Entry>, maximumBytes: int) {
    Archivable(ItemsOf(entries)) && |Archive(ItemsOf(entries))| <= maximumBytes
  }

  /** These bytes are the archive of these entries, and a reader recovers them with their checksums. */
  predicate IsArchiveOf(bytes: Bytes, entries: seq<Entry>) {
    && Archivable(ItemsOf(entries)) && bytes == Archive(ItemsOf(entries))
    && ReadArchive(bytes) == Some(ItemsOf(entries))
  }

  lemma ConcatOne(parts: seq<Bytes>, a: Bytes)
    ensures Concat(parts + [a]) == Concat(parts) + a
  {
    assert (parts + [a])[..|parts|] == parts;
  }

  lemma ConcatTwo(parts: seq<Bytes>, a: Bytes, b: Bytes)
    ensures Concat(parts + [a, b]) == Concat(parts) + (a + b)
  {
    ConcatOne(parts, a);
    ConcatOne(parts + [a], b);
    assert parts + [a, b] == parts + [a] + [b];
  }

  lemma ConcatThree(parts: seq<Bytes>, a: Bytes, b: Bytes, c: Bytes)
    ensures Concat(parts + [a, b, c]) == Concat(parts) + (a + b + c)
  {
    ConcatTwo(parts, a, b);
    ConcatOne(parts + [a, b], c);
    assert parts + [a, b, c] == parts + [a, b] + [c];
  }

  lemma OffsetOfAll(items: seq<Item>)
    requires AllWritable(items)
    ensures Offset(items, |items|) == |Concat(LocalRecords(items))|
  {
    assert LocalRecords(items)[..|items|] == LocalRecords(items);
  }

  lemma OffsetOfPrefix(items: seq<Item>, k: nat, i: nat)
    requires i <= k <= |items| && AllWritable(items)
    ensures Offset(items[..k], i) == Offset(items, i)
  {
    assert LocalRecords(items[..k])[..i] == LocalRecords(items)[..i];
  }

  /** Too far into the file, or not an item that can be written: no list that starts so can be archived. */
  lemma PrefixRefused(items: seq<Item>, k: nat)
    requires k < |items| && AllWritable(items[..k])
    requires |Concat(LocalRecords(items[..k]))| > 0xFFFF_FFFF || !Writable(items[k])
    ensures !Addressable(items)
  {
    if AllWritable(items) {
      OffsetOfAll(items[..k]);
      OffsetOfPrefix(items, k, k);
    }
  }

  /** What the parts and the offset record after some entries. */
  ghost predicate Progress(done: seq<Item>, locals: Bytes, centrals: Bytes, localOffset: nat) {
    && Addressable(done)
    && locals == Concat(LocalRecords(done))
    && centrals == Concat(CentralRecords(done))
    && localOffset == |locals|
  }

  lemma StillAddressable(done: seq<Item>, item: Item)
    requires Addressable(done) && |Concat(LocalRecords(done))| <= 0xFFFF_FFFF && Writable(item)
    ensures Addressable(done + [item])
  {
    var more := done + [item];
    assert more[..|done|] == done;
    assert AllWritable(more);
    forall i | 0 <= i < |more| ensures Offset(more, i) <= 0xFFFF_FFFF {
      OffsetOfPrefix(more, |done|, i);
      OffsetOfAll(done);
    }
  }

  lemma OneMore(done: seq<Item>, item: Item)
    requires Addressable(done) && |Concat(LocalRecords(done))| <= 0xFFFF_FFFF && Writable(item)
    ensures Addressable(done + [item])
    ensures Concat(LocalRecords(done + [item])) == Concat(LocalRecords(done)) + LocalRecord(item)
    ensures Concat(CentralRecords(done + [item]))
         == Concat(CentralRecords(done)) + (CentralHeader(item, |Concat(LocalRecords(done))|) + item.name)
  {
    StillAddressable(done, item);
    var more := done + [item];
    var central := CentralHeader(item, |Concat(LocalRecords(done))|) + item.name;
    assert more[..|done|] == done;
    assert LocalRecords(more) == LocalRecords(done) + [LocalRecord(item)];
    OffsetOfAll(done);
    forall i | 0 <= i <= |done| ensures Offset(more, i) == Offset(done, i) { OffsetOfPrefix(more, |done|, i); }
    assert CentralRecords(more) == CentralRecords(done) + [central];
    ConcatOne(LocalRecords(done), LocalRecord(item));
    ConcatOne(CentralRecords(done), central);
  }

  lemma NothingYet()
    ensures Progress([], Concat([]), Concat([]), 0)
  {
  }

  lemma EntryRefused(items: seq<Item>, k: nat, locals: Bytes, centrals: Bytes, localOffset: nat)
    requires k < |items| && Progress(items[..k], locals, centrals, localOffset)
    requires !Writable(items[k]) || localOffset > 0xFFFF_FFFF
    ensures !Archivable(items)
  {
    PrefixRefused(items, k);
  }

  method MakeItem(table: array<bv32>, entry: Entry) returns (item: Item)
    requires Crc32.IsTable(table[..])
    ensures item == ItemOf(entry)
  {
    var crc := Crc32.Compute(table, Bits(entry.data));
    item := Item(entry.name, entry.data, crc as int);
  }

  /** One turn of the loop: push the local header, the name, the data, the central header and the name again. */
  method AddEntry(item: Item, localParts: seq<Bytes>, centralParts: seq<Bytes>, localOffset: nat, ghost done: seq<Item>)
    returns (locals: seq<Bytes>, centrals: seq<Bytes>, offset: nat)
    requires Writable(item) && localOffset <= 0xFFFF_FFFF
    requires Progress(done, Concat(localParts), Concat(centralParts), localOffset)
    ensures Progress(done + [item], Concat(locals), Concat(centrals), offset)
  {
    var localHeader := MakeLocalHeader(item);
    locals := localParts + [localHeader[..], item.name, item.data];
    var centralHeader := MakeCentralHeader(item, localOffset);
    centrals := centralParts + [centralHeader[..], item.name];
    offset := localOffset + localHeader.Length + |item.name| + |item.data|;
    ConcatThree(localParts, localHeader[..], item.name, item.data);
    ConcatTwo(centralParts, centralHeader[..], item.name);
    OneMore(done, item);
  }

  method Finish(count: nat, localParts: seq<Bytes>, centralParts: seq<Bytes>, localOffset: nat,
                maximumBytes: int, ghost items: seq<Item>)
    returns (output: Option<Bytes>)
    requires 0 < count == |items| <= 0xFFFF
    requires Progress(items, Concat(localParts), Concat(centralParts), localOffset)
    ensures output.Some? <==> Archivable(items) && |Archive(items)| <= maximumBytes
    ensures output.Some? ==> output.value == Archive(items)
  {
    OffsetOfAll(items);
    var centralDirectory := Concat(centralParts);
    if localOffset > 0xFFFF_FFFF || |centralDirectory| > 0xFFFF_FFFF {
      return None;
    }
    var end := MakeEndRecord(count, |centralDirectory|, localOffset);
    var bytes := Concat(localParts) + centralDirectory + end[..];
    assert bytes == Archive(items);
    if |bytes| == 0 || |bytes| > maximumBytes {
      return None;
    }
    output := Some(bytes);
  }

  /** storedZip: None stands for the thrown error. */
  method WriteStoredZip(table: array<bv32>, entries: seq<Entry>, maximumBytes: int) returns (output: Option<Bytes>)
    requires Crc32.IsTable(table[..])
    ensures output.Some? <==> Fits(entries, maximumBytes)
    ensures output.Some? ==> IsArchiveOf(output.value, entries)
  {
    if |entries| == 0 || |entries| > 65535 {
      return None;
    }
    output := ZipItems(table, entries, maximumBytes, ItemsOf(entries));
    if output.Some? {
      ArchiveReadsBack(ItemsOf(entries));
    }
  }

  /** One turn of the loop with its checks; false where it throws. */
  method ZipItem(table: array<bv32>, entries: seq<Entry>, i: nat, localParts: seq<Bytes>, centralParts: seq<Bytes>,
                 localOffset: nat, ghost items: seq<Item>)
    returns (ok: bool, locals: seq<Bytes>, centrals: seq<Bytes>, offset: nat)
    requires Crc32.IsTable(table[..])
    requires i < |items| == |entries| && items[i] == ItemOf(entries[i])
    requires Progress(items[..i], Concat(localParts), Concat(centralParts), localOffset)
    ensures !ok ==> !Archivable(items)
    ensures ok ==> Progress(items[..i + 1], Concat(locals), Concat(centrals), offset)
  {
    var entry := entries[i];
    if |entry.name| == 0 || |entry.name| > 0xFFFF || |entry.data| > 0xFFFF_FFFF || localOffset > 0xFFFF_FFFF {
      EntryRefused(items, i, Concat(localParts), Concat(centralParts), localOffset);
      return false, localParts, centralParts, localOffset;
    }
    var item := MakeItem(table, entry);
    assert items[..i + 1] == items[..i] + [item];
    locals, centrals, offset := AddEntry(item, localParts, centralParts, localOffset, items[..i]);
    ok := true;
  }

  method ZipItems(table: array<bv32>, entries: seq<Entry>, maximumBytes: int, ghost items: seq<Item>)
    returns (output: Option<Bytes>)
    requires Crc32.IsTable(table[..]) && 0 < |entries| <= 65535
    requires |items| == |entries| && forall i | 0 <= i < |items| :: items[i] == ItemOf(entries[i])
    ensures output.Some? <==> Archivable(items) && |Archive(items)| <= maximumBytes
    ensures output.Some? ==> output.value == Archive(items)
  {
    var localParts: seq<Bytes>, centralParts: seq<Bytes>, localOffset: nat := [], [], 0;
    NothingYet();
    for i := 0 to |entries|
      invariant Progress(items[..i], Concat(localParts), Concat(centralParts), localOffset)
    {
      var ok;
      ok, localParts, centralParts, localOffset :=
        ZipItem(table, entries, i, localParts, centralParts, localOffset, items);
      if !ok {
        return None;
      }
    }
    assert items[..|entries|] == items;
    output := Finish(|entries|, localParts, centralParts, localOffset, maximumBytes, items);
  }
}
