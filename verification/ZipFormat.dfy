/**
The part of the ZIP format that apps/api/src/infrastructure/safe-xlsx.ts writes: stored entries
with a local header each, a central directory and an end record (PKWARE APPNOTE sections 4.3.7,
4.3.12 and 4.3.16), and a reader that starts from the end record.
*/
module ZipFormat {
  import opened Wrappers

  type Byte = n: nat | n < 0x100
  type Bytes = seq<Byte>
  type UInt16 = n: nat | n < 0x1_0000
  type UInt32 = n: nat | n < 0x1_0000_0000

  const LOCAL_SIGNATURE: UInt32 := 0x0403_4b50
  const CENTRAL_SIGNATURE: UInt32 := 0x0201_4b50
  const END_SIGNATURE: UInt32 := 0x0605_4b50
  const UTF8_FLAG: UInt16 := 0x0800
  const STORE_METHOD: UInt16 := 0
  const VERSION: UInt16 := 20
  const DOS_TIME: UInt16 := 0
  const DOS_DATE: UInt16 := 0x0021

  datatype Item = Item(name: Bytes, data: Bytes, crc: UInt32)

  // ---------- Little-endian fields ----------

  function LE16(n: UInt16): Bytes {
    assert n / 0x100 < 0x100;
    [n % 0x100, n / 0x100]
  }

  function LE32(n: UInt32): Bytes {
    LE16(n % 0x1_0000) + LE16(n / 0x1_0000)
  }

  function Read16(b: Bytes, at: nat): UInt16
    requires at + 2 <= |b|
  {
    b[at] as int + 0x100 * b[at + 1] as int
  }

  function Read32(b: Bytes, at: nat): UInt32
    requires at + 4 <= |b|
  {
    Read16(b, at) as int + 0x1_0000 * Read16(b, at + 2) as int
  }

  /** A field can be read from the window that holds it. */
  lemma Inside16(front: Bytes, window: Bytes, back: Bytes, k: nat)
    requires k + 2 <= |window|
    ensures Read16(front + window + back, |front| + k) == Read16(window, k)
  {
    var b := front + window + back;
    assert b[|front| + k] == window[k] && b[|front| + k + 1] == window[k + 1];
  }

  lemma Inside32(front: Bytes, window: Bytes, back: Bytes, k: nat)
    requires k + 4 <= |window|
    ensures Read32(front + window + back, |front| + k) == Read32(window, k)
  {
    Inside16(front, window, back, k);
    Inside16(front, window, back, k + 2);
  }

  lemma ReadBack16(front: Bytes, n: UInt16, back: Bytes)
    ensures Read16(front + LE16(n) + back, |front|) == n
  {
    Inside16(front, LE16(n), back, 0);
  }

  lemma ReadBack32(front: Bytes, n: UInt32, back: Bytes)
    ensures Read32(front + LE32(n) + back, |front|) == n
  {
    Inside32(front, LE32(n), back, 0);
    assert Read16(LE32(n), 0) == n % 0x1_0000 && Read16(LE32(n), 2) == n / 0x1_0000;
  }

  // ---------- The records ----------

  predicate Writable(item: Item) {
    0 < |item.name| <= 0xFFFF && |item.data| <= 0xFFFF_FFFF
  }

  /** The fields shared by the local and the central header: from the flags to the name length. */
  function SharedFields(item: Item): Bytes
    requires Writable(item)
  {
    LE16(UTF8_FLAG) + LE16(STORE_METHOD) + LE16(DOS_TIME) + LE16(DOS_DATE)
    + LE32(item.crc) + LE32(|item.data|) + LE32(|item.data|) + LE16(|item.name|)
  }

  function LocalHeader(item: Item): (r: Bytes)
    requires Writable(item)
    ensures |r| == 30
  {
    LE32(LOCAL_SIGNATURE) + LE16(VERSION) + SharedFields(item) + LE16(0)
  }

  function LocalRecord(item: Item): Bytes
    requires Writable(item)
  {
    LocalHeader(item) + item.name + item.data
  }

  function CentralHeader(item: Item, offset: UInt32): (r: Bytes)
    requires Writable(item)
    ensures |r| == 46
  {
    LE32(CENTRAL_SIGNATURE) + LE16(VERSION) + LE16(VERSION) + SharedFields(item)
    + LE16(0) + LE16(0) + LE16(0) + LE16(0) + LE32(0) + LE32(offset)
  }

  function EndRecord(count: UInt16, centralSize: UInt32, centralOffset: UInt32): (r: Bytes)
    ensures |r| == 22
  {
    LE32(END_SIGNATURE) + LE16(0) + LE16(0) + LE16(count) + LE16(count)
    + LE32(centralSize) + LE32(centralOffset) + LE16(0)
  }

  // ---------- Reading one record ----------

  datatype Fields = Fields(
    flags: UInt16, compression: UInt16, time: UInt16, date: UInt16,
    crc: UInt32, packed: UInt32, size: UInt32, nameLength: UInt16)

  function ReadFields(b: Bytes, at: nat): Fields
    requires at + 22 <= |b|
  {
    Fields(Read16(b, at), Read16(b, at + 2), Read16(b, at + 4), Read16(b, at + 6),
           Read32(b, at + 8), Read32(b, at + 12), Read32(b, at + 16), Read16(b, at + 20))
  }

  function FieldsOf(item: Item): Fields
    requires Writable(item)
  {
    Fields(UTF8_FLAG, STORE_METHOD, DOS_TIME, DOS_DATE, item.crc, |item.data|, |item.data|, |item.name|)
  }

  lemma InsideFields(front: Bytes, window: Bytes, back: Bytes, k: nat)
    requires k + 22 <= |window|
    ensures ReadFields(front + window + back, |front| + k) == ReadFields(window, k)
  {
    Inside16(front, window, back, k);
    Inside16(front, window, back, k + 2);
    Inside16(front, window, back, k + 4);
    Inside16(front, window, back, k + 6);
    Inside32(front, window, back, k + 8);
    Inside32(front, window, back, k + 12);
    Inside32(front, window, back, k + 16);
    Inside16(front, window, back, k + 20);
  }

  lemma FieldsReadBack(item: Item)
    requires Writable(item)
    ensures ReadFields(SharedFields(item), 0) == FieldsOf(item)
  {
    var b := SharedFields(item);
    var crc, size, length := LE32(item.crc), LE32(|item.data|), LE16(|item.name|);
    var start := LE16(UTF8_FLAG) + LE16(STORE_METHOD) + LE16(DOS_TIME) + LE16(DOS_DATE);
    assert Read16(start, 0) == UTF8_FLAG && Read16(start, 2) == STORE_METHOD;
    assert Read16(start, 4) == DOS_TIME && Read16(start, 6) == DOS_DATE;
    assert b == [] + start + (crc + size + size + length);
    Inside16([], start, crc + size + size + length, 0);
    Inside16([], start, crc + size + size + length, 2);
    Inside16([], start, crc + size + size + length, 4);
    Inside16([], start, crc + size + size + length, 6);
    SizesReadBack(start, item.crc, |item.data|, |item.name|);
    assert b == start + (crc + size + size + length);
  }

  lemma SizesReadBack(front: Bytes, crc: UInt32, size: UInt32, length: UInt16)
    ensures var b := front + (LE32(crc) + LE32(size) + LE32(size) + LE16(length));
            && Read32(b, |front|) == crc && Read32(b, |front| + 4) == size
            && Read32(b, |front| + 8) == size && Read16(b, |front| + 12) == length
  {
    var c, s, l := LE32(crc), LE32(size), LE16(length);
    var b := front + (c + s + s + l);
    assert b == front + c + (s + s + l);
    ReadBack32(front, crc, s + s + l);
    assert b == (front + c) + s + (s + l);
    ReadBack32(front + c, size, s + l);
    assert b == (front + c + s) + s + l;
    ReadBack32(front + c + s, size, l);
    assert b == (front + c + s + s) + l + [];
    ReadBack16(front + c + s + s, length, []);
  }

  // ---------- The archive ----------

  function Concat(parts: seq<Bytes>): Bytes {
    if parts == [] then [] else Concat(parts[..|parts| - 1]) + parts[|parts| - 1]
  }

  predicate AllWritable(items: seq<Item>) {
    forall i | 0 <= i < |items| :: Writable(items[i])
  }

  /** The local header, name and data of each item. */
  function LocalRecords(items: seq<Item>): (r: seq<Bytes>)
    requires AllWritable(items)
    ensures |r| == |items|
  {
    seq(|items|, i requires 0 <= i < |items| => LocalRecord(items[i]))
  }

  /** Where the local header of item k starts. */
  function Offset(items: seq<Item>, k: nat): nat
    requires AllWritable(items) && k <= |items|
  {
    |Concat(LocalRecords(items)[..k])|
  }

  predicate Addressable(items: seq<Item>) {
    AllWritable(items) && forall k | 0 <= k < |items| :: Offset(items, k) <= 0xFFFF_FFFF
  }

  /** The central directory: each header points at where the item's local header starts. */
  function CentralRecords(items: seq<Item>): (r: seq<Bytes>)
    requires Addressable(items)
    ensures |r| == |items|
  {
    seq(|items|, i requires 0 <= i < |items| => CentralHeader(items[i], Offset(items, i)) + items[i].name)
  }

  predicate Archivable(items: seq<Item>) {
    && 0 < |items| <= 0xFFFF
    && Addressable(items)
    && Offset(items, |items|) <= 0xFFFF_FFFF
    && |Concat(CentralRecords(items))| <= 0xFFFF_FFFF
  }

  function Archive(items: seq<Item>): Bytes
    requires Archivable(items)
  {
    var locals, centrals := LocalRecords(items), CentralRecords(items);
    assert locals[..|items|] == locals;
    Concat(locals) + Concat(centrals) + EndRecord(|items|, |Concat(centrals)|, Offset(items, |items|))
  }

  // ---------- A reader ----------

  /** The item whose local header starts at this offset. */
  function ReadLocal(bytes: Bytes, at: nat): Option<Item> {
    if at + 30 > |bytes| || Read32(bytes, at) != LOCAL_SIGNATURE then None else
      var fields := ReadFields(bytes, at + 6);
      var nameEnd := at + 30 + fields.nameLength;
      var start := nameEnd + Read16(bytes, at + 28);
      if fields.compression != STORE_METHOD || fields.packed != fields.size || start + fields.size > |bytes| then None
      else Some(Item(bytes[at + 30..nameEnd], bytes[start..start + fields.size], fields.crc))
  }

  predicate Agrees(item: Item, fields: Fields, name: Bytes) {
    item.name == name && |item.data| == fields.size && item.crc == fields.crc && fields.compression == STORE_METHOD
  }

  /**
  The item of the central header at this position, found by its local header, and how many
  bytes the entry takes in the central directory.
  */
  function ReadEntry(locals: nat -> Option<Item>, bytes: Bytes, at: nat): Option<(Item, nat)> {
    if at + 46 > |bytes| || Read32(bytes, at) != CENTRAL_SIGNATURE then None else
      var fields := ReadFields(bytes, at + 8);
      var nameEnd := at + 46 + fields.nameLength;
      var local := locals(Read32(bytes, at + 42));
      if nameEnd > |bytes| || local.None? || !Agrees(local.value, fields, bytes[at + 46..nameEnd]) then None
      else Some((local.value, 46 + fields.nameLength + Read16(bytes, at + 30) + Read16(bytes, at + 32)))
  }

  function LocalIn(): (Bytes, nat) -> Option<Item> {
    (bytes: Bytes, at: nat) => ReadLocal(bytes, at)
  }

  function EntryIn(locals: nat -> Option<Item>): (Bytes, nat) -> Option<(Item, nat)> {
    (bytes: Bytes, at: nat) => ReadEntry(locals, bytes, at)
  }

  function At<R>(read: (Bytes, nat) -> R, bytes: Bytes): nat -> R {
    (at: nat) => read(bytes, at)
  }

  /** Read count things one behind the other. */
  function Walk<T>(read: nat -> Option<(T, nat)>, at: nat, count: nat): Option<seq<T>>
    decreases count
  {
    if count == 0 then Some([])
    else if read(at).None? then None
    else
      var others := Walk(read, at + read(at).value.1, count - 1);
      if others.None? then None else Some([read(at).value.0] + others.value)
  }

  /** Start from an end record without a comment. */
  function ReadArchive(bytes: Bytes): Option<seq<Item>> {
    if |bytes| < 22 || Read32(bytes, |bytes| - 22) != END_SIGNATURE || Read16(bytes, |bytes| - 2) != 0 then None
    else Walk(At(EntryIn(At(LocalIn(), bytes)), bytes), Read32(bytes, |bytes| - 6), Read16(bytes, |bytes| - 12))
  }

  // ---------- Reading parts back, whatever surrounds them ----------

  ghost predicate ReadsBack<R>(read: (Bytes, nat) -> R, part: Bytes, value: R) {
    forall front: Bytes, back: Bytes :: read(front + part + back, |front|) == value
  }

  /** Part k stands right behind the parts before it. */
  lemma {:induction false} PartAt(parts: seq<Bytes>, k: nat) returns (back: Bytes)
    requires k < |parts|
    ensures Concat(parts) == Concat(parts[..k]) + parts[k] + back
    ensures |Concat(parts[..k + 1])| == |Concat(parts[..k])| + |parts[k]|
    decreases |parts|
  {
    var n := |parts| - 1;
    assert parts[..k + 1][..k] == parts[..k];
    if k == n {
      back := [];
    } else {
      var inner := PartAt(parts[..n], k);
      assert parts[..n][..k] == parts[..k];
      back := inner + parts[n];
    }
  }

  lemma PartReadsBack<R>(read: (Bytes, nat) -> R, front: Bytes, parts: seq<Bytes>, k: nat, end: Bytes, value: R)
    requires k < |parts| && ReadsBack(read, parts[k], value)
    ensures read(front + Concat(parts) + end, |front| + |Concat(parts[..k])|) == value
  {
    var back := PartAt(parts, k);
    assert front + Concat(parts) + end == (front + Concat(parts[..k])) + parts[k] + (back + end);
  }

  lemma FirstPartsReadBack<R>(read: (Bytes, nat) -> R, parts: seq<Bytes>, k: nat, end: Bytes, value: R)
    requires k < |parts| && ReadsBack(read, parts[k], value)
    ensures read(Concat(parts) + end, |Concat(parts[..k])|) == value
  {
    PartReadsBack(read, [], parts, k, end, value);
    assert [] + Concat(parts) + end == Concat(parts) + end;
  }

  lemma {:induction false} WalkReadsBack<T>(
      read: (Bytes, nat) -> Option<(T, nat)>, front: Bytes, parts: seq<Bytes>, end: Bytes, items: seq<T>, k: nat)
    requires |parts| == |items| && k <= |items|
    requires forall i | 0 <= i < |items| :: ReadsBack(read, parts[i], Some((items[i], |parts[i]|)))
    ensures Walk(At(read, front + Concat(parts) + end), |front| + |Concat(parts[..k])|, |items| - k) == Some(items[k..])
    decreases |items| - k
  {
    if k < |items| {
      WalkReadsBack(read, front, parts, end, items, k + 1);
      PartReadsBack(read, front, parts, k, end, Some((items[k], |parts[k]|)));
      var _ := PartAt(parts, k);
      assert items[k..] == [items[k]] + items[k + 1..];
    }
  }

  // ---------- What the reader recovers ----------

  /** Any header: a four-byte signature, some bytes, the shared fields, and the rest. */
  lemma HeaderReadsBack(signature: UInt32, versions: Bytes, item: Item, back: Bytes)
    requires Writable(item)
    ensures var b := LE32(signature) + versions + SharedFields(item) + back;
            Read32(b, 0) == signature && ReadFields(b, 4 + |versions|) == FieldsOf(item)
  {
    var s, shared := LE32(signature), SharedFields(item);
    var b := s + versions + shared + back;
    assert b == [] + s + (versions + shared + back);
    ReadBack32([], signature, versions + shared + back);
    FieldsReadBack(item);
    InsideFields(s + versions, shared, back, 0);
  }

  lemma LocalHeaderReadsBack(item: Item)
    requires Writable(item)
    ensures IsLocalHeader(LocalHeader(item), item)
  {
    HeaderReadsBack(LOCAL_SIGNATURE, LE16(VERSION), item, LE16(0));
    var shared := SharedFields(item);
    var start := LE32(LOCAL_SIGNATURE) + LE16(VERSION) + shared;
    assert LocalHeader(item) == start + LE16(0) + [];
    ReadBack16(start, 0, []);
    assert LocalHeader(item) == LE32(LOCAL_SIGNATURE) + LE16(VERSION) + (shared + LE16(0));
    ReadBack16(LE32(LOCAL_SIGNATURE), VERSION, shared + LE16(0));
  }

  /** No extra field, no comment, the first disk and no attributes. */
  lemma CentralEndReadsBack(front: Bytes, offset: UInt32)
    ensures var b := front + (LE16(0) + LE16(0) + LE16(0) + LE16(0) + LE32(0) + LE32(offset));
            && Read16(b, |front|) == 0 && Read16(b, |front| + 2) == 0
            && Read16(b, |front| + 4) == 0 && Read16(b, |front| + 6) == 0
            && Read32(b, |front| + 8) == 0 && Read32(b, |front| + 12) == offset
  {
    var zeros, last := LE16(0) + LE16(0) + LE16(0) + LE16(0) + LE32(0), LE32(offset);
    var b := front + (zeros + last);
    assert b == front + (LE16(0) + LE16(0) + LE16(0) + LE16(0) + LE32(0) + LE32(offset));
    assert b == front + zeros + last;
    assert zeros == [0, 0, 0, 0, 0, 0, 0, 0, 0, 0, 0, 0];
    Inside16(front, zeros, last, 0);
    Inside16(front, zeros, last, 2);
    Inside16(front, zeros, last, 4);
    Inside16(front, zeros, last, 6);
    Inside32(front, zeros, last, 8);
    assert b == (front + zeros) + last + [];
    ReadBack32(front + zeros, offset, []);
  }

  predicate IsLocalHeader(header: Bytes, item: Item)
    requires Writable(item)
  {
    && |header| == 30
    && Read32(header, 0) == LOCAL_SIGNATURE && Read16(header, 4) == VERSION
    && ReadFields(header, 6) == FieldsOf(item) && Read16(header, 28) == 0
  }

  predicate IsCentralHeader(header: Bytes, item: Item, offset: UInt32)
    requires Writable(item)
  {
    && |header| == 46
    && Read32(header, 0) == CENTRAL_SIGNATURE && Read16(header, 4) == VERSION && Read16(header, 6) == VERSION
    && ReadFields(header, 8) == FieldsOf(item)
    && Read16(header, 30) == 0 && Read16(header, 32) == 0 && Read16(header, 34) == 0 && Read16(header, 36) == 0
    && Read32(header, 38) == 0 && Read32(header, 42) == offset
  }

  lemma TwoVersions(front: Bytes, back: Bytes)
    ensures var b := front + (LE16(VERSION) + LE16(VERSION)) + back;
            Read16(b, |front|) == VERSION && Read16(b, |front| + 2) == VERSION
  {
    var versions := LE16(VERSION) + LE16(VERSION);
    Inside16(front, versions, back, 0);
    Inside16(front, versions, back, 2);
  }

  lemma CentralHeaderReadsBack(item: Item, offset: UInt32)
    requires Writable(item)
    ensures IsCentralHeader(CentralHeader(item, offset), item, offset)
  {
    var versions := LE16(VERSION) + LE16(VERSION);
    var start := LE32(CENTRAL_SIGNATURE) + versions + SharedFields(item);
    var last := LE16(0) + LE16(0) + LE16(0) + LE16(0) + LE32(0) + LE32(offset);
    assert CentralHeader(item, offset) == start + last;
    HeaderReadsBack(CENTRAL_SIGNATURE, versions, item, last);
    CentralEndReadsBack(start, offset);
    TwoVersions(LE32(CENTRAL_SIGNATURE), SharedFields(item) + last);
    assert CentralHeader(item, offset) == LE32(CENTRAL_SIGNATURE) + versions + (SharedFields(item) + last);
  }

  lemma Slices(front: Bytes, header: Bytes, name: Bytes, data: Bytes, back: Bytes)
    ensures var b, n := front + (header + name + data) + back, |front| + |header|;
            && b == front + header + (name + data + back)
            && |b| >= n + |name| + |data|
            && b[n..n + |name|] == name && b[n + |name|..n + |name| + |data|] == data
  {
    var b := front + (header + name + data) + back;
    assert b == (front + header) + name + (data + back);
    assert b == (front + header + name) + data + back;
  }

  lemma LocalFrom(front: Bytes, header: Bytes, item: Item, back: Bytes)
    requires Writable(item) && IsLocalHeader(header, item)
    ensures ReadLocal(front + (header + item.name + item.data) + back, |front|) == Some(item)
  {
    Slices(front, header, item.name, item.data, back);
    Inside32(front, header, item.name + item.data + back, 0);
    InsideFields(front, header, item.name + item.data + back, 6);
    Inside16(front, header, item.name + item.data + back, 28);
  }

  lemma EntryFrom(locals: nat -> Option<Item>, front: Bytes, header: Bytes, item: Item, offset: UInt32, back: Bytes)
    requires Writable(item) && IsCentralHeader(header, item, offset) && locals(offset) == Some(item)
    ensures ReadEntry(locals, front + (header + item.name) + back, |front|) == Some((item, 46 + |item.name|))
  {
    var b := front + (header + item.name) + back;
    assert b == front + header + (item.name + back);
    Inside32(front, header, item.name + back, 0);
    InsideFields(front, header, item.name + back, 8);
    Inside16(front, header, item.name + back, 30);
    Inside16(front, header, item.name + back, 32);
    Inside32(front, header, item.name + back, 42);
    assert b == (front + header) + item.name + back;
  }

  lemma LocalReadsBack(header: Bytes, item: Item)
    requires Writable(item) && IsLocalHeader(header, item)
    ensures ReadsBack(LocalIn(), header + item.name + item.data, Some(item))
  {
    forall front: Bytes, back: Bytes
      ensures LocalIn()(front + (header + item.name + item.data) + back, |front|) == Some(item)
    {
      LocalFrom(front, header, item, back);
    }
  }

  lemma EntryReadsBack(locals: nat -> Option<Item>, header: Bytes, item: Item, offset: UInt32)
    requires Writable(item) && IsCentralHeader(header, item, offset) && locals(offset) == Some(item)
    ensures ReadsBack(EntryIn(locals), header + item.name, Some((item, 46 + |item.name|)))
  {
    forall front: Bytes, back: Bytes
      ensures EntryIn(locals)(front + (header + item.name) + back, |front|) == Some((item, 46 + |item.name|))
    {
      EntryFrom(locals, front, header, item, offset, back);
    }
  }

  /** The end record of an archive, read from the end of its bytes. */
  lemma EndReadsBack(front: Bytes, count: UInt16, size: UInt32, offset: UInt32)
    ensures var b := front + EndRecord(count, size, offset);
            && Read32(b, |b| - 22) == END_SIGNATURE
            && Read16(b, |b| - 18) == 0 && Read16(b, |b| - 16) == 0
            && Read16(b, |b| - 14) == count && Read16(b, |b| - 12) == count
            && Read32(b, |b| - 10) == size && Read32(b, |b| - 6) == offset && Read16(b, |b| - 2) == 0
  {
    var end := EndRecord(count, size, offset);
    EndFields(count, size, offset);
    assert front + end == front + end + [];
    Inside32(front, end, [], 0);
    Inside16(front, end, [], 4);
    Inside16(front, end, [], 6);
    Inside16(front, end, [], 8);
    Inside16(front, end, [], 10);
    Inside32(front, end, [], 12);
    Inside32(front, end, [], 16);
    Inside16(front, end, [], 20);
  }

  lemma EndFields(count: UInt16, size: UInt32, offset: UInt32)
    ensures var b := EndRecord(count, size, offset);
            && Read32(b, 0) == END_SIGNATURE && Read16(b, 4) == 0 && Read16(b, 6) == 0
            && Read16(b, 8) == count && Read16(b, 10) == count
            && Read32(b, 12) == size && Read32(b, 16) == offset && Read16(b, 20) == 0
  {
    var b := EndRecord(count, size, offset);
    var start, s, o, last := LE32(END_SIGNATURE) + LE16(0) + LE16(0), LE32(size), LE32(offset), LE16(0);
    assert b == [] + start + (LE16(count) + LE16(count) + s + o + last);
    Inside32([], start, LE16(count) + LE16(count) + s + o + last, 0);
    Inside16([], start, LE16(count) + LE16(count) + s + o + last, 4);
    Inside16([], start, LE16(count) + LE16(count) + s + o + last, 6);
    StartFields(END_SIGNATURE);
    assert b == start + LE16(count) + (LE16(count) + s + o + last);
    ReadBack16(start, count, LE16(count) + s + o + last);
    assert b == (start + LE16(count)) + LE16(count) + (s + o + last);
    ReadBack16(start + LE16(count), count, s + o + last);
    assert b == (start + LE16(count) + LE16(count)) + s + (o + last);
    ReadBack32(start + LE16(count) + LE16(count), size, o + last);
    assert b == (start + LE16(count) + LE16(count) + s) + o + last;
    ReadBack32(start + LE16(count) + LE16(count) + s, offset, last);
    assert b == (start + LE16(count) + LE16(count) + s + o) + last + [];
    ReadBack16(start + LE16(count) + LE16(count) + s + o, 0, []);
  }

  lemma StartFields(signature: UInt32)
    ensures var b := LE32(signature) + LE16(0) + LE16(0);
            Read32(b, 0) == signature && Read16(b, 4) == 0 && Read16(b, 6) == 0
  {
    var b := LE32(signature) + LE16(0) + LE16(0);
    assert b == [] + LE32(signature) + (LE16(0) + LE16(0));
    ReadBack32([], signature, LE16(0) + LE16(0));
  }

  lemma RecordAt(items: seq<Item>, k: nat)
    requires AllWritable(items) && k < |items|
    ensures ReadsBack(LocalIn(), LocalRecords(items)[k], Some(items[k]))
  {
    LocalHeaderReadsBack(items[k]);
    LocalReadsBack(LocalHeader(items[k]), items[k]);
  }

  lemma EntryAt(items: seq<Item>, k: nat, locals: nat -> Option<Item>)
    requires Addressable(items) && k < |items| && locals(Offset(items, k)) == Some(items[k])
    ensures ReadsBack(EntryIn(locals), CentralRecords(items)[k], Some((items[k], |CentralRecords(items)[k]|)))
  {
    CentralHeaderReadsBack(items[k], Offset(items, k));
    EntryReadsBack(locals, CentralHeader(items[k], Offset(items, k)), items[k], Offset(items, k));
  }

  lemma EntriesReadBack(items: seq<Item>, end: Bytes)
    requires Addressable(items)
    ensures var b := Concat(LocalRecords(items)) + Concat(CentralRecords(items)) + end;
            Walk(At(EntryIn(At(LocalIn(), b)), b), |Concat(LocalRecords(items))|, |items|) == Some(items)
  {
    var front, centrals := Concat(LocalRecords(items)), CentralRecords(items);
    var b := front + Concat(centrals) + end;
    var locals := At(LocalIn(), b);
    forall k | 0 <= k < |items|
      ensures ReadsBack(EntryIn(locals), centrals[k], Some((items[k], |centrals[k]|)))
    {
      assert b == front + (Concat(centrals) + end);
      RecordAt(items, k);
      FirstPartsReadBack(LocalIn(), LocalRecords(items), k, Concat(centrals) + end, Some(items[k]));
      EntryAt(items, k, locals);
    }
    WalkReadsBack(EntryIn(locals), front, centrals, end, items, 0);
    assert items[0..] == items && centrals[..0] == [];
  }

  lemma EndLeadsTo(front: Bytes, count: UInt16, size: UInt32, offset: UInt32)
    ensures var b := front + EndRecord(count, size, offset);
            ReadArchive(b) == Walk(At(EntryIn(At(LocalIn(), b)), b), offset, count)
  {
    EndReadsBack(front, count, size, offset);
  }

  /** The reader recovers the name, the data and the checksum of every item, in order. */
  lemma ArchiveReadsBack(items: seq<Item>)
    requires Archivable(items)
    ensures ReadArchive(Archive(items)) == Some(items)
  {
    var locals, centrals := LocalRecords(items), CentralRecords(items);
    assert locals[..|items|] == locals;
    EndLeadsTo(Concat(locals) + Concat(centrals), |items|, |Concat(centrals)|, Offset(items, |items|));
    EntriesReadBack(items, EndRecord(|items|, |Concat(centrals)|, Offset(items, |items|)));
  }

  // ---------- The length ----------

  function NamesOf(items: seq<Item>): (r: seq<Bytes>)
    ensures |r| == |items|
  {
    seq(|items|, i requires 0 <= i < |items| => items[i].name)
  }

  /** zipOverhead: everything but the data. */
  function Overhead(names: seq<Bytes>): nat {
    if names == [] then 22
    else Overhead(names[..|names| - 1]) + 30 + |names[|names| - 1]| + 46 + |names[|names| - 1]|
  }

  function DataBytes(items: seq<Item>): nat {
    if items == [] then 0 else DataBytes(items[..|items| - 1]) + |items[|items| - 1].data|
  }

  lemma OneMorePart(parts: seq<Bytes>, k: nat)
    requires 0 < k <= |parts|
    ensures |Concat(parts[..k])| == |Concat(parts[..k - 1])| + |parts[k - 1]|
  {
    var _ := PartAt(parts, k - 1);
  }

  lemma OneMoreItem(items: seq<Item>, k: nat)
    requires 0 < k <= |items|
    ensures DataBytes(items[..k]) == DataBytes(items[..k - 1]) + |items[k - 1].data|
    ensures Overhead(NamesOf(items[..k])) == Overhead(NamesOf(items[..k - 1])) + 76 + 2 * |items[k - 1].name|
  {
    assert items[..k][..k - 1] == items[..k - 1];
    assert NamesOf(items[..k])[..k - 1] == NamesOf(items[..k - 1]);
  }

  lemma {:induction false} LengthUpTo(items: seq<Item>, locals: seq<Bytes>, centrals: seq<Bytes>, k: nat)
    requires |items| == |locals| == |centrals| && k <= |items|
    requires forall i | 0 <= i < |items| :: |locals[i]| == 30 + |items[i].name| + |items[i].data|
    requires forall i | 0 <= i < |items| :: |centrals[i]| == 46 + |items[i].name|
    ensures |Concat(locals[..k])| + |Concat(centrals[..k])| + 22
         == Overhead(NamesOf(items[..k])) + DataBytes(items[..k])
    decreases k
  {
    if k == 0 {
      assert locals[..0] == [] && centrals[..0] == [] && NamesOf(items[..0]) == [] && items[..0] == [];
    } else {
      LengthUpTo(items, locals, centrals, k - 1);
      OneMorePart(locals, k);
      OneMorePart(centrals, k);
      OneMoreItem(items, k);
    }
  }

  lemma ArchiveLength(items: seq<Item>)
    requires Archivable(items)
    ensures |Archive(items)| == Overhead(NamesOf(items)) + DataBytes(items)
  {
    var locals, centrals := LocalRecords(items), CentralRecords(items);
    LengthUpTo(items, locals, centrals, |items|);
    assert locals[..|items|] == locals && centrals[..|items|] == centrals && items[..|items|] == items;
  }

  /** Two different lists of items never give the same archive. */
  lemma ArchiveIsInjective(items: seq<Item>, others: seq<Item>)
    requires Archivable(items) && Archivable(others) && Archive(items) == Archive(others)
    ensures items == others
  {
    ArchiveReadsBack(items);
    ArchiveReadsBack(others);
  }
}
