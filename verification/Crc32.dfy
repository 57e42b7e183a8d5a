/**
The table-driven CRC-32 of apps/api/src/infrastructure/safe-xlsx.ts against the bit-by-bit
reflected definition of section 8 of RFC 1952 and section 4.4.7 of PKWARE APPNOTE.
*/
module Crc32 {
  import opened ShiftRegister

  const ALL_ONES: bv32 := 0xFFFF_FFFF

  function Xor(x: bv32, y: bv32): bv32 { x ^ y }

  function Halve(v: bv32): bv32 { v >> 1 }

  predicate IsOdd(v: bv32) { v & 1 == 1 }

  predicate HasTop(v: bv32) { v >> 31 == 1 }

  /** 32-bit words with the reflected CRC-32 polynomial. */
  const WORDS: Words<bv32> := Words(Xor, Halve, IsOdd, HasTop, 0, 0xEDB8_8320)

  function Round(v: bv32): bv32 {
    if v & 1 == 1 then 0xEDB8_8320 ^ (v >> 1) else v >> 1
  }

  /** n rounds of the table construction. */
  function Rounds(v: bv32, n: nat): bv32
    decreases n
  {
    if n == 0 then v else Rounds(Round(v), n - 1)
  }

  // ---------- The reference: the message bit by bit ----------

  /** Shift the lowest bit of the input into the register. */
  function ShiftBit(v: bv32, input: bv32): bv32 {
    if IsOdd(v) != IsOdd(input) then 0xEDB8_8320 ^ (v >> 1) else v >> 1
  }

  /** Shift in the n lowest bits of the input, least significant first. */
  function Shifts(v: bv32, input: bv32, n: nat): bv32
    decreases n
  {
    if n == 0 then v else Shifts(ShiftBit(v, input), input >> 1, n - 1)
  }

  function ShiftByte(v: bv32, byte: bv8): bv32 {
    Shifts(v, byte as bv32, 8)
  }

  function Register(data: seq<bv8>): bv32 {
    if data == [] then ALL_ONES else ShiftByte(Register(data[..|data| - 1]), data[|data| - 1])
  }

  /** The CRC-32 of a message. */
  function Bitwise(data: seq<bv8>): bv32 {
    Xor(Register(data), ALL_ONES)
  }

  // ---------- 32-bit words are such words ----------

  lemma XorIsAssociative(x: bv32, y: bv32, z: bv32)
    ensures Xor(Xor(x, y), z) == Xor(x, Xor(y, z))
  {
  }

  lemma XorCommutes(x: bv32, y: bv32)
    ensures Xor(x, y) == Xor(y, x)
  {
  }

  lemma XorUndoes(x: bv32, y: bv32)
    ensures Xor(x, Xor(x, y)) == y
  {
  }

  lemma XorZero(x: bv32)
    ensures Xor(x, 0) == x
  {
  }

  lemma HalveOfXor(x: bv32, y: bv32)
    ensures Halve(Xor(x, y)) == Xor(Halve(x), Halve(y))
  {
  }

  lemma LowBitOfXor(x: bv32, y: bv32)
    ensures IsOdd(Xor(x, y)) == (IsOdd(x) != IsOdd(y))
  {
  }

  lemma TopBitOfXor(x: bv32, y: bv32)
    ensures HasTop(Xor(x, y)) == (HasTop(x) != HasTop(y))
  {
  }

  lemma HalfHasNoTop(x: bv32)
    ensures !HasTop(Halve(x))
  {
  }

  lemma BitAndHalf(x: bv32, y: bv32)
    requires Halve(x) == Halve(y) && IsOdd(x) == IsOdd(y)
    ensures x == y
  {
  }

  lemma WordsAreGroup()
    ensures WORDS.IsGroup()
  {
    forall x, y ensures Xor(x, y) == Xor(y, x) { XorCommutes(x, y); }
    forall x, y, z ensures Xor(Xor(x, y), z) == Xor(x, Xor(y, z)) { XorIsAssociative(x, y, z); }
    forall x, y ensures Xor(x, Xor(x, y)) == y { XorUndoes(x, y); }
    forall x ensures Xor(x, 0) == x { XorZero(x); }
  }

  lemma WordHalvesAdd()
    ensures WORDS.HalvesAdd()
  {
    forall x, y ensures Halve(Xor(x, y)) == Xor(Halve(x), Halve(y)) { HalveOfXor(x, y); }
  }

  lemma WordOddsAdd()
    ensures WORDS.OddsAdd()
  {
    forall x, y ensures IsOdd(Xor(x, y)) == (IsOdd(x) != IsOdd(y)) { LowBitOfXor(x, y); }
  }

  lemma WordsAreLinear()
    ensures WORDS.IsLinear()
  {
    WordHalvesAdd();
    WordOddsAdd();
  }

  lemma WordsAreMarked()
    ensures WORDS.IsMarked()
  {
    forall x, y | Halve(x) == Halve(y) && IsOdd(x) == IsOdd(y) ensures x == y { BitAndHalf(x, y); }
    forall x, y ensures HasTop(Xor(x, y)) == (HasTop(x) != HasTop(y)) { TopBitOfXor(x, y); }
    forall x ensures !HasTop(Halve(x)) { HalfHasNoTop(x); }
  }

  lemma {:induction false} RoundsAgree(v: bv32, n: nat)
    ensures WORDS.Rounds(v, n) == Rounds(v, n)
    decreases n
  {
    if n > 0 {
      assert WORDS.Round(v) == Round(v);
      RoundsAgree(Round(v), n - 1);
    }
  }

  lemma {:induction false} ShiftsAgree(v: bv32, input: bv32, n: nat)
    ensures WORDS.Shifts(v, input, n) == Shifts(v, input, n)
    decreases n
  {
    if n > 0 {
      assert WORDS.ShiftBit(v, input) == ShiftBit(v, input);
      ShiftsAgree(ShiftBit(v, input), input >> 1, n - 1);
    }
  }

  function Halves(v: bv32, n: nat): bv32
    decreases n
  {
    if n == 0 then v else Halves(v >> 1, n - 1)
  }

  lemma {:induction false} HalvesAgree(v: bv32, n: nat)
    ensures WORDS.Halves(v, n) == Halves(v, n)
    decreases n
  {
    if n > 0 {
      HalvesAgree(v >> 1, n - 1);
    }
  }

  // ---------- A register is its low byte, which the table knows, and the rest ----------

  function Low(v: bv32): bv32 { v & 0xFF }

  function High(v: bv32): bv32 { v & 0xFFFF_FF00 }

  lemma SplitLowByte(v: bv32)
    ensures Xor(High(v), Low(v)) == v
  {
  }

  lemma HalvesOfHigh(v: bv32)
    ensures !IsOdd(Halves(High(v), 0)) && !IsOdd(Halves(High(v), 1)) && !IsOdd(Halves(High(v), 2))
    ensures !IsOdd(Halves(High(v), 3)) && !IsOdd(Halves(High(v), 4)) && !IsOdd(Halves(High(v), 5))
    ensures !IsOdd(Halves(High(v), 6)) && !IsOdd(Halves(High(v), 7))
    ensures Halves(High(v), 8) == v >> 8
  {
  }

  lemma HighIsClear(v: bv32, i: nat)
    requires i < 8
    ensures !WORDS.odd(WORDS.Halves(High(v), i))
  {
    HalvesOfHigh(v);
    HalvesAgree(High(v), i);
  }

  /** Eight rounds over a register: the rounds of its low byte, and the rest shifted. */
  lemma RoundsByTable(v: bv32)
    ensures Rounds(v, 8) == Xor(Rounds(Low(v), 8), v >> 8)
  {
    SplitLowByte(v);
    WordsAreGroup();
    WordsAreLinear();
    forall i: nat | i < 8 ensures !WORDS.odd(WORDS.Halves(High(v), i)) { HighIsClear(v, i); }
    WORDS.RoundsByParts(High(v), Low(v), 8);
    HalvesAgree(High(v), 8);
    HalvesOfHigh(v);
    RoundsAgree(v, 8);
    RoundsAgree(Low(v), 8);
  }

  lemma NothingRemains(byte: bv8)
    ensures Halves(byte as bv32, 8) == 0
  {
  }

  lemma ByteIsRounds(v: bv32, byte: bv8)
    ensures ShiftByte(v, byte) == Rounds(Xor(v, byte as bv32), 8)
  {
    var input := byte as bv32;
    WordsAreGroup();
    WordsAreLinear();
    WORDS.ShiftsAreRounds(v, input, 8);
    NothingRemains(byte);
    HalvesAgree(input, 8);
    ShiftsAgree(v, input, 8);
    RoundsAgree(Xor(v, input), 8);
  }

  lemma HighOfXor(v: bv32, byte: bv8)
    ensures Xor(v, byte as bv32) >> 8 == v >> 8
  {
  }

  /** One table lookup is eight message bits. */
  lemma ByteByTable(v: bv32, byte: bv8)
    ensures ShiftByte(v, byte) == Xor(Rounds(Low(Xor(v, byte as bv32)), 8), v >> 8)
  {
    ByteIsRounds(v, byte);
    RoundsByTable(Xor(v, byte as bv32));
    HighOfXor(v, byte);
  }

  // ---------- The loops of the program ----------

  function EntryOf(index: bv8): bv32 {
    Rounds(index as bv32, 8)
  }

  ghost predicate IsTable(table: seq<bv32>) {
    |table| == 256 && forall i | 0 <= i < 256 :: table[i] == EntryOf(i as bv8)
  }

  lemma RoundsStep(v: bv32, n: nat)
    requires n > 0
    ensures Rounds(v, n) == Rounds(if v & 1 == 1 then 0xEDB8_8320 ^ (v >> 1) else v >> 1, n - 1)
  {
  }

  /** The inner loop: eight rounds over one table index. */
  method MakeEntry(index: bv8) returns (value: bv32)
    ensures value == EntryOf(index)
  {
    value := index as bv32;
    var bit := 0;
    while bit < 8
      invariant 0 <= bit <= 8
      invariant Rounds(value, 8 - bit) == EntryOf(index)
    {
      RoundsStep(value, 8 - bit);
      value := if value & 1 == 1 then 0xEDB8_8320 ^ (value >> 1) else value >> 1;
      bit := bit + 1;
    }
  }

  /** CRC32_TABLE. */
  method MakeTable() returns (table: array<bv32>)
    ensures fresh(table) && IsTable(table[..])
  {
    table := new bv32[256];
    var index := 0;
    while index < table.Length
      invariant 0 <= index <= 256
      invariant forall i | 0 <= i < index :: table[i] == EntryOf(i as bv8)
    {
      var entry := MakeEntry(index as bv8);
      table[index] := entry;
      index := index + 1;
    }
  }

  lemma LowIsByte(v: bv32)
    ensures Low(v) <= 0xFF && (Low(v) as bv8) as bv32 == Low(v)
  {
  }

  /** The table index the loop reads for this register and message byte. */
  function Index(value: bv32, byte: bv8): bv8 {
    LowIsByte(value ^ byte as bv32);
    Low(value ^ byte as bv32) as bv8
  }

  lemma IndexedEntry(value: bv32, byte: bv8)
    ensures Xor(EntryOf(Index(value, byte)), value >> 8) == ShiftByte(value, byte)
  {
    LowIsByte(value ^ byte as bv32);
    ByteByTable(value, byte);
  }

  lemma ByteIndex(b: bv8)
    ensures (b as int) as bv8 == b
  {
  }

  /** crc32: the table-driven loop computes the bit-by-bit CRC-32 of every message. */
  method Compute(table: array<bv32>, data: seq<bv8>) returns (crc: bv32)
    requires IsTable(table[..])
    ensures crc == Bitwise(data)
  {
    var value: bv32 := ALL_ONES;
    for i := 0 to |data|
      invariant value == Register(data[..i])
    {
      var index := Index(value, data[i]);
      ByteIndex(index);
      assert table[..][index as int] == table[index as int];
      IndexedEntry(value, data[i]);
      assert data[..i + 1][..i] == data[..i];
      value := Xor(table[index as int], value >> 8);
    }
    assert data[..|data|] == data;
    crc := Xor(value, ALL_ONES);
  }

  // ---------- What the checksum detects ----------

  lemma ShiftByteIsInjective(v: bv32, w: bv32, b: bv8, c: bv8)
    requires ShiftByte(v, b) == ShiftByte(w, c)
    ensures Xor(v, b as bv32) == Xor(w, c as bv32)
  {
    ByteIsRounds(v, b);
    ByteIsRounds(w, c);
    RoundsAgree(Xor(v, b as bv32), 8);
    RoundsAgree(Xor(w, c as bv32), 8);
    WordsAreGroup();
    WordsAreMarked();
    WORDS.RoundsAreInjective(Xor(v, b as bv32), Xor(w, c as bv32), 8);
  }

  lemma XorCancels(v: bv32, x: bv32, y: bv32)
    ensures Xor(v, x) == Xor(v, y) ==> x == y
    ensures Xor(x, v) == Xor(y, v) ==> x == y
  {
  }

  lemma SameByte(a: bv8, b: bv8)
    requires a as bv32 == b as bv32
    ensures a == b
  {
  }

  /** A register step loses neither the register ... */
  lemma OtherRegister(v: bv32, w: bv32, b: bv8)
    requires v != w
    ensures ShiftByte(v, b) != ShiftByte(w, b)
  {
    if ShiftByte(v, b) == ShiftByte(w, b) {
      ShiftByteIsInjective(v, w, b, b);
      XorCancels(b as bv32, v, w);
    }
  }

  /** ... nor the byte. */
  lemma OtherByte(v: bv32, b: bv8, c: bv8)
    requires b != c
    ensures ShiftByte(v, b) != ShiftByte(v, c)
  {
    if ShiftByte(v, b) == ShiftByte(v, c) {
      ShiftByteIsInjective(v, v, b, c);
      XorCancels(v, b as bv32, c as bv32);
      SameByte(b, c);
    }
  }

  lemma LastByteCounts(a: seq<bv8>, b: seq<bv8>)
    requires 0 < |a| == |b| && a[..|a| - 1] == b[..|a| - 1] && a[|a| - 1] != b[|a| - 1]
    ensures Register(a) != Register(b)
  {
    OtherByte(Register(a[..|a| - 1]), a[|a| - 1], b[|a| - 1]);
  }

  lemma EarlierBytesCount(a: seq<bv8>, b: seq<bv8>)
    requires 0 < |a| == |b| && Register(a[..|a| - 1]) != Register(b[..|a| - 1]) && a[|a| - 1] == b[|a| - 1]
    ensures Register(a) != Register(b)
  {
    OtherRegister(Register(a[..|a| - 1]), Register(b[..|a| - 1]), a[|a| - 1]);
  }

  lemma {:induction false} RegistersDiffer(a: seq<bv8>, b: seq<bv8>, k: nat)
    requires |a| == |b| && k < |a| && a[k] != b[k]
    requires forall i | 0 <= i < |a| && i != k :: a[i] == b[i]
    ensures Register(a) != Register(b)
  {
    var n := |a| - 1;
    if k == n {
      assert a[..n] == b[..n];
      LastByteCounts(a, b);
    } else {
      RegistersDiffer(a[..n], b[..n], k);
      EarlierBytesCount(a, b);
    }
  }

  /** A message with one byte changed, wherever it is, has another CRC-32. */
  lemma OneChangedByteIsDetected(a: seq<bv8>, b: seq<bv8>, k: nat)
    requires |a| == |b| && k < |a| && a[k] != b[k]
    requires forall i | 0 <= i < |a| && i != k :: a[i] == b[i]
    ensures Bitwise(a) != Bitwise(b)
  {
    RegistersDiffer(a, b, k);
    XorCancels(ALL_ONES, Register(a), Register(b));
  }
}
