/**
canonicalJson of apps/api/src/platform/commands.ts and its copy in
apps/web/app/lib/mutation-client.ts.

Text is a sequence of UTF-16 code units. A finite number is the decimal text that
JSON.stringify gives it, so numbers that print alike (0 and -0) are one value.
*/
module CanonicalJson {
  import opened Wrappers

  type Unit = n: nat | n < 0x1_0000
  type Text = seq<Unit>

  /** A JavaScript value of plain JSON shape that may also hold undefined and non-finite numbers. */
  datatype Value =
    | Undefined
    | Null
    | Bool(value: bool)
    | Number(digits: Text)
    | NonFinite
    | String(units: Text)
    | Array(items: seq<Value>)
    | Object(members: seq<Member>)

  datatype Member = Member(key: Text, value: Value)

  // ---------- JSON.stringify of a string ----------

  const QUOTE: Unit := 34
  const BACKSLASH: Unit := 92
  const COMMA: Unit := 44
  const COLON: Unit := 58
  const OPEN_BRACKET: Unit := 91
  const CLOSE_BRACKET: Unit := 93
  const OPEN_BRACE: Unit := 123
  const CLOSE_BRACE: Unit := 125

  predicate Lead(u: Unit) { 0xD800 <= u < 0xDC00 }
  predicate Trail(u: Unit) { 0xDC00 <= u < 0xE000 }

  function HexUnit(n: nat): Unit
    requires n < 16
  {
    if n < 10 then 48 + n else 87 + n
  }

  function UnicodeEscape(u: Unit): Text {
    [BACKSLASH, 117, HexUnit(u / 4096), HexUnit(u / 256 % 16), HexUnit(u / 16 % 16), HexUnit(u % 16)]
  }

  /** The two-character escapes; None for every other unit. */
  function ShortEscape(u: Unit): Option<Unit> {
    if u == 34 then Some(34) else if u == 92 then Some(92)
    else if u == 8 then Some(98) else if u == 9 then Some(116) else if u == 10 then Some(110)
    else if u == 12 then Some(102) else if u == 13 then Some(114)
    else None
  }

  function EscapedUnit(u: Unit): Text {
    if ShortEscape(u).Some? then [BACKSLASH, ShortEscape(u).value]
    else if u < 32 || Lead(u) || Trail(u) then UnicodeEscape(u)
    else [u]
  }

  /** How many units of s are written together: a surrogate pair stays as it is. */
  function Take(s: Text): nat
    requires s != []
  {
    if |s| > 1 && Lead(s[0]) && Trail(s[1]) then 2 else 1
  }

  function Chunk(s: Text): Text
    requires s != []
  {
    if Take(s) == 2 then s[..2] else EscapedUnit(s[0])
  }

  function Escaped(s: Text): Text {
    if s == [] then [] else Chunk(s) + Escaped(s[Take(s)..])
  }

  function Quoted(s: Text): Text {
    [QUOTE] + Escaped(s) + [QUOTE]
  }

  // ---------- Object.keys(value).sort() ----------

  /** String order of sort(): lexicographic on code units. */
  predicate Less(a: Text, b: Text) {
    b != [] && (a == [] || a[0] < b[0] || (a[0] == b[0] && Less(a[1..], b[1..])))
  }

  lemma {:induction false} LessTotal(a: Text, b: Text)
    ensures Less(a, b) || Less(b, a) || a == b
    ensures !(Less(a, b) && Less(b, a)) && !Less(a, a)
  {
    if a != [] && b != [] && a[0] == b[0] {
      LessTotal(a[1..], b[1..]);
      assert a == [a[0]] + a[1..] && b == [b[0]] + b[1..];
    }
    if a != [] { LessTotal(a[1..], a[1..]); }
  }

  lemma {:induction false} LessTransitive(a: Text, b: Text, c: Text)
    requires Less(a, b) && Less(b, c)
    ensures Less(a, c)
  {
    if a != [] && a[0] == b[0] == c[0] {
      LessTransitive(a[1..], b[1..], c[1..]);
    }
  }

  ghost predicate Sorted(ms: seq<Member>) {
    forall i, j | 0 <= i < j < |ms| :: Less(ms[i].key, ms[j].key)
  }

  ghost predicate DistinctKeys(ms: seq<Member>) {
    forall i, j | 0 <= i < j < |ms| :: ms[i].key != ms[j].key
  }

  function Insert(m: Member, ms: seq<Member>): (r: seq<Member>)
    ensures multiset(r) == multiset{m} + multiset(ms)
    ensures MembersSize(r) == Size(m.value) + 1 + MembersSize(ms)
  {
    if ms == [] || Less(m.key, ms[0].key) then [m] + ms
    else
      assert ms == [ms[0]] + ms[1..];
      [ms[0]] + Insert(m, ms[1..])
  }

  function Sort(ms: seq<Member>): (r: seq<Member>)
    ensures multiset(r) == multiset(ms)
    ensures MembersSize(r) == MembersSize(ms)
  {
    if ms == [] then []
    else
      assert ms == [ms[0]] + ms[1..];
      Insert(ms[0], Sort(ms[1..]))
  }

  // ---------- The printers ----------

  /** The number of nodes, which the printers count down. */
  function Size(v: Value): nat
    decreases v, 0
  {
    match v
    case Array(items) => 1 + ItemsSize(items)
    case Object(members) => 1 + MembersSize(members)
    case _ => 1
  }

  function ItemsSize(items: seq<Value>): nat
    decreases items, 0
  {
    if items == [] then 0 else Size(items[0]) + 1 + ItemsSize(items[1..])
  }

  function MembersSize(ms: seq<Member>): nat
    decreases ms, 0
  {
    if ms == [] then 0 else Size(ms[0].value) + 1 + MembersSize(ms[1..])
  }

  const NULL_TEXT: Text := [110, 117, 108, 108]
  const TRUE_TEXT: Text := [116, 114, 117, 101]
  const FALSE_TEXT: Text := [102, 97, 108, 115, 101]

  /** canonicalJson: the server's printer. It throws on a number that is not finite. */
  function Canonical(v: Value): Text
    decreases Size(v)
  {
    match v
    case Undefined => NULL_TEXT
    case Null => NULL_TEXT
    case Bool(b) => if b then TRUE_TEXT else FALSE_TEXT
    case Number(digits) => digits
    case NonFinite => NULL_TEXT
    case String(units) => Quoted(units)
    case Array(items) => [OPEN_BRACKET] + CanonicalItems(items) + [CLOSE_BRACKET]
    case Object(members) => [OPEN_BRACE] + CanonicalMembers(Sort(members)) + [CLOSE_BRACE]
  }

  function CanonicalItems(items: seq<Value>): Text
    decreases ItemsSize(items)
  {
    if items == [] then []
    else if |items| == 1 then Canonical(items[0])
    else Canonical(items[0]) + [COMMA] + CanonicalItems(items[1..])
  }

  function CanonicalMembers(ms: seq<Member>): Text
    decreases MembersSize(ms)
  {
    if ms == [] then []
    else
      var first := Quoted(ms[0].key) + [COLON] + Canonical(ms[0].value);
      if |ms| == 1 then first else first + [COMMA] + CanonicalMembers(ms[1..])
  }

  predicate NumberUnit(u: Unit) {
    48 <= u <= 57 || u == 43 || u == 45 || u == 46 || u == 69 || u == 101
  }

  ghost predicate NumberToken(digits: Text) {
    digits != [] && forall u | u in digits :: NumberUnit(u)
  }

  /** A value of plain shape: printable numbers, and object keys that occur once. */
  ghost predicate Plain(v: Value)
    decreases v
  {
    match v
    case Number(digits) => NumberToken(digits)
    case Array(items) => forall i | 0 <= i < |items| :: Plain(items[i])
    case Object(members) =>
      DistinctKeys(members) && forall i | 0 <= i < |members| :: Plain(members[i].value)
    case _ => true
  }

  /** No undefined and no non-finite number at any depth: what JSON.parse can give. */
  predicate Json(v: Value)
    decreases v
  {
    match v
    case Undefined => false
    case NonFinite => false
    case Array(items) => forall i | 0 <= i < |items| :: Json(items[i])
    case Object(members) => forall i | 0 <= i < |members| :: Json(members[i].value)
    case _ => true
  }

  /** Equal up to the order of object members, at any depth. */
  ghost predicate Equiv(a: Value, b: Value)
    decreases a
  {
    match (a, b)
    case (Array(xs), Array(ys)) => |xs| == |ys| && forall i | 0 <= i < |xs| :: Equiv(xs[i], ys[i])
    case (Object(ms), Object(ns)) =>
      && (forall m | m in ms :: HasEquiv(ns, m))
      && (forall n | n in ns :: HasKey(ms, n.key))
    case _ => a == b
  }

  ghost predicate HasEquiv(ns: seq<Member>, m: Member)
    decreases m
  {
    exists n :: n in ns && n.key == m.key && Equiv(m.value, n.value)
  }

  ghost predicate HasKey(ms: seq<Member>, key: Text) {
    exists m :: m in ms && m.key == key
  }

  // ---------- Sorting ----------

  lemma InsertedAbove(key: Text, m: Member, ms: seq<Member>)
    requires Less(key, m.key) && forall n | n in ms :: Less(key, n.key)
    ensures forall j | 0 <= j < |Insert(m, ms)| :: Less(key, Insert(m, ms)[j].key)
  {
    var r := Insert(m, ms);
    forall j | 0 <= j < |r| ensures Less(key, r[j].key) {
      assert r[j] in multiset(r);
      assert r[j] == m || r[j] in ms;
    }
  }

  lemma {:induction false} InsertSorted(m: Member, ms: seq<Member>)
    requires Sorted(ms) && forall n | n in ms :: n.key != m.key
    ensures Sorted(Insert(m, ms))
  {
    if ms != [] {
      LessTotal(m.key, ms[0].key);
      if Less(m.key, ms[0].key) {
        forall j | 1 <= j < |ms| ensures Less(m.key, ms[j].key) {
          LessTransitive(m.key, ms[0].key, ms[j].key);
        }
      } else {
        InsertSorted(m, ms[1..]);
        InsertedAbove(ms[0].key, m, ms[1..]);
      }
    }
  }

  lemma SameElements(ms: seq<Member>)
    ensures forall m :: m in Sort(ms) <==> m in ms
  {
    forall m ensures m in Sort(ms) <==> m in ms {
      assert m in multiset(Sort(ms)) <==> m in multiset(ms);
    }
  }

  lemma {:induction false} SortSorted(ms: seq<Member>)
    requires DistinctKeys(ms)
    ensures Sorted(Sort(ms))
  {
    if ms != [] {
      SortSorted(ms[1..]);
      SameElements(ms[1..]);
      InsertSorted(ms[0], Sort(ms[1..]));
    }
  }

  /** The first key of a sorted list is below every other one. */
  lemma FirstIsLeast(a: seq<Member>, key: Text)
    requires Sorted(a) && HasKey(a, key)
    ensures key == a[0].key || (Less(a[0].key, key) && HasKey(a[1..], key))
  {
    var m :| m in a && m.key == key;
    var i :| 0 <= i < |a| && a[i] == m;
    if i > 0 { assert a[1..][i - 1] == m; }
  }

  lemma TailKeys(a: seq<Member>, b: seq<Member>)
    requires Sorted(a) && Sorted(b) && a != [] && b != [] && a[0].key == b[0].key
    requires forall m | m in a :: HasKey(b, m.key)
    ensures forall m | m in a[1..] :: HasKey(b[1..], m.key)
  {
    forall m | m in a[1..] ensures HasKey(b[1..], m.key) {
      var i :| 0 <= i < |a[1..]| && a[1..][i] == m;
      assert a[i + 1] == m;
      LessTotal(a[0].key, m.key);
      FirstIsLeast(b, m.key);
    }
  }

  lemma NoKeyNoMember(a: seq<Member>, b: seq<Member>)
    requires forall m | m in a :: HasKey(b, m.key)
    ensures b == [] ==> a == []
  {
    if a != [] {
      assert a[0] in a;
      assert HasKey(b, a[0].key);
    }
  }

  /** A sorted list is determined by its set of keys. */
  lemma {:induction false} SameKeysSameOrder(a: seq<Member>, b: seq<Member>)
    requires Sorted(a) && Sorted(b)
    requires forall m | m in a :: HasKey(b, m.key)
    requires forall n | n in b :: HasKey(a, n.key)
    ensures |a| == |b| && forall i | 0 <= i < |a| :: a[i].key == b[i].key
  {
    if a == [] || b == [] {
      NoKeyNoMember(a, b);
      NoKeyNoMember(b, a);
    } else {
      assert a[0].key == b[0].key by {
        assert a[0] in a && b[0] in b;
        FirstIsLeast(b, a[0].key);
        FirstIsLeast(a, b[0].key);
        LessTotal(a[0].key, b[0].key);
      }
      TailKeys(a, b);
      TailKeys(b, a);
      SameKeysSameOrder(a[1..], b[1..]);
      forall i | 0 <= i < |a| ensures a[i].key == b[i].key {
        if i > 0 { assert a[1..][i - 1].key == b[1..][i - 1].key; }
      }
    }
  }

  lemma {:induction false} MemberSmaller(ms: seq<Member>, m: Member)
    requires m in ms
    ensures Size(m.value) < MembersSize(ms)
  {
    if m != ms[0] { MemberSmaller(ms[1..], m); }
  }

  lemma {:induction false} ItemSmaller(items: seq<Value>, i: nat)
    requires i < |items|
    ensures Size(items[i]) < ItemsSize(items)
  {
    if i > 0 { ItemSmaller(items[1..], i - 1); }
  }

  // ---------- The printer is injective up to member order ----------

  /** What may follow a value in a canonical text: never more of a number. */
  predicate Stop(rest: Text) {
    rest == [] || !NumberUnit(rest[0])
  }

  lemma HexDigits(u: Unit)
    ensures u == 4096 * (u / 4096) + 256 * (u / 256 % 16) + 16 * (u / 16 % 16) + u % 16
  {
    assert u / 256 == 16 * (u / 4096) + u / 256 % 16;
    assert u / 16 == 16 * (u / 256) + u / 16 % 16;
  }

  lemma EscapeInjective(u: Unit, v: Unit)
    requires UnicodeEscape(u) == UnicodeEscape(v)
    ensures u == v
  {
    HexDigits(u);
    HexDigits(v);
    var x, y := UnicodeEscape(u), UnicodeEscape(v);
    HexInjective(u / 4096, v / 4096, x[2], y[2]);
    HexInjective(u / 256 % 16, v / 256 % 16, x[3], y[3]);
    HexInjective(u / 16 % 16, v / 16 % 16, x[4], y[4]);
    HexInjective(u % 16, v % 16, x[5], y[5]);
  }

  lemma HexInjective(m: nat, n: nat, x: Unit, y: Unit)
    requires m < 16 && n < 16 && HexUnit(m) == x && HexUnit(n) == y && x == y
    ensures m == n
  {
  }

  /** The units written for the head of a string tell where they end and which units they stand for. */
  lemma ChunkUnique(s: Text, t: Text, p: Text, q: Text)
    requires s != [] && t != [] && Chunk(s) + p == Chunk(t) + q
    ensures Take(s) == Take(t) && s[..Take(s)] == t[..Take(t)] && p == q
  {
    var x := Chunk(s) + p;
    var y := Chunk(t) + q;
    assert x[0] == y[0];
    assert Take(s) == Take(t) by {
      if Take(s) == 2 { assert x[0] == s[0] && x[1] == s[1]; }
      if Take(t) == 2 { assert y[0] == t[0] && y[1] == t[1]; }
    }
    if Take(s) == 2 {
      assert x[0] == s[0] && x[1] == s[1] && y[0] == t[0] && y[1] == t[1];
    } else {
      assert Chunk(s) == EscapedUnit(s[0]) && Chunk(t) == EscapedUnit(t[0]);
      UnitUnique(s[0], t[0], p, q);
    }
    assert |Chunk(s)| == |Chunk(t)|;
    assert p == x[|Chunk(s)|..] && q == y[|Chunk(t)|..];
  }

  lemma UnitUnique(u: Unit, v: Unit, p: Text, q: Text)
    requires EscapedUnit(u) + p == EscapedUnit(v) + q
    ensures u == v
  {
    var x, y := EscapedUnit(u) + p, EscapedUnit(v) + q;
    assert x[0] == y[0];
    if x[0] == BACKSLASH {
      assert x[1] == y[1];
      if x[1] == 117 {
        assert UnicodeEscape(u) == x[..6] && UnicodeEscape(v) == y[..6];
        EscapeInjective(u, v);
      }
    }
  }

  lemma EscapedSplit(s: Text, rest: Text)
    requires s != []
    ensures Escaped(s) + rest == Chunk(s) + (Escaped(s[Take(s)..]) + rest)
  {
  }

  lemma ChunkHead(s: Text)
    requires s != []
    ensures Chunk(s) != [] && Chunk(s)[0] != QUOTE
  {
  }

  lemma {:induction false} EscapedUnique(s: Text, t: Text, p: Text, q: Text)
    requires Escaped(s) + ([QUOTE] + p) == Escaped(t) + ([QUOTE] + q)
    ensures s == t && p == q
    decreases |s|
  {
    var x, y := Escaped(s) + ([QUOTE] + p), Escaped(t) + ([QUOTE] + q);
    if s == [] || t == [] {
      assert x[0] == y[0];
      if s != [] { ChunkHead(s); }
      if t != [] { ChunkHead(t); }
      assert p == x[1..] && q == y[1..];
    } else {
      var s', t' := s[Take(s)..], t[Take(t)..];
      EscapedSplit(s, [QUOTE] + p);
      EscapedSplit(t, [QUOTE] + q);
      ChunkUnique(s, t, Escaped(s') + ([QUOTE] + p), Escaped(t') + ([QUOTE] + q));
      EscapedUnique(s', t', p, q);
      assert s == s[..Take(s)] + s' && t == t[..Take(t)] + t';
    }
  }

  lemma Enclosed(open: Unit, inner: Text, close: Unit, rest: Text)
    ensures ([open] + inner + [close] + rest)[1..] == inner + ([close] + rest)
  {
  }

  lemma QuotedTail(s: Text, p: Text)
    ensures (Quoted(s) + p)[1..] == Escaped(s) + ([QUOTE] + p)
  {
    Enclosed(QUOTE, Escaped(s), QUOTE, p);
  }

  /** A quoted string ends where it ends: JSON.stringify of strings is a prefix code. */
  lemma QuotedUnique(s: Text, t: Text, p: Text, q: Text)
    requires Quoted(s) + p == Quoted(t) + q
    ensures s == t && p == q
  {
    QuotedTail(s, p);
    QuotedTail(t, q);
    EscapedUnique(s, t, p, q);
  }

  // ---------- A string reads back ----------

  /** The escapes of a JSON string (section 7 of RFC 8259) but \\u. */
  function EscapeFor(u: Unit): Option<Unit> {
    if u == '"' as int || u == '\\' as int || u == '/' as int then Some(u)
    else if u == 'b' as int then Some(8)
    else if u == 'f' as int then Some(12)
    else if u == 'n' as int then Some(10)
    else if u == 'r' as int then Some(13)
    else if u == 't' as int then Some(9)
    else None
  }

  function HexValue(u: Unit): (r: Option<nat>)
    ensures r.Some? ==> r.value < 16
  {
    if '0' as int <= u <= '9' as int then Some(u - '0' as int)
    else if 'a' as int <= u <= 'f' as int then Some(u - 'a' as int + 10)
    else if 'A' as int <= u <= 'F' as int then Some(u - 'A' as int + 10)
    else None
  }

  function FourDigits(a: nat, b: nat, c: nat, d: nat): Unit
    requires a < 16 && b < 16 && c < 16 && d < 16
  {
    4096 * a + 256 * b + 16 * c + d
  }

  /** The unit that begins a JSON string behind its opening quote, and how many units spell it. */
  function FirstUnit(t: Text): (r: Option<(Unit, nat)>)
    requires t != []
    ensures r.Some? ==> 0 < r.value.1 <= |t|
  {
    if t[0] != '\\' as int then (if t[0] < 0x20 || t[0] == QUOTE then None else Some((t[0], 1)))
    else if |t| > 1 && EscapeFor(t[1]).Some? then Some((EscapeFor(t[1]).value, 2))
    else if |t| >= 6 && t[1] == 'u' as int && HexValue(t[2]).Some? && HexValue(t[3]).Some?
            && HexValue(t[4]).Some? && HexValue(t[5]).Some?
    then
      Some((FourDigits(HexValue(t[2]).value, HexValue(t[3]).value, HexValue(t[4]).value, HexValue(t[5]).value), 6))
    else None
  }

  /** JSON.parse of a string behind its opening quote: its units, and what follows the closing quote. */
  function ReadString(t: Text): Option<(Text, Text)>
    decreases |t|
  {
    if t == [] then None
    else if t[0] == QUOTE then Some(([], t[1..]))
    else if FirstUnit(t).None? then None
    else
      var (u, n) := FirstUnit(t).value;
      var others := ReadString(t[n..]);
      if others.None? then None else Some(([u] + others.value.0, others.value.1))
  }

  lemma UnitReads(u: Unit, more: Text)
    ensures var t := EscapedUnit(u) + more; t[0] != QUOTE && FirstUnit(t) == Some((u, |EscapedUnit(u)|))
  {
    var t := EscapedUnit(u) + more;
    if ShortEscape(u).None? && (u < 32 || Lead(u) || Trail(u)) {
      assert t[..6] == UnicodeEscape(u);
      assert t[2] == HexUnit(u / 4096) && t[3] == HexUnit(u / 256 % 16);
      assert t[4] == HexUnit(u / 16 % 16) && t[5] == HexUnit(u % 16);
      HexDigits(u);
    } else {
      assert t[0] == EscapedUnit(u)[0];
    }
  }

  lemma ReadsUnit(t: Text, u: Unit, n: nat, more: Text, s: Text, rest: Text)
    requires t != [] && t[0] != QUOTE && FirstUnit(t) == Some((u, n)) && t[n..] == more
    requires ReadString(more) == Some((s, rest))
    ensures ReadString(t) == Some(([u] + s, rest))
  {
  }

  lemma SurrogateReads(s: Text, k: nat, more: Text)
    requires k < |s| && (Lead(s[k]) || Trail(s[k]))
    ensures var t := [s[k]] + more; t[0] != QUOTE && FirstUnit(t) == Some((s[k], 1)) && t[1..] == more
  {
  }

  lemma PairReadsBack(u: Unit, v: Unit, more: Text, s: Text, rest: Text)
    requires Lead(u) && Trail(v) && ReadString(more) == Some((s, rest))
    ensures ReadString([u, v] + more) == Some(([u, v] + s, rest))
  {
    SurrogateReads([v], 0, more);
    ReadsUnit([v] + more, v, 1, more, s, rest);
    SurrogateReads([u], 0, [v] + more);
    ReadsUnit([u] + ([v] + more), u, 1, [v] + more, [v] + s, rest);
    assert [u, v] + more == [u] + ([v] + more) && [u, v] + s == [u] + ([v] + s);
  }

  lemma UnitReadsBack(u: Unit, more: Text, s: Text, rest: Text)
    requires ReadString(more) == Some((s, rest))
    ensures ReadString(EscapedUnit(u) + more) == Some(([u] + s, rest))
  {
    UnitReads(u, more);
    assert (EscapedUnit(u) + more)[|EscapedUnit(u)|..] == more;
    ReadsUnit(EscapedUnit(u) + more, u, |EscapedUnit(u)|, more, s, rest);
  }

  lemma ChunkReadsBack(t: Text, more: Text, s: Text, rest: Text)
    requires t != [] && ReadString(more) == Some((s, rest))
    ensures ReadString(Chunk(t) + more) == Some((t[..Take(t)] + s, rest))
  {
    if Take(t) == 2 {
      assert t[..2] == [t[0], t[1]];
      PairReadsBack(t[0], t[1], more, s, rest);
    } else {
      assert t[..1] == [t[0]];
      UnitReadsBack(t[0], more, s, rest);
    }
  }

  /** JSON.parse gives back what JSON.stringify has quoted. */
  lemma {:induction false} QuotedReadsBack(s: Text, rest: Text)
    ensures ReadString(Escaped(s) + ([QUOTE] + rest)) == Some((s, rest))
  {
    var end := [QUOTE] + rest;
    if s == [] {
      assert Escaped(s) + end == end && end[1..] == rest;
    } else {
      EscapedSplit(s, end);
      QuotedReadsBack(s[Take(s)..], rest);
      ChunkReadsBack(s, Escaped(s[Take(s)..]) + end, s[Take(s)..], rest);
      assert s[..Take(s)] + s[Take(s)..] == s;
    }
  }

  /** Surrogates stand in pairs. */
  predicate WellFormed(t: Text) {
    if t == [] then true
    else if t[0] / 0x400 == 0x36 then |t| > 1 && t[1] / 0x400 == 0x37 && WellFormed(t[2..])
    else t[0] / 0x400 != 0x37 && WellFormed(t[1..])
  }

  /** Nothing is escaped without need. */
  predicate NeedsNoEscape(u: Unit) {
    u >= 0x20 && u != '"' as int && u != '\\' as int && u / 0x400 != 0x36 && u / 0x400 != 0x37
  }

  lemma PlainBegins(s: Text)
    requires s != [] && NeedsNoEscape(s[0])
    ensures Escaped(s) == [s[0]] + Escaped(s[1..])
  {
  }

  lemma {:induction false} PlainIsKept(s: Text)
    requires forall u | u in s :: NeedsNoEscape(u)
    ensures Escaped(s) == s
  {
    if s != [] {
      assert s[0] in s && forall u | u in s[1..] :: u in s;
      PlainIsKept(s[1..]);
      PlainBegins(s);
      assert s == [s[0]] + s[1..];
    }
  }

  lemma {:induction false} AsciiFirst(a: Text, b: Text)
    requires (forall u | u in a :: u / 0x400 != 0x36 && u / 0x400 != 0x37) && WellFormed(b)
    ensures WellFormed(a + b)
  {
    if a == [] {
      assert a + b == b;
    } else {
      assert forall u | u in a[1..] :: u in a;
      AsciiFirst(a[1..], b);
      assert (a + b)[1..] == a[1..] + b && a[0] in a;
    }
  }

  /** What is written is well formed, even for a text with lone surrogates. */
  lemma {:induction false} EscapedIsWellFormed(s: Text)
    ensures WellFormed(Escaped(s))
  {
    if s != [] {
      var more := Escaped(s[Take(s)..]);
      EscapedIsWellFormed(s[Take(s)..]);
      if Take(s) == 2 {
        assert (Chunk(s) + more)[2..] == more;
      } else {
        AsciiFirst(Chunk(s), more);
      }
    }
  }

  /** The units of a number token are digits, signs, point and exponent. */
  lemma NumberUnitsAre(u: Unit)
    ensures NumberUnit(u) <==> '0' as int <= u <= '9' as int || exists c :: c in "+-.eE" && c as int == u
  {
    var s := "+-.eE";
    assert s[0] in s && s[1] in s && s[2] in s && s[3] in s && s[4] in s;
  }

  lemma TokenNotLonger(d: Text, e: Text, p: Text, q: Text)
    requires NumberToken(e) && Stop(p) && d + p == e + q
    ensures |e| <= |d|
  {
    var x, y := d + p, e + q;
    forall i | 0 <= i < |e| ensures NumberUnit(x[i]) {
      assert y[i] == e[i] && e[i] in e;
    }
    if |p| > 0 { assert x[|d|] == p[0]; }
  }

  lemma TokenUnique(d: Text, e: Text, p: Text, q: Text)
    requires NumberToken(d) && NumberToken(e) && Stop(p) && Stop(q) && d + p == e + q
    ensures d == e && p == q
  {
    TokenNotLonger(d, e, p, q);
    TokenNotLonger(e, d, q, p);
    assert d == (d + p)[..|d|] && e == (e + q)[..|e|] && p == (d + p)[|d|..] && q == (e + q)[|e|..];
  }

  datatype Kind = Word | Numeral | Text_ | List | Record

  function KindOf(v: Value): Kind {
    match v
    case Number(_) => Numeral
    case String(_) => Text_
    case Array(_) => List
    case Object(_) => Record
    case _ => Word
  }

  /** The first unit of a text gives the kind of the value it prints. */
  lemma HeadGivesKind(a: Value, b: Value)
    requires Plain(a) && Plain(b) && Json(a) && Json(b)
    requires Canonical(a)[..1] == Canonical(b)[..1]
    ensures KindOf(a) == KindOf(b) && (KindOf(a) == Word ==> a == b)
  {
    var x, y := Canonical(a)[..1], Canonical(b)[..1];
    assert x[0] == y[0];
    if a.Number? { assert a.digits[0] in a.digits; }
    if b.Number? { assert b.digits[0] in b.digits; }
  }

  lemma NonEmpty(v: Value)
    requires Plain(v)
    ensures Canonical(v) != []
  {
  }

  lemma {:induction false} ValueUnique(a: Value, b: Value, p: Text, q: Text)
    requires Plain(a) && Plain(b) && Json(a) && Json(b)
    requires Canonical(a) + p == Canonical(b) + q && Stop(p) && Stop(q)
    ensures Equiv(a, b) && p == q
    decreases Size(a), 2
  {
    NonEmpty(a);
    NonEmpty(b);
    assert Canonical(a)[..1] == (Canonical(a) + p)[..1] && Canonical(b)[..1] == (Canonical(b) + q)[..1];
    HeadGivesKind(a, b);
    match a
    case Number(d) => TokenUnique(d, b.digits, p, q);
    case String(s) => QuotedUnique(s, b.units, p, q);
    case Array(_) => ArrayUnique(a, b, p, q);
    case Object(_) => ObjectUnique(a, b, p, q);
    case Null => assert p == (Canonical(a) + p)[4..] && q == (Canonical(b) + q)[4..];
    case Bool(_) => assert p == (Canonical(a) + p)[|Canonical(a)|..] && q == (Canonical(b) + q)[|Canonical(b)|..];
    case Undefined =>
    case NonFinite =>
  }

  lemma ArrayUnique(a: Value, b: Value, p: Text, q: Text)
    requires a.Array? && b.Array? && Plain(a) && Plain(b) && Json(a) && Json(b)
    requires Canonical(a) + p == Canonical(b) + q
    ensures Equiv(a, b) && p == q
    decreases Size(a), 1
  {
    Enclosed(OPEN_BRACKET, CanonicalItems(a.items), CLOSE_BRACKET, p);
    Enclosed(OPEN_BRACKET, CanonicalItems(b.items), CLOSE_BRACKET, q);
    ItemsUnique(a.items, b.items, p, q);
  }

  lemma ObjectText(ms: seq<Member>, p: Text)
    ensures (Canonical(Object(ms)) + p)[1..] == CanonicalMembers(Sort(ms)) + ([CLOSE_BRACE] + p)
  {
    Enclosed(OPEN_BRACE, CanonicalMembers(Sort(ms)), CLOSE_BRACE, p);
  }

  lemma JsonMembers(ms: seq<Member>)
    requires Plain(Object(ms)) && Json(Object(ms))
    ensures forall m | m in Sort(ms) :: Plain(m.value) && Json(m.value)
  {
    SameElements(ms);
  }

  lemma ObjectUnique(a: Value, b: Value, p: Text, q: Text)
    requires a.Object? && b.Object? && Plain(a) && Plain(b) && Json(a) && Json(b)
    requires Canonical(a) + p == Canonical(b) + q
    ensures Equiv(a, b) && p == q
    decreases Size(a), 1
  {
    ObjectText(a.members, p);
    ObjectText(b.members, q);
    JsonMembers(a.members);
    JsonMembers(b.members);
    MembersUnique(Sort(a.members), Sort(b.members), p, q);
    PairedIsEquiv(a.members, b.members);
  }

  /** What follows the first item: the end, or a comma and the other items. */
  function ItemsRest(xs: seq<Value>, end: Text): Text
    requires xs != []
  {
    if |xs| == 1 then end else [COMMA] + (CanonicalItems(xs[1..]) + end)
  }

  lemma Regroup(a: Text, b: Text, c: Text, d: Text)
    ensures a + b + c + d == a + (b + (c + d))
  {
  }

  lemma ItemsSplit(xs: seq<Value>, end: Text)
    requires xs != []
    ensures CanonicalItems(xs) + end == Canonical(xs[0]) + ItemsRest(xs, end)
  {
    if |xs| > 1 {
      Regroup(Canonical(xs[0]), [COMMA], CanonicalItems(xs[1..]), end);
    }
  }

  lemma {:induction false} ItemsUnique(xs: seq<Value>, ys: seq<Value>, p: Text, q: Text)
    requires forall i | 0 <= i < |xs| :: Plain(xs[i]) && Json(xs[i])
    requires forall i | 0 <= i < |ys| :: Plain(ys[i]) && Json(ys[i])
    requires CanonicalItems(xs) + ([CLOSE_BRACKET] + p) == CanonicalItems(ys) + ([CLOSE_BRACKET] + q)
    ensures |xs| == |ys| && p == q && forall i | 0 <= i < |xs| :: Equiv(xs[i], ys[i])
    decreases ItemsSize(xs), 0
  {
    var xe, ye := [CLOSE_BRACKET] + p, [CLOSE_BRACKET] + q;
    if xs == [] || ys == [] {
      assert (CanonicalItems(xs) + xe)[0] == (CanonicalItems(ys) + ye)[0];
      if xs != [] { ItemHead(xs[0]); ItemsSplit(xs, xe); }
      if ys != [] { ItemHead(ys[0]); ItemsSplit(ys, ye); }
      assert [] + xe == xe && [] + ye == ye;
      assert p == xe[1..] && q == ye[1..];
    } else {
      ItemsSplit(xs, xe);
      ItemsSplit(ys, ye);
      var xr, yr := ItemsRest(xs, xe), ItemsRest(ys, ye);
      ValueUnique(xs[0], ys[0], xr, yr);
      assert xr[0] == yr[0] && xr[1..] == yr[1..];
      if |xs| == 1 {
        assert p == xe[1..] && q == ye[1..];
      } else {
        assert xr[1..] == CanonicalItems(xs[1..]) + xe && yr[1..] == CanonicalItems(ys[1..]) + ye;
        ItemsUnique(xs[1..], ys[1..], p, q);
        forall i | 0 <= i < |xs| ensures Equiv(xs[i], ys[i]) {
          if i > 0 { assert Equiv(xs[1..][i - 1], ys[1..][i - 1]); }
        }
      }
    }
  }

  lemma ItemHead(v: Value)
    requires Plain(v) && Json(v)
    ensures Canonical(v) != [] && Canonical(v)[0] != CLOSE_BRACKET
  {
    if v.Number? { assert v.digits[0] in v.digits; }
  }

  /** Two member lists that agree place by place, in keys and up to order in values. */
  ghost predicate Paired(ms: seq<Member>, ns: seq<Member>) {
    |ms| == |ns| && forall i | 0 <= i < |ms| :: ms[i].key == ns[i].key && Equiv(ms[i].value, ns[i].value)
  }

  function MembersRest(ms: seq<Member>, end: Text): Text
    requires ms != []
  {
    if |ms| == 1 then end else [COMMA] + (CanonicalMembers(ms[1..]) + end)
  }

  lemma MembersSplit(ms: seq<Member>, end: Text)
    requires ms != []
    ensures CanonicalMembers(ms) + end
         == Quoted(ms[0].key) + ([COLON] + (Canonical(ms[0].value) + MembersRest(ms, end)))
  {
    var key, value := Quoted(ms[0].key), Canonical(ms[0].value);
    Regroup(key, [COLON], value, MembersRest(ms, end));
    if |ms| > 1 {
      Regroup(key + [COLON] + value, [COMMA], CanonicalMembers(ms[1..]), end);
    }
  }

  lemma {:induction false} MembersUnique(ms: seq<Member>, ns: seq<Member>, p: Text, q: Text)
    requires forall m | m in ms :: Plain(m.value) && Json(m.value)
    requires forall n | n in ns :: Plain(n.value) && Json(n.value)
    requires CanonicalMembers(ms) + ([CLOSE_BRACE] + p) == CanonicalMembers(ns) + ([CLOSE_BRACE] + q)
    ensures p == q && Paired(ms, ns)
    decreases MembersSize(ms), 0
  {
    var xe, ye := [CLOSE_BRACE] + p, [CLOSE_BRACE] + q;
    if ms != [] { MembersSplit(ms, xe); }
    if ns != [] { MembersSplit(ns, ye); }
    if ms == [] || ns == [] {
      assert (CanonicalMembers(ms) + xe)[0] == (CanonicalMembers(ns) + ye)[0];
      assert [] + xe == xe && [] + ye == ye;
      assert p == xe[1..] && q == ye[1..];
    } else {
      assert ms[0] in ms && ns[0] in ns;
      var xr, yr := MembersRest(ms, xe), MembersRest(ns, ye);
      var xv, yv := Canonical(ms[0].value) + xr, Canonical(ns[0].value) + yr;
      QuotedUnique(ms[0].key, ns[0].key, [COLON] + xv, [COLON] + yv);
      assert xv == ([COLON] + xv)[1..] == ([COLON] + yv)[1..] == yv;
      ValueUnique(ms[0].value, ns[0].value, xr, yr);
      assert xr[0] == yr[0] && xr[1..] == yr[1..];
      if |ms| == 1 {
        assert p == xe[1..] && q == ye[1..];
      } else {
        assert xr[1..] == CanonicalMembers(ms[1..]) + xe && yr[1..] == CanonicalMembers(ns[1..]) + ye;
        MembersUnique(ms[1..], ns[1..], p, q);
        PairedCons(ms, ns);
      }
    }
  }

  lemma PairedCons(ms: seq<Member>, ns: seq<Member>)
    requires ms != [] && ns != [] && ms[0].key == ns[0].key && Equiv(ms[0].value, ns[0].value)
    requires Paired(ms[1..], ns[1..])
    ensures Paired(ms, ns)
  {
    forall i | 0 <= i < |ms| ensures ms[i].key == ns[i].key && Equiv(ms[i].value, ns[i].value) {
      if i > 0 { assert ms[i] == ms[1..][i - 1] && ns[i] == ns[1..][i - 1]; }
    }
  }

  lemma PairedIsEquiv(ms: seq<Member>, ns: seq<Member>)
    requires Paired(Sort(ms), Sort(ns))
    ensures Equiv(Object(ms), Object(ns))
  {
    var a, b := Sort(ms), Sort(ns);
    SameElements(ms);
    SameElements(ns);
    forall m | m in ms ensures HasEquiv(ns, m) {
      var k :| 0 <= k < |a| && a[k] == m;
      assert b[k] in ns;
    }
    forall n | n in ns ensures HasKey(ms, n.key) {
      var k :| 0 <= k < |b| && b[k] == n;
      assert a[k] in ms;
    }
  }

  // ---------- Member order does not change the text ----------

  lemma {:induction false} EquivSameText(a: Value, b: Value)
    requires Plain(a) && Plain(b) && Equiv(a, b)
    ensures Canonical(a) == Canonical(b)
    decreases Size(a), 1
  {
    match a
    case Array(items) =>
      forall i | 0 <= i < |items| ensures Canonical(items[i]) == Canonical(b.items[i]) {
        ItemSmaller(items, i);
        EquivSameText(items[i], b.items[i]);
      }
      SameItems(items, b.items);
    case Object(members) => EquivObjectsSameText(members, b.members);
    case _ =>
  }

  lemma EquivObjectsSameText(ms: seq<Member>, ns: seq<Member>)
    requires Plain(Object(ms)) && Plain(Object(ns)) && Equiv(Object(ms), Object(ns))
    ensures Canonical(Object(ms)) == Canonical(Object(ns))
    decreases Size(Object(ms)), 0
  {
    var a, b := Sort(ms), Sort(ns);
    SortedAlike(ms, ns);
    SameElements(ms);
    SameElements(ns);
    forall i | 0 <= i < |a| ensures Canonical(a[i].value) == Canonical(b[i].value) {
      assert a[i] in ms && b[i] in ns;
      MemberSmaller(ms, a[i]);
      EquivSameText(a[i].value, b[i].value);
    }
    SameMembers(a, b);
  }

  lemma {:induction false} SameItems(xs: seq<Value>, ys: seq<Value>)
    requires |xs| == |ys| && forall i | 0 <= i < |xs| :: Canonical(xs[i]) == Canonical(ys[i])
    ensures CanonicalItems(xs) == CanonicalItems(ys)
  {
    if xs != [] { SameItems(xs[1..], ys[1..]); }
  }

  lemma {:induction false} SameMembers(ms: seq<Member>, ns: seq<Member>)
    requires |ms| == |ns|
    requires forall i | 0 <= i < |ms| :: ms[i].key == ns[i].key && Canonical(ms[i].value) == Canonical(ns[i].value)
    ensures CanonicalMembers(ms) == CanonicalMembers(ns)
  {
    if ms != [] { SameMembers(ms[1..], ns[1..]); }
  }

  lemma SortedHasSame(ms: seq<Member>, ns: seq<Member>)
    requires Equiv(Object(ms), Object(ns))
    ensures forall m | m in Sort(ms) :: HasEquiv(Sort(ns), m) && HasKey(Sort(ns), m.key)
    ensures forall n | n in Sort(ns) :: HasKey(Sort(ms), n.key)
  {
    SameElements(ms);
    SameElements(ns);
    forall m | m in Sort(ms) ensures HasEquiv(Sort(ns), m) && HasKey(Sort(ns), m.key) {
      assert HasEquiv(ns, m);
      var n :| n in ns && n.key == m.key && Equiv(m.value, n.value);
      assert n in Sort(ns);
    }
    forall n | n in Sort(ns) ensures HasKey(Sort(ms), n.key) {
      assert HasKey(ms, n.key);
      var m :| m in ms && m.key == n.key;
      assert m in Sort(ms);
    }
  }

  lemma SortedHasOne(b: seq<Member>, i: nat, m: Member)
    requires Sorted(b) && i < |b| && b[i].key == m.key && HasEquiv(b, m)
    ensures Equiv(m.value, b[i].value)
  {
    var n :| n in b && n.key == m.key && Equiv(m.value, n.value);
    var j :| 0 <= j < |b| && b[j] == n;
    LessTotal(b[i].key, b[j].key);
  }

  /** Sorting brings equivalent members of two objects to the same places. */
  lemma SortedAlike(ms: seq<Member>, ns: seq<Member>)
    requires DistinctKeys(ms) && DistinctKeys(ns) && Equiv(Object(ms), Object(ns))
    ensures Paired(Sort(ms), Sort(ns))
  {
    var a, b := Sort(ms), Sort(ns);
    SortSorted(ms);
    SortSorted(ns);
    SortedHasSame(ms, ns);
    SameKeysSameOrder(a, b);
    forall i | 0 <= i < |a| ensures Equiv(a[i].value, b[i].value) {
      assert a[i] in a;
      SortedHasOne(b, i, a[i]);
    }
  }

  /** Two JSON values have the same canonical text exactly when they are equal up to object member order. */
  lemma CanonicalIdentifies(a: Value, b: Value)
    requires Plain(a) && Plain(b) && Json(a) && Json(b)
    ensures Canonical(a) == Canonical(b) <==> Equiv(a, b)
  {
    if Equiv(a, b) { EquivSameText(a, b); }
    if Canonical(a) == Canonical(b) { ValueUnique(a, b, [], []); }
  }

  /** The text canonicalJson hashes; None where it throws on a number that is not finite. */
  function ServerText(v: Value): Option<Text> {
    if Finite(v) then Some(Canonical(v)) else None
  }

  predicate Finite(v: Value)
    decreases v
  {
    match v
    case NonFinite => false
    case Array(items) => forall i | 0 <= i < |items| :: Finite(items[i])
    case Object(members) => forall i | 0 <= i < |members| :: Finite(members[i].value)
    case _ => true
  }

  lemma {:induction false} JsonIsFinite(v: Value)
    requires Json(v)
    ensures Finite(v)
    decreases v
  {
    match v
    case Array(items) => forall i | 0 <= i < |items| ensures Finite(items[i]) { JsonIsFinite(items[i]); }
    case Object(ms) => forall i | 0 <= i < |ms| ensures Finite(ms[i].value) { JsonIsFinite(ms[i].value); }
    case _ =>
  }

  /** The value itself, or one at some depth below it. */
  ghost predicate Within(w: Value, v: Value)
    decreases v
  {
    || w == v
    || match v
       case Array(items) => exists x :: x in items && Within(w, x)
       case Object(members) => exists m :: m in members && Within(w, m.value)
       case _ => false
  }

  lemma {:induction false} FiniteIs(v: Value)
    ensures Finite(v) <==> !Within(NonFinite, v)
    decreases v
  {
    match v
    case Array(items) => forall i | 0 <= i < |items| ensures Finite(items[i]) <==> !Within(NonFinite, items[i]) {
      FiniteIs(items[i]);
    }
    case Object(ms) => forall i | 0 <= i < |ms| ensures Finite(ms[i].value) <==> !Within(NonFinite, ms[i].value) {
      FiniteIs(ms[i].value);
    }
    case _ =>
  }

  /** The server refuses a value exactly if a number at some depth is not finite. */
  lemma RefusedExactly(v: Value)
    ensures ServerText(v).None? <==> Within(NonFinite, v)
  {
    FiniteIs(v);
  }

  // ---------- Request identity ----------

  const COMMAND_KEY: Text := [99, 111, 109, 109, 97, 110, 100]
  const PAYLOAD_KEY: Text := [112, 97, 121, 108, 111, 97, 100]

  /** The object canonicalRequestDigest hashes. */
  function RequestValue(command: Text, payload: Value): Value {
    Object([Member(COMMAND_KEY, String(command)), Member(PAYLOAD_KEY, payload)])
  }

  /** A list has an equivalent of a member exactly if its own member of that key is one. */
  lemma HasEquivAt(ns: seq<Member>, k: nat, m: Member)
    requires DistinctKeys(ns) && k < |ns| && ns[k].key == m.key
    ensures HasEquiv(ns, m) <==> Equiv(m.value, ns[k].value)
  {
    assert ns[k] in ns;
    if HasEquiv(ns, m) {
      var n :| n in ns && n.key == m.key && Equiv(m.value, n.value);
      var j :| 0 <= j < |ns| && ns[j] == n;
      assert j == k;
    }
  }

  lemma HasBothKeys(ns: seq<Member>, ms: seq<Member>)
    requires |ns| == |ms| == 2 && ms[0].key == ns[0].key && ms[1].key == ns[1].key
    ensures forall n | n in ns :: HasKey(ms, n.key)
  {
    assert ms[0] in ms && ms[1] in ms;
  }

  lemma TwoMembersEquiv(key: Text, other: Text, a: Value, v: Value, b: Value, w: Value)
    requires key != other
    ensures Equiv(Object([Member(key, a), Member(other, v)]), Object([Member(key, b), Member(other, w)]))
       <==> Equiv(a, b) && Equiv(v, w)
  {
    var ms, ns := [Member(key, a), Member(other, v)], [Member(key, b), Member(other, w)];
    HasBothKeys(ns, ms);
    HasEquivAt(ns, 0, ms[0]);
    HasEquivAt(ns, 1, ms[1]);
    assert ms[0] in ms && ms[1] in ms;
  }

  lemma RequestEquiv(c: Text, v: Value, d: Text, w: Value)
    ensures Equiv(RequestValue(c, v), RequestValue(d, w)) <==> c == d && Equiv(v, w)
  {
    assert COMMAND_KEY[1] != PAYLOAD_KEY[1];
    TwoMembersEquiv(COMMAND_KEY, PAYLOAD_KEY, String(c), v, String(d), w);
  }

  lemma RequestIsJson(command: Text, payload: Value)
    requires Plain(payload) && Json(payload)
    ensures Plain(RequestValue(command, payload)) && Json(RequestValue(command, payload))
    ensures ServerText(RequestValue(command, payload)) == Some(Canonical(RequestValue(command, payload)))
  {
    assert COMMAND_KEY[1] != PAYLOAD_KEY[1];
    JsonIsFinite(RequestValue(command, payload));
  }

  /** Two requests hash the same text exactly when they name the same command and equivalent payloads. */
  lemma RequestTextIdentifies(c: Text, v: Value, d: Text, w: Value)
    requires Plain(v) && Plain(w) && Json(v) && Json(w)
    ensures ServerText(RequestValue(c, v)).Some? && ServerText(RequestValue(d, w)).Some?
    ensures ServerText(RequestValue(c, v)) == ServerText(RequestValue(d, w)) <==> c == d && Equiv(v, w)
  {
    RequestIsJson(c, v);
    RequestIsJson(d, w);
    CanonicalIdentifies(RequestValue(c, v), RequestValue(d, w));
    RequestEquiv(c, v, d, w);
  }

  // ---------- The browser's copy of the printer ----------

  /** Object.keys(record).filter((key) => record[key] !== undefined) with their values. */
  function Defined(ms: seq<Member>): (r: seq<Member>)
    ensures MembersSize(r) <= MembersSize(ms)
    ensures forall m :: m in r <==> m in ms && !m.value.Undefined?
  {
    if ms == [] then []
    else if ms[0].value.Undefined? then Defined(ms[1..])
    else [ms[0]] + Defined(ms[1..])
  }

  /** canonical of mutation-client.ts. */
  function ClientText(v: Value): Text
    decreases Size(v)
  {
    match v
    case Undefined => NULL_TEXT
    case Null => NULL_TEXT
    case Bool(b) => if b then TRUE_TEXT else FALSE_TEXT
    case Number(digits) => digits
    case NonFinite => NULL_TEXT
    case String(units) => Quoted(units)
    case Array(items) => [OPEN_BRACKET] + ClientItems(items) + [CLOSE_BRACKET]
    case Object(members) => [OPEN_BRACE] + ClientMembers(Sort(Defined(members))) + [CLOSE_BRACE]
  }

  function ClientItems(items: seq<Value>): Text
    decreases ItemsSize(items)
  {
    if items == [] then []
    else if |items| == 1 then ClientText(items[0])
    else ClientText(items[0]) + [COMMA] + ClientItems(items[1..])
  }

  function ClientMembers(ms: seq<Member>): Text
    decreases MembersSize(ms)
  {
    if ms == [] then []
    else
      var first := Quoted(ms[0].key) + [COLON] + ClientText(ms[0].value);
      if |ms| == 1 then first else first + [COMMA] + ClientMembers(ms[1..])
  }

  /** JSON.parse(JSON.stringify(value)), up to the order in which the parser enumerates members. */
  function Transported(v: Value): Value
    decreases Size(v)
  {
    match v
    case Undefined => Null
    case NonFinite => Null
    case Array(items) => Array(TransportedItems(items))
    case Object(members) => Object(TransportedMembers(Defined(members)))
    case _ => v
  }

  function TransportedItems(items: seq<Value>): (r: seq<Value>)
    ensures |r| == |items|
    ensures forall i | 0 <= i < |r| :: ItemsSize(items) > Size(items[i]) && r[i] == Transported(items[i])
    decreases ItemsSize(items)
  {
    if items == [] then [] else [Transported(items[0])] + TransportedItems(items[1..])
  }

  function TransportedMembers(ms: seq<Member>): (r: seq<Member>)
    ensures |r| == |ms|
    ensures forall i | 0 <= i < |r| :: MembersSize(ms) > Size(ms[i].value)
                                       && r[i] == Member(ms[i].key, Transported(ms[i].value))
    decreases MembersSize(ms)
  {
    if ms == [] then [] else [Member(ms[0].key, Transported(ms[0].value))] + TransportedMembers(ms[1..])
  }

  lemma {:induction false} DefinedDistinct(ms: seq<Member>)
    requires DistinctKeys(ms)
    ensures DistinctKeys(Defined(ms))
  {
    if ms != [] { DefinedDistinct(ms[1..]); }
  }

  /** What arrives at the server is JSON of plain shape. */
  lemma {:induction false} TransportedIsJson(v: Value)
    requires Plain(v)
    ensures Plain(Transported(v)) && Json(Transported(v))
    decreases Size(v)
  {
    match v
    case Array(items) =>
      forall i | 0 <= i < |items| ensures Plain(Transported(items[i])) && Json(Transported(items[i])) {
        ItemSmaller(items, i);
        TransportedIsJson(items[i]);
      }
    case Object(members) =>
      var ms := Defined(members);
      DefinedDistinct(members);
      forall i | 0 <= i < |ms| ensures Plain(Transported(ms[i].value)) && Json(Transported(ms[i].value)) {
        assert ms[i] in ms;
        MemberSmaller(ms, ms[i]);
        TransportedIsJson(ms[i].value);
      }
    case _ =>
  }

  /** Sorting looks at keys only, so it commutes with transport. */
  lemma {:induction false} InsertTransported(m: Member, ms: seq<Member>)
    ensures TransportedMembers(Insert(m, ms))
         == Insert(Member(m.key, Transported(m.value)), TransportedMembers(ms))
  {
    if ms != [] && !Less(m.key, ms[0].key) {
      InsertTransported(m, ms[1..]);
    }
  }

  lemma {:induction false} SortTransported(ms: seq<Member>)
    ensures TransportedMembers(Sort(ms)) == Sort(TransportedMembers(ms))
  {
    if ms != [] {
      SortTransported(ms[1..]);
      InsertTransported(ms[0], Sort(ms[1..]));
    }
  }

  lemma {:induction false} TransportKeepsText(v: Value)
    requires Plain(v)
    ensures Canonical(Transported(v)) == ClientText(v)
    decreases Size(v), 1
  {
    match v
    case Array(items) => TransportKeepsItems(items);
    case Object(members) =>
      var ms := Defined(members);
      SortTransported(ms);
      SameElements(ms);
      TransportKeepsMembers(Sort(ms));
    case _ =>
  }

  lemma {:induction false} TransportKeepsItems(items: seq<Value>)
    requires forall i | 0 <= i < |items| :: Plain(items[i])
    ensures CanonicalItems(TransportedItems(items)) == ClientItems(items)
    decreases ItemsSize(items), 0
  {
    if items != [] {
      TransportKeepsText(items[0]);
      TransportKeepsItems(items[1..]);
      assert TransportedItems(items)[1..] == TransportedItems(items[1..]);
    }
  }

  lemma {:induction false} TransportKeepsMembers(ms: seq<Member>)
    requires forall m | m in ms :: Plain(m.value)
    ensures CanonicalMembers(TransportedMembers(ms)) == ClientMembers(ms)
    decreases MembersSize(ms), 0
  {
    if ms != [] {
      assert ms[0] in ms;
      TransportKeepsText(ms[0].value);
      TransportKeepsMembers(ms[1..]);
      assert TransportedMembers(ms)[1..] == TransportedMembers(ms[1..]);
    }
  }

  /**
  The text the browser hashes is the text the server hashes for whatever JSON.parse makes
  of the transported value, in whatever member order.
  */
  lemma ClientMatchesServer(v: Value, received: Value)
    requires Plain(v) && Plain(received) && Json(received) && Equiv(received, Transported(v))
    ensures ServerText(received) == Some(ClientText(v))
  {
    TransportedIsJson(v);
    JsonIsFinite(received);
    EquivSameText(received, Transported(v));
    TransportKeepsText(v);
  }
}
