/**
Cell references of apps/api/src/infrastructure/safe-xlsx.ts: columns in bijective base 26 over
A to Z (ECMA-376 Part 1, section 18.18.7), followed by the row in decimal.
*/
module ColumnReference {

  predicate IsLetter(c: char) { 'A' <= c <= 'Z' }

  predicate AllLetters(s: string) {
    forall i | 0 <= i < |s| :: IsLetter(s[i])
  }

  function Letter(n: nat): (c: char)
    requires n < 26
    ensures IsLetter(c)
  {
    (65 + n) as char
  }

  function Rank(c: char): nat
    requires IsLetter(c)
  {
    c as int - 65
  }

  /** The column text of a value counted from 1; zero has the empty text. */
  function Letters(value: nat): (s: string)
    ensures AllLetters(s)
    ensures s == "" <==> value == 0
  {
    if value == 0 then "" else Letters((value - 1) / 26) + [Letter((value - 1) % 26)]
  }

  function ColumnText(columnIndex: nat): string {
    Letters(columnIndex + 1)
  }

  /** columnReference. */
  method MakeColumnReference(columnIndex: nat) returns (result: string)
    ensures result == ColumnText(columnIndex)
  {
    var value: nat := columnIndex + 1;
    result := "";
    while value > 0
      invariant ColumnText(columnIndex) == Letters(value) + result
    {
      var remainder := (value - 1) % 26;
      assert Letters((value - 1) / 26) + [Letter(remainder)] + result
          == Letters((value - 1) / 26) + ([Letter(remainder)] + result);
      result := [Letter(remainder)] + result;
      value := (value - 1) / 26;
    }
  }

  // ---------- The decoder ----------

  function Value(s: string): nat
    requires AllLetters(s)
  {
    if s == "" then 0 else 26 * Value(s[..|s| - 1]) + Rank(s[|s| - 1]) + 1
  }

  lemma {:induction false} ValueOfLetters(value: nat)
    ensures Value(Letters(value)) == value
  {
    if value > 0 {
      var front := Letters((value - 1) / 26);
      ValueOfLetters((value - 1) / 26);
      assert Letters(value)[..|front|] == front;
    }
  }

  lemma {:induction false} LettersOfValue(s: string)
    requires AllLetters(s)
    ensures Letters(Value(s)) == s
  {
    if s != "" {
      var front := s[..|s| - 1];
      LettersOfValue(front);
      assert (Value(s) - 1) / 26 == Value(front) && (Value(s) - 1) % 26 == Rank(s[|s| - 1]);
      assert s == front + [s[|s| - 1]];
    }
  }

  /** Every non-empty word over A to Z, and no other text, names a column. */
  lemma ColumnsAreAllWords(s: string)
    ensures (exists columnIndex: nat :: ColumnText(columnIndex) == s) <==> s != "" && AllLetters(s)
  {
    if s != "" && AllLetters(s) {
      LettersOfValue(s);
      var columnIndex: nat := Value(s) - 1;
      assert ColumnText(columnIndex) == s;
    }
  }

  /** ... and it names only one. */
  lemma ColumnsDiffer(i: nat, j: nat)
    requires ColumnText(i) == ColumnText(j)
    ensures i == j
  {
    ValueOfLetters(i + 1);
    ValueOfLetters(j + 1);
  }

  // ---------- The order of columns ----------

  predicate DiffersFirstAt(s: string, t: string, k: nat) {
    k < |s| == |t| && s[..k] == t[..k] && s[k] < t[k]
  }

  /** Shorter words first, words of one length alphabetically. */
  ghost predicate Shortlex(s: string, t: string) {
    |s| < |t| || exists k: nat :: DiffersFirstAt(s, t, k)
  }

  lemma {:induction false} SmallerIsEarlier(v: nat, w: nat)
    requires v < w
    ensures Shortlex(Letters(v), Letters(w))
  {
    if v > 0 {
      var a, b := (v - 1) / 26, (w - 1) / 26;
      var s, t := Letters(v), Letters(w);
      assert s[..|s| - 1] == Letters(a) && t[..|t| - 1] == Letters(b);
      if a < b {
        SmallerIsEarlier(a, b);
        if |s| == |t| {
          var k: nat :| DiffersFirstAt(Letters(a), Letters(b), k);
          assert s[..k] == Letters(a)[..k] && t[..k] == Letters(b)[..k];
          assert DiffersFirstAt(s, t, k);
        }
      } else {
        assert DiffersFirstAt(s, t, |s| - 1);
      }
    }
  }

  lemma ShortlexIsStrict(s: string, t: string)
    requires Shortlex(s, t)
    ensures s != t && !Shortlex(t, s)
  {
    if |s| == |t| {
      var k: nat :| DiffersFirstAt(s, t, k);
      if j: nat :| DiffersFirstAt(t, s, j) {
        assert j < k ==> s[..k][j] == t[..k][j];
        assert k < j ==> s[..j][k] == t[..j][k];
      }
    }
  }

  /** Columns are in shortlex order. */
  lemma ColumnsAreInOrder(i: nat, j: nat)
    ensures i < j <==> Shortlex(ColumnText(i), ColumnText(j))
  {
    if i < j {
      SmallerIsEarlier(i + 1, j + 1);
    } else if j < i {
      SmallerIsEarlier(j + 1, i + 1);
      ShortlexIsStrict(ColumnText(j), ColumnText(i));
    } else if Shortlex(ColumnText(i), ColumnText(j)) {
      ShortlexIsStrict(ColumnText(i), ColumnText(j));
    }
  }

  // ---------- Cell references ----------

  predicate IsDigit(c: char) { '0' <= c <= '9' }

  function Decimal(n: nat): (s: string)
    ensures s != "" && forall i | 0 <= i < |s| :: IsDigit(s[i])
  {
    if n < 10 then [(48 + n) as char] else Decimal(n / 10) + [(48 + n % 10) as char]
  }

  function Digit(c: char): nat
    requires IsDigit(c)
  {
    c as int - 48
  }

  function DecimalValue(s: string): nat
    requires forall i | 0 <= i < |s| :: IsDigit(s[i])
  {
    if s == "" then 0 else 10 * DecimalValue(s[..|s| - 1]) + Digit(s[|s| - 1])
  }

  lemma {:induction false} DecimalReadsBack(n: nat)
    ensures DecimalValue(Decimal(n)) == n
  {
    var s := Decimal(n);
    if n < 10 {
      assert s[..0] == "";
    } else {
      DecimalReadsBack(n / 10);
      assert s[..|s| - 1] == Decimal(n / 10);
    }
  }

  function CellReference(columnIndex: nat, row: nat): string {
    ColumnText(columnIndex) + Decimal(row)
  }

  /** Where the letters of a reference end is where its digits begin. */
  lemma SplitIsUnique(a: string, b: string, x: string, y: string)
    requires AllLetters(a) && AllLetters(b) && x != "" && y != ""
    requires (forall i | 0 <= i < |x| :: IsDigit(x[i])) && (forall i | 0 <= i < |y| :: IsDigit(y[i]))
    requires a + x == b + y
    ensures a == b && x == y
  {
    var text := a + x;
    assert text[|a|] == x[0] && forall i | 0 <= i < |a| :: text[i] == a[i];
    assert text[|b|] == (b + y)[|b|] == y[0] && forall i | 0 <= i < |b| :: text[i] == b[i];
    assert a == text[..|a|] && b == text[..|b|] && x == text[|a|..] && y == text[|b|..];
  }

  /** No two cells share a reference. */
  lemma ReferencesDiffer(c: nat, row: nat, d: nat, other: nat)
    requires CellReference(c, row) == CellReference(d, other)
    ensures c == d && row == other
  {
    SplitIsUnique(ColumnText(c), ColumnText(d), Decimal(row), Decimal(other));
    ColumnsDiffer(c, d);
    DecimalReadsBack(row);
    DecimalReadsBack(other);
  }
}
