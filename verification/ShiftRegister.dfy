/**
Feedback shift registers over any words that can be added without carry: the algebra behind
computing a CRC a byte at a time.
*/
module ShiftRegister {

  /**
  Words with carry-free addition. odd and halve read and drop the lowest bit, top reads the
  highest one, and poly is fed back whenever a 1 is shifted out.
  */
  datatype Words<!T(!new)> = Words(
    add: (T, T) -> T,
    halve: T -> T,
    odd: T -> bool,
    top: T -> bool,
    zero: T,
    poly: T)
  {
    ghost predicate IsGroup() {
      && (forall x, y :: add(x, y) == add(y, x))
      && (forall x, y, z :: add(add(x, y), z) == add(x, add(y, z)))
      && (forall x, y :: add(x, add(x, y)) == y)
      && (forall x :: add(x, zero) == x)
    }

    ghost predicate HalvesAdd() {
      forall x, y :: halve(add(x, y)) == add(halve(x), halve(y))
    }

    ghost predicate OddsAdd() {
      forall x, y :: odd(add(x, y)) == (odd(x) != odd(y))
    }

    ghost predicate IsLinear() {
      HalvesAdd() && OddsAdd()
    }

    /** The dropped bit and the half determine a word, and poly leaves a mark no half has. */
    ghost predicate IsMarked() {
      && (forall x, y :: halve(x) == halve(y) && odd(x) == odd(y) ==> x == y)
      && (forall x, y :: top(add(x, y)) == (top(x) != top(y)))
      && (forall x :: !top(halve(x)))
      && top(poly)
    }

    function Round(v: T): T {
      if odd(v) then add(poly, halve(v)) else halve(v)
    }

    function Rounds(v: T, n: nat): T
      decreases n
    {
      if n == 0 then v else Rounds(Round(v), n - 1)
    }

    function Halves(v: T, n: nat): T
      decreases n
    {
      if n == 0 then v else Halves(halve(v), n - 1)
    }

    /** Shift the lowest bit of the input into the register v. */
    function ShiftBit(v: T, input: T): T {
      if odd(v) != odd(input) then add(poly, halve(v)) else halve(v)
    }

    /** Shift in the n lowest bits of the input, the lowest first. */
    function Shifts(v: T, input: T, n: nat): T
      decreases n
    {
      if n == 0 then v else Shifts(ShiftBit(v, input), halve(input), n - 1)
    }

    lemma RoundIsLinear(x: T, y: T)
      requires IsGroup() && IsLinear()
      ensures Round(add(x, y)) == add(Round(x), Round(y))
    {
      var hx, hy := halve(x), halve(y);
      assert halve(add(x, y)) == add(hx, hy);
      if odd(x) && odd(y) {
        assert add(add(poly, hx), add(poly, hy)) == add(add(hx, poly), add(poly, hy))
            == add(hx, add(poly, add(poly, hy)));
      } else if odd(x) {
        assert add(add(poly, hx), hy) == add(poly, add(hx, hy));
      } else if odd(y) {
        assert add(hx, add(poly, hy)) == add(add(hx, poly), hy) == add(add(poly, hx), hy) == add(poly, add(hx, hy));
      }
    }

    lemma {:induction false} RoundsAreLinear(x: T, y: T, n: nat)
      requires IsGroup() && IsLinear()
      ensures Rounds(add(x, y), n) == add(Rounds(x, n), Rounds(y, n))
      decreases n
    {
      if n > 0 {
        RoundIsLinear(x, y);
        RoundsAreLinear(Round(x), Round(y), n - 1);
      }
    }

    /** Rounds over clear bits only shift. */
    lemma {:induction false} ClearRounds(v: T, n: nat)
      requires forall i: nat | i < n :: !odd(Halves(v, i))
      ensures Rounds(v, n) == Halves(v, n)
      decreases n
    {
      if n > 0 {
        assert !odd(Halves(v, 0));
        forall i: nat | i < n - 1 ensures !odd(Halves(halve(v), i)) {
          assert Halves(v, i + 1) == Halves(halve(v), i);
        }
        ClearRounds(halve(v), n - 1);
      }
    }

    /** Shifting the input in bit by bit is n rounds over the register with the input added at once. */
    lemma {:induction false} ShiftsAreRounds(v: T, input: T, n: nat)
      requires IsGroup() && IsLinear()
      ensures add(Shifts(v, input, n), Halves(input, n)) == Rounds(add(v, input), n)
      decreases n
    {
      if n > 0 {
        var hv, hi := halve(v), halve(input);
        assert halve(add(v, input)) == add(hv, hi);
        assert add(ShiftBit(v, input), hi) == Round(add(v, input)) by {
          assert add(add(poly, hv), hi) == add(poly, add(hv, hi));
        }
        ShiftsAreRounds(ShiftBit(v, input), hi, n - 1);
      }
    }

    /** When the n low bits of high are clear, n rounds only have to look at what was added to it. */
    lemma RoundsByParts(high: T, low: T, n: nat)
      requires IsGroup() && IsLinear()
      requires forall i: nat | i < n :: !odd(Halves(high, i))
      ensures Rounds(add(high, low), n) == add(Rounds(low, n), Halves(high, n))
    {
      RoundsAreLinear(high, low, n);
      ClearRounds(high, n);
    }

    lemma Cancel(x: T, y: T, z: T)
      requires IsGroup() && add(x, y) == add(x, z)
      ensures y == z
    {
      assert add(x, add(x, y)) == y;
    }

    /** The mark of poly records the bit shifted out, so a round loses nothing. */
    lemma RoundIsInjective(x: T, y: T)
      requires IsGroup() && IsMarked() && Round(x) == Round(y)
      ensures x == y
    {
      assert top(Round(x)) == odd(x) && top(Round(y)) == odd(y);
      if odd(x) {
        Cancel(poly, halve(x), halve(y));
      }
    }

    lemma {:induction false} RoundsAreInjective(x: T, y: T, n: nat)
      requires IsGroup() && IsMarked() && Rounds(x, n) == Rounds(y, n)
      ensures x == y
      decreases n
    {
      if n > 0 {
        RoundsAreInjective(Round(x), Round(y), n - 1);
        RoundIsInjective(x, y);
      }
    }
  }
}
