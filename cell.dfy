/** Candidate sets: the 9-bit field of a Sudoku cell, where bit d-1 set
    means that digit d is still possible for the cell. */
module Cell {

  /** The `possibles : 9` bit-field of a cell. */
  type Bits = bv9

  /** kAllBits: every digit still possible (a blank cell). */
  const AllBits: Bits := 0x1FF

  /** The one-bit candidate set that holds only digit `d`. */
  function DigitBit(d: int): Bits
    requires 1 <= d <= 9
  {
    1 << (d - 1)
  }

  /** Digit `d` is still a candidate in `b`. */
  predicate Has(b: Bits, d: int)
    requires 1 <= d <= 9
  {
    b & DigitBit(d) != 0
  }

  /** Number of digits among 1..k that are candidates in `b`. */
  function CountUpTo(b: Bits, k: int): nat
    requires 0 <= k <= 9
  {
    if k == 0 then 0 else CountUpTo(b, k - 1) + (if Has(b, k) then 1 else 0)
  }

  /** Number of candidates of a cell (its population count). */
  function Pop(b: Bits): nat
  {
    CountUpTo(b, 9)
  }

  /** Pop written out bit by bit, so that the solver can reason about it on bit-vectors. */
  lemma PopExpand(b: Bits)
    ensures Pop(b) ==
      (if b & 1 != 0 then 1 else 0) + (if b & 2 != 0 then 1 else 0) +
      (if b & 4 != 0 then 1 else 0) + (if b & 8 != 0 then 1 else 0) +
      (if b & 16 != 0 then 1 else 0) + (if b & 32 != 0 then 1 else 0) +
      (if b & 64 != 0 then 1 else 0) + (if b & 128 != 0 then 1 else 0) +
      (if b & 256 != 0 then 1 else 0)
  {
    assert CountUpTo(b, 1) == (if b & 1 != 0 then 1 else 0);
    assert CountUpTo(b, 2) == CountUpTo(b, 1) + (if b & 2 != 0 then 1 else 0);
    assert CountUpTo(b, 3) == CountUpTo(b, 2) + (if b & 4 != 0 then 1 else 0);
    assert CountUpTo(b, 4) == CountUpTo(b, 3) + (if b & 8 != 0 then 1 else 0);
    assert CountUpTo(b, 5) == CountUpTo(b, 4) + (if b & 16 != 0 then 1 else 0);
    assert CountUpTo(b, 6) == CountUpTo(b, 5) + (if b & 32 != 0 then 1 else 0);
    assert CountUpTo(b, 7) == CountUpTo(b, 6) + (if b & 64 != 0 then 1 else 0);
    assert CountUpTo(b, 8) == CountUpTo(b, 7) + (if b & 128 != 0 then 1 else 0);
  }

  /** `b & (b - 1)` clears exactly one candidate of a non-empty set: the step of BitCount. */
  lemma PopClearLowest(b: Bits)
    requires b != 0
    ensures Pop(b & (b - 1)) + 1 == Pop(b)
  {
    PopExpand(b);
    PopExpand(b & (b - 1));
  }

  /** A subset has no more candidates than its superset, and only an equal set has as many. */
  lemma PopSubset(a: Bits, b: Bits)
    requires a & b == a
    ensures Pop(a) <= Pop(b)
    ensures Pop(a) == Pop(b) ==> a == b
  {
    PopExpand(a);
    PopExpand(b);
  }

  /** Exactly one candidate means the set is the bit of one digit. */
  lemma PopOne(b: Bits)
    ensures Pop(b) == 1 <==> exists d :: 1 <= d <= 9 && b == DigitBit(d)
  {
    PopExpand(b);
    if Pop(b) == 1 {
      var d := if b == 1 then 1 else if b == 2 then 2 else if b == 4 then 3 else if b == 8 then 4
               else if b == 16 then 5 else if b == 32 then 6 else if b == 64 then 7 else if b == 128 then 8 else 9;
      assert b == DigitBit(d);
    } else if d :| 1 <= d <= 9 && b == DigitBit(d) {
      PopExpand(DigitBit(d));
      assert false;
    }
  }

  /** A one-candidate set that holds digit `d` is the bit of `d`. */
  lemma PopOneHas(b: Bits, d: int)
    requires 1 <= d <= 9 && Pop(b) == 1 && Has(b, d)
    ensures b == DigitBit(d)
  {
    PopExpand(b);
  }

  /** The bit of `d` holds `d` and no other digit. */
  lemma DigitBitOnly(d: int)
    requires 1 <= d <= 9
    ensures Pop(DigitBit(d)) == 1
    ensures forall e :: 1 <= e <= 9 ==> (Has(DigitBit(d), e) <==> e == d)
  {
    PopExpand(DigitBit(d));
  }

  /** BitCount (engine.c:61): clears the lowest set bit until none is left,
      counting the steps. Every caller passes a 9-bit value. */
  method BitCount(bits: Bits) returns (bitCount: nat)
    ensures bitCount == Pop(bits)
  {
    var b := bits;
    bitCount := 0;
    while b != 0
      invariant bitCount + Pop(b) == Pop(bits)
      decreases Pop(b)
    {
      PopClearLowest(b);
      b := b & (b - 1);
      bitCount := bitCount + 1;
    }
    PopExpand(b);
  }

  /** SinglePossible (engine.c:78): the digit of a cell with exactly one
      candidate, and -1 for a cell with none or with several. */
  method SinglePossible(cell: Bits) returns (found: int)
    ensures found == -1 <==> Pop(cell) != 1
    ensures found != -1 ==> 1 <= found <= 9 && cell == DigitBit(found)
  {
    found := -1;
    var foundCount := 0;
    for digit := 1 to 10
      invariant foundCount == CountUpTo(cell, digit - 1)
      invariant found == -1 <==> foundCount == 0
      invariant found != -1 ==> 1 <= found < digit && Has(cell, found)
    {
      if cell & DigitBit(digit) != 0 {
        found := digit;
        foundCount := foundCount + 1;
      }
    }
    if foundCount > 1 {
      found := -1;
    }
    if found != -1 {
      PopOneHas(cell, found);
    }
  }
}
