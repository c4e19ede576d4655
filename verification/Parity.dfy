/** The parity routine of registers.c. */
module Parity {
  import opened Bitwise
  import opened Bytes

  /** Shifting down moves every bit down. */
  lemma ShiftBits(x: byte)
    ensures BitAt(x / 2, 0) == BitAt(x, 1)
    ensures BitAt(x / 4, 0) == BitAt(x, 2) && BitAt(x / 4, 1) == BitAt(x, 3)
    ensures BitAt(x / 16, 0) == BitAt(x, 4) && BitAt(x / 16, 1) == BitAt(x, 5)
    ensures BitAt(x / 16, 2) == BitAt(x, 6) && BitAt(x / 16, 3) == BitAt(x, 7)
  {
    assert x / 4 == x / 2 / 2 && x / 16 == x / 2 / 2 / 2 / 2;
    BitsDown(x, 1); BitsDown(x, 2); BitsDown(x, 3); BitsDown(x, 4);
    BitsDown(x, 5); BitsDown(x, 6); BitsDown(x, 7);
    BitsDown(x / 2, 1); BitsDown(x / 2, 2); BitsDown(x / 2, 3); BitsDown(x / 2, 4);
    BitsDown(x / 2, 5); BitsDown(x / 2, 6);
    BitsDown(x / 4, 1); BitsDown(x / 4, 2); BitsDown(x / 4, 3); BitsDown(x / 4, 4); BitsDown(x / 4, 5);
    BitsDown(x / 2 / 2 / 2, 1); BitsDown(x / 2 / 2 / 2, 2); BitsDown(x / 2 / 2 / 2, 3); BitsDown(x / 2 / 2 / 2, 4);
  }

  predicate Odd(x: nat) { OnesMod2(x) == 1 }

  lemma {:induction false} OddStep(x: nat)
    ensures Odd(x) == ((x % 2 == 1) != Odd(x / 2))
    ensures 0 <= OnesMod2(x) <= 1
  {
  }

  /** Parity is the exclusive or of the bits. */
  function OddUpTo(x: nat, n: nat): bool { if n == 0 then false else (x % 2 == 1) != OddUpTo(x / 2, n - 1) }

  lemma {:induction false} OddIs(x: nat, n: nat)
    requires x < Exp2(n)
    ensures Odd(x) == OddUpTo(x, n)
    decreases n
  {
    if n > 0 {
      OddStep(x);
      OddIs(x / 2, n - 1);
    }
  }

  lemma {:induction false} TopBit(x: nat, n: nat)
    ensures OddUpTo(x, n + 1) == (OddUpTo(x, n) != BitAt(x, n))
    decreases n
  {
    if n > 0 { TopBit(x / 2, n - 1); }
  }

  lemma OddBits(x: byte)
    ensures Odd(x) == (((((((BitAt(x, 0) != BitAt(x, 1)) != BitAt(x, 2)) != BitAt(x, 3))
                          != BitAt(x, 4)) != BitAt(x, 5)) != BitAt(x, 6)) != BitAt(x, 7))
  {
    OddIs(x, 8);
    hide Odd, BitAt;
    TopBit(x, 0); TopBit(x, 1); TopBit(x, 2); TopBit(x, 3); TopBit(x, 4); TopBit(x, 5); TopBit(x, 6); TopBit(x, 7);
  }

  /** Folds the byte onto its lowest bit, which ends up as the number of ones modulo 2. */
  method ParityOf(v: byte) returns (p: nat)
    ensures p == OnesMod2(v)
  {
    var x := v;
    x := Xor8(x, x / 16);
    ghost var x1 := x;
    x := Xor8(x, x / 4);
    ghost var x2 := x;
    x := Xor8(x, x / 2);
    p := x % 2;
    Folded(v, x1, x2, x);
  }

  lemma Folded(v: byte, x1: byte, x2: byte, x3: byte)
    requires x1 == Xor8(v, v / 16) && x2 == Xor8(x1, x1 / 4) && x3 == Xor8(x2, x2 / 2)
    ensures x3 % 2 == OnesMod2(v)
  {
    ShiftBits(v); ShiftBits(x1); ShiftBits(x2);
    XorBit(v, v / 16, 0); XorBit(v, v / 16, 1); XorBit(v, v / 16, 2); XorBit(v, v / 16, 3);
    XorBit(x1, x1 / 4, 0); XorBit(x1, x1 / 4, 1);
    XorBit(x2, x2 / 2, 0);
    OddBits(v);
    OddStep(v);
    hide Xor8, OnesMod2;
    assert BitAt(x3, 0) == (x3 % 2 == 1);
  }
}
