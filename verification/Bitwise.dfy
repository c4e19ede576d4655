/** The bitwise operations, bit by bit. */
module Bitwise {
  import opened Bytes

  predicate BitAt(x: nat, i: nat) { if i == 0 then x % 2 == 1 else BitAt(x / 2, i - 1) }

  lemma {:induction false} XorBit(a: nat, b: nat, i: nat)
    ensures BitAt(Xor(a, b), i) == (BitAt(a, i) != BitAt(b, i))
    decreases i
  {
    if a == 0 { ZeroBit(i); } else if b == 0 { ZeroBit(i); } else if i > 0 { XorBit(a / 2, b / 2, i - 1); }
  }

  lemma ZeroBit(i: nat)
    ensures !BitAt(0, i)
  {
  }

  lemma {:induction false} AndBit(a: nat, b: nat, i: nat)
    ensures BitAt(And(a, b), i) == (BitAt(a, i) && BitAt(b, i))
    decreases i
  {
    if a == 0 { ZeroBit(i); } else if b == 0 { ZeroBit(i); } else if i > 0 { AndBit(a / 2, b / 2, i - 1); }
  }

  lemma {:induction false} OrBit(a: nat, b: nat, i: nat)
    ensures BitAt(Or(a, b), i) == (BitAt(a, i) || BitAt(b, i))
    decreases i
  {
    if a == 0 { ZeroBit(i); } else if b == 0 { ZeroBit(i); } else if i > 0 { OrBit(a / 2, b / 2, i - 1); }
  }

  lemma BitsDown(x: nat, i: nat)
    requires i > 0
    ensures BitAt(x, i) == BitAt(x / 2, i - 1)
  {
  }

  /** Within a byte the two ways to look at a bit agree. */
  lemma BitIsBitAt(x: byte, k: nat)
    requires k < 8
    ensures Bit(x, k) == BitAt(x, k)
  {
    var y1: int, y2: int := x / 2, x / 2 / 2;
    var y3: int, y4: int := y2 / 2, y2 / 2 / 2;
    var y5: int, y6: int := y4 / 2, y4 / 2 / 2;
    Eighth(x, y1, y2, y3, y4, y5, y6, y6 / 2, k);
  }

  lemma Eighth(x: nat, y1: nat, y2: nat, y3: nat, y4: nat, y5: nat, y6: nat, y7: nat, k: nat)
    requires k < 8 && y1 == x / 2 && y2 == y1 / 2 && y3 == y2 / 2 && y4 == y3 / 2
    requires y5 == y4 / 2 && y6 == y5 / 2 && y7 == y6 / 2
    ensures Bit(x, k) == BitAt(x, k)
  {
    if k > 0 { BitsDown(x, k); }
    if k > 1 { BitsDown(y1, k - 1); }
    if k > 2 { BitsDown(y2, k - 2); }
    if k > 3 { BitsDown(y3, k - 3); }
    if k > 4 { BitsDown(y4, k - 4); }
    if k > 5 { BitsDown(y5, k - 5); }
    if k > 6 { BitsDown(y6, k - 6); }
  }

  lemma AndBits(a: byte, b: byte, k: nat)
    requires k < 8
    ensures Bit(And8(a, b), k) == (Bit(a, k) && Bit(b, k))
  {
    BitIsBitAt(And8(a, b), k);
    BitIsBitAt(a, k);
    BitIsBitAt(b, k);
    AndBit(a, b, k);
    hide Bit, And, BitAt;
  }

  lemma OrBits(a: byte, b: byte, k: nat)
    requires k < 8
    ensures Bit(Or8(a, b), k) == (Bit(a, k) || Bit(b, k))
  {
    OrXorWidth(a, b, 8);
    BitIsBitAt(Or8(a, b), k);
    BitIsBitAt(a, k);
    BitIsBitAt(b, k);
    OrBit(a, b, k);
    hide Bit, Or, BitAt;
  }

  lemma XorBits(a: byte, b: byte, k: nat)
    requires k < 8
    ensures Bit(Xor8(a, b), k) == (Bit(a, k) != Bit(b, k))
  {
    OrXorWidth(a, b, 8);
    BitIsBitAt(Xor8(a, b), k);
    BitIsBitAt(a, k);
    BitIsBitAt(b, k);
    XorBit(a, b, k);
    hide Bit, Xor, BitAt;
  }

  /** A byte is its bits. */
  lemma SameByte(a: byte, b: byte)
    requires forall k: nat :: k < 8 ==> Bit(a, k) == Bit(b, k)
    ensures a == b
  {
    ByteIsItsBits(a);
    ByteIsItsBits(b);
    assert Bit(a, 0) == Bit(b, 0) && Bit(a, 1) == Bit(b, 1) && Bit(a, 2) == Bit(b, 2) && Bit(a, 3) == Bit(b, 3);
    assert Bit(a, 4) == Bit(b, 4) && Bit(a, 5) == Bit(b, 5) && Bit(a, 6) == Bit(b, 6) && Bit(a, 7) == Bit(b, 7);
    hide Bit, FromBits;
  }
}
