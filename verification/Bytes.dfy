/** Machine integers of the emulator, as bounded mathematical integers.
    Every C expression that wraps or truncates is written out with `Byte` or `Word`. */
module Bytes {

  type byte = x: int | 0 <= x < 0x100
  type word = x: int | 0 <= x < 0x10000

  /** A cast to `uint8_t`: Euclidean `%` agrees with two's complement on negative values. */
  function Byte(x: int): byte { x % 0x100 }

  /** A cast to `uint16_t`. */
  function Word(x: int): word { x % 0x10000 }

  lemma WordPlus(a: int, b: int)
    ensures Word(Word(a) + b) == Word(a + b)
  {
  }

  function Hi(w: word): byte { w / 0x100 }

  function Lo(w: word): byte { w % 0x100 }

  function Pair(hi: byte, lo: byte): word { hi * 0x100 + lo }

  lemma PairParts(hi: byte, lo: byte)
    ensures Hi(Pair(hi, lo)) == hi && Lo(Pair(hi, lo)) == lo
    ensures hi == 0 ==> Pair(hi, lo) == lo
  {
  }

  lemma PairOf(w: word)
    ensures Pair(Hi(w), Lo(w)) == w && Pair(Hi(w), Lo(w)) == 0x100 * Hi(w) + Lo(w)
  {
  }

  /** A cast to `int8_t`. */
  function Signed8(b: byte): int { if b < 0x80 then b else b - 0x100 }

  function Num(b: bool): nat { if b then 1 else 0 }

  /** Bit `k` of the two's complement form of `x`: C's `(x >> k) & 1`. Floor division by a
      power of two is written as repeated halving, which the solver handles best. */
  predicate Bit(x: int, k: nat)
    requires k <= 16
  {
    match k
    case 0 => x % 2 == 1
    case 1 => x / 2 % 2 == 1
    case 2 => x / 2 / 2 % 2 == 1
    case 3 => x / 2 / 2 / 2 % 2 == 1
    case 4 => x / 2 / 2 / 2 / 2 % 2 == 1
    case 5 => x / 2 / 2 / 2 / 2 / 2 % 2 == 1
    case 6 => x / 2 / 2 / 2 / 2 / 2 / 2 % 2 == 1
    case 7 => x / 2 / 2 / 2 / 2 / 2 / 2 / 2 % 2 == 1
    case 8 => x / 0x100 % 2 == 1
    case 9 => x / 0x100 / 2 % 2 == 1
    case 10 => x / 0x100 / 2 / 2 % 2 == 1
    case 11 => x / 0x100 / 2 / 2 / 2 % 2 == 1
    case 12 => x / 0x100 / 2 / 2 / 2 / 2 % 2 == 1
    case 13 => x / 0x100 / 2 / 2 / 2 / 2 / 2 % 2 == 1
    case 14 => x / 0x100 / 2 / 2 / 2 / 2 / 2 / 2 % 2 == 1
    case 15 => x / 0x100 / 2 / 2 / 2 / 2 / 2 / 2 / 2 % 2 == 1
    case _ => x / 0x10000 % 2 == 1
  }

  /** A byte with its bits, the lowest first. */
  function FromBits(b0: bool, b1: bool, b2: bool, b3: bool, b4: bool, b5: bool, b6: bool, b7: bool): byte {
    Num(b0) + 2 * (Num(b1) + 2 * (Num(b2) + 2 * (Num(b3)
    + 2 * (Num(b4) + 2 * (Num(b5) + 2 * (Num(b6) + 2 * Num(b7)))))))
  }

  /** Bytes and their bits determine each other. */
  lemma BitsOf(b0: bool, b1: bool, b2: bool, b3: bool, b4: bool, b5: bool, b6: bool, b7: bool)
    ensures var v := FromBits(b0, b1, b2, b3, b4, b5, b6, b7);
            && Bit(v, 0) == b0 && Bit(v, 1) == b1 && Bit(v, 2) == b2 && Bit(v, 3) == b3
            && Bit(v, 4) == b4 && Bit(v, 5) == b5 && Bit(v, 6) == b6 && Bit(v, 7) == b7
  {
    hide Num;
    NumSmall(b0); NumSmall(b1); NumSmall(b2); NumSmall(b3); NumSmall(b4); NumSmall(b5); NumSmall(b6); NumSmall(b7);
    var y7: int := Num(b7);
    var y6 := Num(b6) + 2 * y7;
    var y5 := Num(b5) + 2 * y6;
    var y4 := Num(b4) + 2 * y5;
    var y3 := Num(b3) + 2 * y4;
    var y2 := Num(b2) + 2 * y3;
    var y1 := Num(b1) + 2 * y2;
    Halved(FromBits(b0, b1, b2, b3, b4, b5, b6, b7), y1);
    Halved(y1, y2); Halved(y2, y3); Halved(y3, y4); Halved(y4, y5); Halved(y5, y6); Halved(y6, y7); Halved(y7, 0);
  }

  lemma NumSmall(b: bool)
    ensures 0 <= Num(b) <= 1 && (Num(b) == 1) == b
  {
  }

  lemma Halved(y: int, z: int)
    requires 2 * z <= y <= 2 * z + 1
    ensures y / 2 == z && y % 2 == y - 2 * z
  {
  }

  lemma ByteIsItsBits(v: byte)
    ensures v == FromBits(Bit(v, 0), Bit(v, 1), Bit(v, 2), Bit(v, 3), Bit(v, 4), Bit(v, 5), Bit(v, 6), Bit(v, 7))
  {
    var y1: int := v / 2;
    var y2: int, y3: int := y1 / 2, y1 / 2 / 2;
    var y4: int, y5: int := y3 / 2, y3 / 2 / 2;
    var y6: int, y7: int := y5 / 2, y5 / 2 / 2;
    assert v == Num(Bit(v, 0)) + 2 * y1;
    assert y1 == Num(Bit(v, 1)) + 2 * y2;
    assert y2 == Num(Bit(v, 2)) + 2 * y3;
    assert y3 == Num(Bit(v, 3)) + 2 * y4;
    assert y4 == Num(Bit(v, 4)) + 2 * y5;
    assert y5 == Num(Bit(v, 5)) + 2 * y6;
    assert y6 == Num(Bit(v, 6)) + 2 * y7;
    assert y7 == Num(Bit(v, 7));
  }

  function Exp2(k: nat): (r: nat)
    ensures r > 0
  {
    if k == 0 then 1 else 2 * Exp2(k - 1)
  }

  /** Bitwise operations on natural numbers, least significant bit first. */
  function And(a: nat, b: nat): (r: nat)
    ensures r <= a && r <= b
  {
    if a == 0 || b == 0 then 0 else Num(a % 2 == 1 && b % 2 == 1) + 2 * And(a / 2, b / 2)
  }

  function Or(a: nat, b: nat): nat {
    if a == 0 then b else if b == 0 then a else Num(a % 2 == 1 || b % 2 == 1) + 2 * Or(a / 2, b / 2)
  }

  function Xor(a: nat, b: nat): nat {
    if a == 0 then b else if b == 0 then a else Num(a % 2 != b % 2) + 2 * Xor(a / 2, b / 2)
  }

  lemma {:induction false} OrXorWidth(a: nat, b: nat, k: nat)
    requires a < Exp2(k) && b < Exp2(k)
    ensures Or(a, b) < Exp2(k) && Xor(a, b) < Exp2(k)
  {
    if a != 0 && b != 0 {
      OrXorWidth(a / 2, b / 2, k - 1);
    }
  }

  function And8(a: byte, b: byte): byte { And(a, b) }

  function Or8(a: byte, b: byte): byte { OrXorWidth(a, b, 8); Or(a, b) }

  function Xor8(a: byte, b: byte): byte { OrXorWidth(a, b, 8); Xor(a, b) }

  /** The number of one bits, modulo 2. */
  function OnesMod2(v: nat): nat {
    if v == 0 then 0 else (v % 2 + OnesMod2(v / 2)) % 2
  }

  predicate EvenParity(v: byte) { OnesMod2(v) == 0 }
}
