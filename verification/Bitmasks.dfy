/** The bits of a byte, as the devices mask them out. */
module Bitmasks {
  function Mask(k: nat): bv8
    requires k < 8
  {
    match k
    case 0 => 0x01 case 1 => 0x02 case 2 => 0x04 case 3 => 0x08
    case 4 => 0x10 case 5 => 0x20 case 6 => 0x40 case _ => 0x80
  }

  /** Bit `k` of a value. */
  predicate BitOf(v: bv8, k: nat)
    requires k < 8
  {
    v & Mask(k) != 0
  }

  function WithBit(v: bv8, k: nat, on: bool): bv8
    requires k < 8
  {
    (v & !Mask(k)) | if on then Mask(k) else 0
  }

  lemma WithBitBits(v: bv8, k: nat, on: bool, j: nat)
    requires k < 8 && j < 8
    ensures BitOf(WithBit(v, k, on), j) == if j == k then on else BitOf(v, j)
  {
  }

  lemma SameBits(a: bv8, b: bv8)
    requires forall k :: 0 <= k < 8 ==> BitOf(a, k) == BitOf(b, k)
    ensures a == b
  {
    assert BitOf(a, 0) == BitOf(b, 0) && BitOf(a, 1) == BitOf(b, 1) && BitOf(a, 2) == BitOf(b, 2)
           && BitOf(a, 3) == BitOf(b, 3);
    assert BitOf(a, 4) == BitOf(b, 4) && BitOf(a, 5) == BitOf(b, 5) && BitOf(a, 6) == BitOf(b, 6)
           && BitOf(a, 7) == BitOf(b, 7);
  }
}
