/** Multi-byte binary and decimal arithmetic built from single ALU steps. */
module Arithmetic {
  import opened Bytes
  import opened Registers
  import opened Z80

  /** A little-endian number of any length. */
  function Value(bs: seq<byte>): nat {
    if bs == [] then 0 else bs[0] + 0x100 * Value(bs[1..])
  }

  /** The two's complement reading. */
  function SignedValue(bs: seq<byte>): int
    requires bs != []
  {
    if |bs| == 1 then Signed8(bs[0]) else bs[0] + 0x100 * SignedValue(bs[1..])
  }

  function Power(base: nat, n: nat): nat { if n == 0 then 1 else base * Power(base, n - 1) }

  /** The bound of the signed range of `n` bytes. */
  function Half(n: nat): nat
    requires n > 0
  {
    if n == 1 then 0x80 else 0x100 * Half(n - 1)
  }

  /** ADC (or SBC) of `y` to `x`, leaving the result in A. */
  function Step(f: Flags, x: byte, y: byte, sub: bool, r: Regs): Regs {
    Alu(r.(a := x, f := f), if sub then 3 else 1, y)
  }

  datatype Chained = Chained(bytes: seq<byte>, f: Flags)

  /** ADC or SBC over the bytes from the low end up, the carry passing from each to the next. */
  function Chain(f: Flags, xs: seq<byte>, ys: seq<byte>, sub: bool, r: Regs): (c: Chained)
    requires |xs| == |ys|
    ensures |c.bytes| == |xs|
    decreases |xs|
  {
    if xs == [] then Chained([], f)
    else
      var s := Step(f, xs[0], ys[0], sub, r);
      var rest := Chain(s.f, xs[1..], ys[1..], sub, r);
      Chained([s.a] + rest.bytes, rest.f)
  }

  /** ADD and SUB are ADC and SBC with the carry clear. */
  lemma FirstStep(r: Regs, v: byte)
    ensures Alu(r, 0, v) == Step(r.f.(c := false), r.a, v, false, r)
    ensures Alu(r, 2, v) == Step(r.f.(c := false), r.a, v, true, r)
  {
  }

  lemma StepIs(f: Flags, x: byte, y: byte, sub: bool, r: Regs)
    ensures var s, c := Step(f, x, y, sub, r), Num(f.c);
            && s.a == (if sub then Difference(x, y, c) else Sum(x, y, c))
            && s.f == if sub then DifferenceFlags(x, y, c) else SumFlags(x, y, c)
  {
    hide SumFlags, DifferenceFlags, Sum, Difference, Logic, And8, Or8, Xor8;
  }

  lemma CarryOut(x: byte, y: byte, c: nat)
    requires c <= 1
    ensures Byte(x + y + c) == x + y + c - 0x100 * Num(x + y + c >= 0x100)
    ensures Byte(x - y - c) == x - y - c + 0x100 * Num(x - y - c < 0)
  {
  }

  lemma StepValue(f: Flags, x: byte, y: byte, sub: bool, r: Regs)
    ensures var s := Step(f, x, y, sub, r);
            if sub then s.a - 0x100 * Num(s.f.c) == x - y - Num(f.c)
            else s.a + 0x100 * Num(s.f.c) == x + y + Num(f.c)
  {
    StepIs(f, x, y, sub, r);
    CarryOut(x, y, Num(f.c));
    hide Bit, Step, Byte;
  }

  lemma StepOverflow(f: Flags, x: byte, y: byte, sub: bool, r: Regs)
    ensures var exact := if sub then Signed8(x) - Signed8(y) - Num(f.c) else Signed8(x) + Signed8(y) + Num(f.c);
            Step(f, x, y, sub, r).f.pv <==> !(-0x80 <= exact < 0x80)
  {
    StepIs(f, x, y, sub, r);
    CarryOut(x, y, Num(f.c));
    hide Bit, Step, Byte;
  }

  /** Adding: the bytes are the sum modulo 256^n and the final carry is the carry out.
      Subtracting: the difference modulo 256^n, and the final carry is the borrow. */
  lemma {:induction false} ChainValue(f: Flags, xs: seq<byte>, ys: seq<byte>, sub: bool, r: Regs)
    requires |xs| == |ys|
    ensures var c := Chain(f, xs, ys, sub, r);
            var top := if c.f.c then Power(0x100, |xs|) else 0;
            && (if sub then Value(c.bytes) - top == Value(xs) - Value(ys) - Num(f.c)
                else Value(c.bytes) + top == Value(xs) + Value(ys) + Num(f.c))
            && Value(c.bytes) < Power(0x100, |xs|)
    decreases |xs|
  {
    hide Step;
    if xs != [] {
      var s := Step(f, xs[0], ys[0], sub, r);
      StepValue(f, xs[0], ys[0], sub, r);
      ChainValue(s.f, xs[1..], ys[1..], sub, r);
      var rest := Chain(s.f, xs[1..], ys[1..], sub, r);
      assert ([s.a] + rest.bytes)[1..] == rest.bytes;
    }
  }

  /** The final PV is the signed overflow of the whole sum or difference. */
  lemma {:induction false} ChainOverflow(f: Flags, xs: seq<byte>, ys: seq<byte>, sub: bool, r: Regs)
    requires |xs| == |ys| && xs != []
    ensures var exact := if sub then SignedValue(xs) - SignedValue(ys) - Num(f.c)
                         else SignedValue(xs) + SignedValue(ys) + Num(f.c);
            Chain(f, xs, ys, sub, r).f.pv <==> !(0 <= exact + Half(|xs|) < 2 * Half(|xs|))
    decreases |xs|
  {
    hide Step;
    var s := Step(f, xs[0], ys[0], sub, r);
    if |xs| == 1 {
      StepOverflow(f, xs[0], ys[0], sub, r);
      assert Chain(f, xs, ys, sub, r).f == s.f;
    } else {
      StepValue(f, xs[0], ys[0], sub, r);
      ChainOverflow(s.f, xs[1..], ys[1..], sub, r);
    }
  }

  // ----- ADC HL,rp and SBC HL,rp

  /** The 16-bit forms are the two-byte chain: same result, same carry, half carry, overflow, sign,
      subtract and undocumented bits. Only Z differs: it looks at all sixteen bits. */
  lemma WideIsChain(r: Regs, v: word, sub: bool)
    ensures var c := Chain(r.f, [Lo(r.hl), Hi(r.hl)], [Lo(v), Hi(v)], sub, r);
            var w := if sub then Sbc16(r, v) else Adc16(r, v);
            && w.hl == Pair(c.bytes[1], c.bytes[0]) && w.wz == w.hl
            && w.f == c.f.(z := w.hl == 0)
            && w == r.(hl := w.hl, wz := w.hl, f := w.f)
  {
    hide Bit, Sbc16, Adc16, Step, Pair, Hi, Lo;
    var lo := Step(r.f, Lo(r.hl), Lo(v), sub, r);
    var hi := Step(lo.f, Hi(r.hl), Hi(v), sub, r);
    TwoBytes(r, v, sub);
    WideSteps(r, v, sub);
  }

  lemma TwoBytes(r: Regs, v: word, sub: bool)
    ensures var lo := Step(r.f, Lo(r.hl), Lo(v), sub, r);
            var hi := Step(lo.f, Hi(r.hl), Hi(v), sub, r);
            Chain(r.f, [Lo(r.hl), Hi(r.hl)], [Lo(v), Hi(v)], sub, r) == Chained([lo.a, hi.a], hi.f)
  {
    hide Step, Hi, Lo;
    var lo := Step(r.f, Lo(r.hl), Lo(v), sub, r);
    var hi := Step(lo.f, Hi(r.hl), Hi(v), sub, r);
    assert [Lo(r.hl), Hi(r.hl)][1..] == [Hi(r.hl)] && [Lo(v), Hi(v)][1..] == [Hi(v)];
    assert [Hi(r.hl)][1..] == [] && [Hi(v)][1..] == [];
    assert Chain(lo.f, [Hi(r.hl)], [Hi(v)], sub, r) == Chained([hi.a], hi.f);
  }

  lemma WideSteps(r: Regs, v: word, sub: bool)
    ensures var lo := Step(r.f, Lo(r.hl), Lo(v), sub, r);
            var hi := Step(lo.f, Hi(r.hl), Hi(v), sub, r);
            var w := if sub then Sbc16(r, v) else Adc16(r, v);
            && w.hl == Pair(hi.a, lo.a) && w.f == hi.f.(z := w.hl == 0)
            && w == r.(hl := w.hl, wz := w.hl, f := w.f)
  {
    hide Adc16, Sbc16, Hi, Lo, Pair, SumFlags, DifferenceFlags, Sum, Difference;
    if sub { WideDifference(r, v); } else { WideSum(r, v); }
    StepIs(r.f, Lo(r.hl), Lo(v), sub, r);
    StepIs(Step(r.f, Lo(r.hl), Lo(v), sub, r).f, Hi(r.hl), Hi(v), sub, r);
    CarryOf(Lo(r.hl), Lo(v), Num(r.f.c));
    hide Step;
  }

  lemma CarryOf(x: byte, y: byte, c: nat)
    ensures SumFlags(x, y, c).c == (x + y + c >= 0x100)
    ensures DifferenceFlags(x, y, c).c == (x - y - c < 0)
  {
    hide Bit;
  }

  lemma WideSumValue(r: Regs, v: word)
    ensures var h, l, vh, vl, c := Hi(r.hl), Lo(r.hl), Hi(v), Lo(v), Num(r.f.c);
            var w := Adc16(r, v);
            && w.hl == Pair(Sum(h, vh, Num(l + vl + c >= 0x100)), Sum(l, vl, c))
            && w == r.(hl := w.hl, wz := w.hl, f := w.f)
  {
    hide Bit, Pair, Hi, Lo, Word, Byte, WideFlags;
    HalfDigits(r.hl);
    HalfDigits(v);
    SplitSum(Hi(r.hl), Lo(r.hl), Hi(v), Lo(v), Num(r.f.c));
  }

  lemma WideSum(r: Regs, v: word)
    ensures var h, l, vh, vl, c := Hi(r.hl), Lo(r.hl), Hi(v), Lo(v), Num(r.f.c);
            var c1 := Num(l + vl + c >= 0x100);
            var w := Adc16(r, v);
            && w.hl == Pair(Sum(h, vh, c1), Sum(l, vl, c)) && w.f == SumFlags(h, vh, c1).(z := w.hl == 0)
            && w == r.(hl := w.hl, wz := w.hl, f := w.f)
  {
    hide Bit, Pair, Hi, Lo, Word, Byte;
    var h: int, l: int, vh: int, vl: int, c: int := Hi(r.hl), Lo(r.hl), Hi(v), Lo(v), Num(r.f.c);
    var c1 := Num(l + vl + c >= 0x100);
    WideSumValue(r, v);
    HalfDigits(r.hl);
    HalfDigits(v);
    SplitSum(h, l, vh, vl, c);
    HalfDigits(Pair(Sum(h, vh, c1), Sum(l, vl, c)));
    PairParts(Sum(h, vh, c1), Sum(l, vl, c));
  }

  lemma WideDifference(r: Regs, v: word)
    ensures var h, l, vh, vl, c := Hi(r.hl), Lo(r.hl), Hi(v), Lo(v), Num(r.f.c);
            var c1 := Num(l - vl - c < 0);
            var w := Sbc16(r, v);
            && w.hl == Pair(Difference(h, vh, c1), Difference(l, vl, c))
            && w.f == DifferenceFlags(h, vh, c1).(z := w.hl == 0)
            && w == r.(hl := w.hl, wz := w.hl, f := w.f)
  {
    hide Bit, Pair, Hi, Lo, Word, Byte;
    var h: int, l: int, vh: int, vl: int, c: int := Hi(r.hl), Lo(r.hl), Hi(v), Lo(v), Num(r.f.c);
    var c1 := Num(l - vl - c < 0);
    HalfDigits(r.hl);
    HalfDigits(v);
    SplitDifference(h, l, vh, vl, c);
    HalfDigits(Pair(Difference(h, vh, c1), Difference(l, vl, c)));
    PairParts(Difference(h, vh, c1), Difference(l, vl, c));
  }

  lemma SplitSum(h: byte, l: byte, vh: byte, vl: byte, c: nat)
    requires c <= 1
    ensures var c1 := Num(l + vl + c >= 0x100);
            && Word(0x100 * h + l + (0x100 * vh + vl) + c) == Pair(Byte(h + vh + c1), Byte(l + vl + c))
            && (0x100 * h + l + (0x100 * vh + vl) + c >= 0x10000 <==> h + vh + c1 >= 0x100)
            && (0x100 * (h % 0x10) + l + (0x100 * (vh % 0x10) + vl) + c >= 0x1000
                <==> h % 0x10 + vh % 0x10 + c1 >= 0x10)
  {
    CarryOut(l, vl, c);
  }

  lemma SplitDifference(h: byte, l: byte, vh: byte, vl: byte, c: nat)
    requires c <= 1
    ensures var c1 := Num(l - vl - c < 0);
            && Word(0x100 * h + l - (0x100 * vh + vl) - c) == Pair(Byte(h - vh - c1), Byte(l - vl - c))
            && (0x100 * h + l - (0x100 * vh + vl) - c < 0 <==> h - vh - c1 < 0)
            && (0x100 * (h % 0x10) + l - (0x100 * (vh % 0x10) + vl) - c < 0 <==> h % 0x10 - vh % 0x10 - c1 < 0)
  {
    CarryOut(l, vl, c);
  }

  lemma HalfDigits(w: word)
    ensures w == 0x100 * Hi(w) + Lo(w) && w % 0x1000 == 0x100 * (Hi(w) % 0x10) + Lo(w)
    ensures w >= 0x8000 <==> Hi(w) >= 0x80
  {
    var h: int, l: int := w / 0x100, w % 0x100;
    assert w == 0x100 * h + l;
    assert w == 0x1000 * (h / 0x10) + (0x100 * (h % 0x10) + l);
  }

  // ----- packed BCD

  /** Two decimal digits. */
  predicate Bcd(b: byte) { b / 0x10 <= 9 && b % 0x10 <= 9 }

  function Decimal(b: byte): nat { 10 * (b / 0x10) + b % 0x10 }

  function DecimalValue(bs: seq<byte>): nat {
    if bs == [] then 0 else Decimal(bs[0]) + 100 * DecimalValue(bs[1..])
  }

  predicate AllBcd(bs: seq<byte>) { forall i :: 0 <= i < |bs| ==> Bcd(bs[i]) }

  /** ADC; DAA, or SBC; DAA. */
  function DecimalStep(f: Flags, x: byte, y: byte, sub: bool, r: Regs): Regs { Daa(Step(f, x, y, sub, r)) }

  function DecimalChain(f: Flags, xs: seq<byte>, ys: seq<byte>, sub: bool, r: Regs): (c: Chained)
    requires |xs| == |ys|
    ensures |c.bytes| == |xs|
    decreases |xs|
  {
    if xs == [] then Chained([], f)
    else
      var s := DecimalStep(f, xs[0], ys[0], sub, r);
      var rest := DecimalChain(s.f, xs[1..], ys[1..], sub, r);
      Chained([s.a] + rest.bytes, rest.f)
  }

  /** DAA after adding, digit by digit: `u` and `t` are the sums of the high and low digits. */
  lemma AdjustSum(u: nat, t: nat)
    requires u <= 18 && t <= 19
    ensures var a := Byte(0x10 * u + t);
            var low := if a % 0x10 > 9 || t >= 0x10 then 6 else 0;
            var carry := a + low >= 0xA0 || 0x10 * u + t >= 0x100;
            var b := Byte(a + low + if carry then 0x60 else 0);
            && Bcd(b) && Decimal(b) + 100 * Num(carry) == 10 * u + t
  {
    hide Byte, Bcd, Decimal;
    var k := Num(t >= 10);
    var high, digit := u + k - 10 * Num(u + k >= 10), t - 10 * k;
    var a := Byte(0x10 * u + t);
    ByteOf(0x10 * u + t);
    Digits(u + Num(t >= 0x10) - 0x10 * Num(0x10 * u + t >= 0x100), t - 0x10 * Num(t >= 0x10));
    ByteOf(a + 6 * k + 0x60 * Num(u + k >= 10));
    Digits(high, digit);
  }

  lemma ByteOf(x: int)
    requires -0x100 <= x < 0x200
    ensures Byte(x) == if x < 0 then x + 0x100 else if x < 0x100 then x else x - 0x100
  {
  }

  lemma Digits(high: int, digit: int)
    requires 0 <= high < 0x10 && 0 <= digit < 0x10
    ensures var b := 0x10 * high + digit;
            b % 0x10 == digit && (high <= 9 && digit <= 9 ==> Bcd(b) && Decimal(b) == 10 * high + digit)
  {
  }

  lemma AdjustDifference(u: int, t: int)
    requires -9 <= u <= 9 && -10 <= t <= 9
    ensures var a := Byte(0x10 * u + t);
            var low := if a % 0x10 > 9 || t < 0 then 6 else 0;
            var carry := a + low >= 0xA0 || 0x10 * u + t < 0;
            var b := Byte(a - (low + if carry then 0x60 else 0));
            && Bcd(b) && Decimal(b) - 100 * Num(carry) == 10 * u + t
  {
    hide Byte, Bcd, Decimal;
    var k := Num(t < 0);
    var high, digit := u - k + 10 * Num(u - k < 0), t + 10 * k;
    var a := Byte(0x10 * u + t);
    ByteOf(0x10 * u + t);
    Digits(u - k + 0x10 * Num(0x10 * u + t < 0), t + 0x10 * k);
    ByteOf(a - 6 * k - 0x60 * Num(u - k < 0));
    Digits(high, digit);
  }

  lemma DecimalAdd(f: Flags, x: byte, y: byte, r: Regs)
    requires Bcd(x) && Bcd(y)
    ensures var s := DecimalStep(f, x, y, false, r);
            Bcd(s.a) && Decimal(s.a) + 100 * Num(s.f.c) == Decimal(x) + Decimal(y) + Num(f.c)
  {
    hide Bit, EvenParity, Step, Byte;
    AddForm(f, x, y, r);
    var u, t := x / 0x10 + y / 0x10, x % 0x10 + y % 0x10 + Num(f.c);
    AdjustSum(u, t);
    assert x + y + Num(f.c) == 0x10 * u + t;
    hide Bcd;
  }

  lemma AddForm(f: Flags, x: byte, y: byte, r: Regs)
    ensures var s := Step(f, x, y, false, r);
            && s.a == Byte(x + y + Num(f.c)) && !s.f.n
            && s.f.h == (x % 0x10 + y % 0x10 + Num(f.c) >= 0x10) && s.f.c == (x + y + Num(f.c) >= 0x100)
  {
    hide Bit, Byte;
  }

  lemma SubtractForm(f: Flags, x: byte, y: byte, r: Regs)
    ensures var s := Step(f, x, y, true, r);
            && s.a == Byte(x - y - Num(f.c)) && s.f.n
            && s.f.h == (x % 0x10 - y % 0x10 - Num(f.c) < 0) && s.f.c == (x - y - Num(f.c) < 0)
  {
    hide Bit, Byte;
  }

  lemma DecimalSubtract(f: Flags, x: byte, y: byte, r: Regs)
    requires Bcd(x) && Bcd(y)
    ensures var s := DecimalStep(f, x, y, true, r);
            Bcd(s.a) && Decimal(s.a) - 100 * Num(s.f.c) == Decimal(x) - Decimal(y) - Num(f.c)
  {
    hide Bit, EvenParity, Step, Byte;
    SubtractForm(f, x, y, r);
    var u, t := x / 0x10 - y / 0x10, x % 0x10 - y % 0x10 - Num(f.c);
    AdjustDifference(u, t);
    assert x - y - Num(f.c) == 0x10 * u + t;
    hide Bcd;
  }

  /** Every byte of the result is packed BCD, together they are the decimal sum (difference)
      modulo 100^n, and the final carry is the decimal carry (borrow). */
  lemma {:induction false} DecimalChainValue(f: Flags, xs: seq<byte>, ys: seq<byte>, sub: bool, r: Regs)
    requires |xs| == |ys| && AllBcd(xs) && AllBcd(ys)
    ensures var c := DecimalChain(f, xs, ys, sub, r);
            var top := if c.f.c then Power(100, |xs|) else 0;
            && AllBcd(c.bytes)
            && (if sub then DecimalValue(c.bytes) - top == DecimalValue(xs) - DecimalValue(ys) - Num(f.c)
                else DecimalValue(c.bytes) + top == DecimalValue(xs) + DecimalValue(ys) + Num(f.c))
            && DecimalValue(c.bytes) < Power(100, |xs|)
    decreases |xs|
  {
    hide DecimalStep, Bcd, Decimal;
    if xs != [] {
      var s := DecimalStep(f, xs[0], ys[0], sub, r);
      if sub { DecimalSubtract(f, xs[0], ys[0], r); } else { DecimalAdd(f, xs[0], ys[0], r); }
      DecimalChainValue(s.f, xs[1..], ys[1..], sub, r);
      var rest := DecimalChain(s.f, xs[1..], ys[1..], sub, r);
      assert ([s.a] + rest.bytes)[1..] == rest.bytes;
      DecimalBound(s.a);
    }
  }

  lemma DecimalBound(b: byte)
    ensures Bcd(b) ==> Decimal(b) < 100
  {
  }
}
