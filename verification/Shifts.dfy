/** Rotates, shifts and single bits: what each does to the bits of its operand, and what chains of
    them do to numbers of any length. */
module Shifts {
  import opened Bytes
  import opened Bitwise
  import opened Operands
  import opened Registers
  import opened Z80
  import opened Runs
  import opened Steps
  import opened Jumps
  import opened Logic
  import opened Arithmetic

  // ----- bit by bit

  /** Bit `k` after RLC, RRC, RL, RR, SLA, SRA, SLL and SRL of `v`, with carry `c` before. */
  predicate Shifted(y: nat, v: byte, c: bool, k: nat)
    requires y < 8 && k < 8
  {
    match y
    case 0 => Bit(v, if k == 0 then 7 else k - 1)
    case 1 => Bit(v, if k == 7 then 0 else k + 1)
    case 2 => if k == 0 then c else Bit(v, k - 1)
    case 3 => if k == 7 then c else Bit(v, k + 1)
    case 4 => k > 0 && Bit(v, k - 1)
    case 5 => Bit(v, if k == 7 then 7 else k + 1)
    case 6 => k == 0 || Bit(v, k - 1)
    case _ => k < 7 && Bit(v, k + 1)
  }

  /** The bit that goes into carry: the highest to the left, the lowest to the right. */
  predicate ShiftedOut(y: nat, v: byte) { Bit(v, if y % 2 == 0 then 7 else 0) }

  lemma RotBits(y: nat, v: byte, c: bool, k: nat)
    requires y < 8 && k < 8
    ensures Bit(Rot(y, v, c), k) == Shifted(y, v, c, k) && RotCarry(y, v) == ShiftedOut(y, v)
  {
    TopBitIs(v);
    hide Bit, Byte;
    match y {
      case 0 => LeftBits(v, v / 0x80, k);
      case 1 => RightBits(v, v % 2, k);
      case 2 => LeftBits(v, Num(c), k);
      case 3 => RightBits(v, Num(c), k);
      case 4 => LeftBits(v, 0, k);
      case 5 => RightBits(v, v / 0x80, k);
      case 6 => LeftBits(v, 1, k);
      case _ => RightBits(v, 0, k);
    }
  }

  lemma TopBitIs(v: byte)
    ensures Bit(v, 7) == (v / 0x80 == 1) == (v >= 0x80) && Bit(v, 0) == (v % 2 == 1)
  {
    AddedTop(v % 0x80, v / 0x80, 7);
    assert v == v % 0x80 + 0x80 * (v / 0x80);
  }

  /** A bit put on top of seven others. */
  lemma AddedTop(w: nat, t: nat, k: nat)
    requires w < 0x80 && t < 2 && k < 8
    ensures Bit(w + 0x80 * t, k) == if k == 7 then t == 1 else Bit(w, k)
  {
    assert Exp2(7) == 0x80;
    AddedAt(w, t == 1, 7, k);
    BitIsBitAt(w + 0x80 * t, k);
    BitIsBitAt(w, k);
    hide Bit, BitAt, Exp2;
  }

  lemma {:induction false} AddedAt(w: nat, t: bool, n: nat, i: nat)
    requires w < Exp2(n) && i <= n
    ensures BitAt(w + if t then Exp2(n) else 0, i) == if i == n then t else BitAt(w, i)
  {
    if n > 0 {
      var p := if t then Exp2(n - 1) else 0;
      HalfPlus(w, p);
      if i > 0 {
        AddedAt(w / 2, t, n - 1, i - 1);
        BitsDown(w, i);
        BitsDown(w + 2 * p, i);
      }
    }
  }

  lemma HalfPlus(w: int, p: int)
    ensures (w + 2 * p) / 2 == w / 2 + p && (w + 2 * p) % 2 == w % 2
  {
  }

  lemma LeftBits(v: byte, low: nat, k: nat)
    requires low < 2 && k < 8
    ensures Byte(2 * v) + low < 0x100
    ensures Bit(Byte(2 * v) + low, k) == if k == 0 then low == 1 else Bit(v, k - 1)
  {
    var w, t := v % 0x80, v / 0x80;
    var r: int := 2 * w + low;
    assert v == w + 0x80 * t && Byte(2 * v) == 2 * w;
    Halved(r, w);
    if k > 0 {
      AddedTop(w, t, k - 1);
      BitOfHalf(r, k - 1);
    }
    hide Byte;
  }

  lemma RightBits(v: byte, high: nat, k: nat)
    requires high < 2 && k < 8
    ensures Bit(v / 2 + 0x80 * high, k) == if k == 7 then high == 1 else Bit(v, k + 1)
  {
    AddedTop(v / 2, high, k);
    if k < 7 { BitOfHalf(v, k); }
  }

  lemma BitOfHalf(x: int, k: nat)
    requires k < 7 && 0 <= x
    ensures Bit(x, k + 1) == Bit(x / 2, k)
  {
  }

  lemma MaskBits(y: nat, k: nat)
    requires y < 8 && k < 8
    ensures Bit(Mask(y), k) == (k == y) && Bit(0xFF - Mask(y), k) == (k != y)
  {
    MaskIs(y);
    BitsOf(y == 0, y == 1, y == 2, y == 3, y == 4, y == 5, y == 6, y == 7);
    BitsOf(y != 0, y != 1, y != 2, y != 3, y != 4, y != 5, y != 6, y != 7);
    hide Bit, FromBits, Mask;
  }

  lemma MaskIs(y: nat)
    requires y < 8
    ensures Mask(y) == FromBits(y == 0, y == 1, y == 2, y == 3, y == 4, y == 5, y == 6, y == 7)
    ensures 0xFF - Mask(y) == FromBits(y != 0, y != 1, y != 2, y != 3, y != 4, y != 5, y != 6, y != 7)
  {
  }

  // ----- the instructions

  /** In `u` a two-byte instruction has run from `s` and left `v` in operand `z`; else only F, PC
      and R have changed. */
  predicate Left(s: State, u: State, z: nat, v: byte)
    requires z < 8
  {
    var c := With(s.core, z, v);
    && u.core == c.(regs := c.regs.(f := u.core.regs.f, r := Refresh(Refresh(s.core.regs.r)), pc := Word(PC(s) + 2)))
    && u.ctl == Unwait(s).ctl && Quiet(u)
  }

  lemma LeftIsHeld(s: State, u: State, z: nat, v: byte)
    requires z < 8 && Left(s, u, z, v)
    ensures Held(u.core, z) == v
  {
    HeldWith(s.core, z, v, z);
    hide With, Quiet, Refresh, Word, Unwait, Pair, Hi, Lo;
    assert Held(u.core, z) == Held(With(s.core, z, v), z);
  }

  /** A rotate or shift of any operand moves its bits as `Shifted` says, and puts the one that falls
      out into carry; the other conditions follow the result. */
  lemma ShiftStep(s: State, y: nat, z: nat, k: nat, cc: nat)
    requires Quiet(s) && y < 8 && z < 8 && k < 8 && cc < 8 && Code2(s, 0xCB, 8 * y + z)
    ensures var v, u := Held(s.core, z), After(s, 2);
            var w, f := Held(u.core, z), u.core.regs.f;
            && Left(s, u, z, w)
            && Bit(w, k) == Shifted(y, v, Holds(FlagByte(s.core.regs.f), 3), k)
            && Holds(FlagByte(f), 3) == ShiftedOut(y, v)
            && (cc != 2 && cc != 3 ==> (Holds(FlagByte(f), cc) <==> Says(cc, w)))
            && !f.h && !f.n
  {
    var v, c := Held(s.core, z), s.core.regs.f.c;
    CondHolds(s.core.regs.f, 3);
    CBLeaves(s, 0, y, z);
    LeftIsHeld(s, After(s, 2), z, Rot(y, v, c));
    RotBits(y, v, c, k);
    ShiftSays(y, v, s.core.regs.f, cc);
    hide Bit, Held, Left, Rot, RotCarry, Shifted, ShiftedOut, After, Holds, FlagByte, Says, ModifiedFlags, Quiet, Code2;
  }

  lemma CBLeaves(s: State, xop: nat, y: nat, z: nat)
    requires Quiet(s) && xop < 4 && xop != 1 && y < 8 && z < 8 && Code2(s, 0xCB, 0x40 * xop + 8 * y + z)
    ensures var v, f, u := Held(s.core, z), s.core.regs.f, After(s, 2);
            Left(s, u, z, Modified(xop, y, v, f.c)) && u.core.regs.f == ModifiedFlags(xop, y, v, f)
  {
    hide CB, Modified, ModifiedFlags, After, Spent, Quiet, Unwait, With, CBTime, Held, Word, Refresh, Code2, Fetched;
    var op := 0x40 * xop + 8 * y + z;
    CBCore(s.core, xop, y, z, op, PC(s), Word(PC(s) + 2));
    CBStep(s, op);
    assert After(s, 2).core.regs.f == ModifiedFlags(xop, y, Held(s.core, z), s.core.regs.f);
  }

  lemma CBCore(c: Core, xop: nat, y: nat, z: nat, op: byte, d: word, pc: word)
    requires xop < 4 && xop != 1 && y < 8 && z < 8 && op == 0x40 * xop + 8 * y + z
    ensures var v, m := Held(c, z), CB(Fetched(Fetched(c)), HL, op, d);
            var w := With(c, z, Modified(xop, y, v, c.regs.f.c));
            m.(regs := m.regs.(pc := pc))
            == w.(regs := w.regs.(f := ModifiedFlags(xop, y, v, c.regs.f), r := Refresh(Refresh(c.regs.r)), pc := pc))
  {
    CBTable(Fetched(Fetched(c)), xop, y, z, d);
    FetchedWith(c, z, Modified(xop, y, Held(c, z), c.regs.f.c));
    hide CB, Modified, ModifiedFlags, With, Held, Refresh, Fetched;
  }

  lemma CBTable(c: Core, xop: nat, y: nat, z: nat, d: word)
    requires xop < 4 && y < 8 && z < 8
    ensures var op, v := 0x40 * xop + 8 * y + z, Held(c, z);
            var w := With(c, z, Modified(xop, y, v, c.regs.f.c));
            CB(c, HL, op, d) ==
              if xop == 1 then c.(regs := c.regs.(f := BitFlags(y, v, if z == 6 then Hi(c.regs.wz) else v, c.regs.f)))
              else w.(regs := w.regs.(f := ModifiedFlags(xop, y, v, c.regs.f)))
  {
    hide Modified, ModifiedFlags, BitFlags, Hi, CBMemory, CBRegister, With, Held;
    CBParts(xop, y, z);
    if z == 6 { CBAtHL(c, xop, y, d); } else { CBInRegister(c, xop, y, z); }
  }

  lemma CBParts(xop: nat, y: nat, z: nat)
    requires xop < 4 && y < 8 && z < 8
    ensures var op := 0x40 * xop + 8 * y + z; op / 0x40 == xop && op / 8 % 8 == y && op % 8 == z
  {
  }

  lemma CBAtHL(c: Core, xop: nat, y: nat, d: word)
    requires xop < 4 && y < 8
    ensures var v := Held(c, 6);
            var w := With(c, 6, Modified(xop, y, v, c.regs.f.c));
            CBMemory(c, HL, xop, y, d) ==
              if xop == 1 then c.(regs := c.regs.(f := BitFlags(y, v, Hi(c.regs.wz), c.regs.f)))
              else w.(regs := w.regs.(f := ModifiedFlags(xop, y, v, c.regs.f)))
  {
    hide Modified, ModifiedFlags, BitFlags, Hi;
  }

  lemma CBInRegister(c: Core, xop: nat, y: nat, z: nat)
    requires xop < 4 && y < 8 && z < 8 && z != 6
    ensures var v := Held(c, z);
            var w := With(c, z, Modified(xop, y, v, c.regs.f.c));
            c.(regs := CBRegister(c.regs, HL, xop, y, z)) ==
              if xop == 1 then c.(regs := c.regs.(f := BitFlags(y, v, v, c.regs.f)))
              else w.(regs := w.regs.(f := ModifiedFlags(xop, y, v, c.regs.f)))
  {
    hide Modified, ModifiedFlags, BitFlags, Get8, Set8;
  }

  /** Fetching does not touch operands. */
  lemma FetchedWith(c: Core, z: nat, v: byte)
    requires z < 8
    ensures var f := Fetched(Fetched(c));
            && Held(f, z) == Held(c, z) && f.regs.f == c.regs.f
            && With(f, z, v)
               == With(c, z, v).(regs := With(c, z, v).regs.(pc := f.regs.pc, r := Refresh(Refresh(c.regs.r))))
            && f.regs.r == Refresh(Refresh(c.regs.r))
  {
    hide Pair, Hi, Lo, Refresh, Word;
  }

  lemma ShiftSays(y: nat, v: byte, f: Flags, cc: nat)
    requires y < 8 && cc < 8
    ensures var f', w := ModifiedFlags(0, y, v, f), Rot(y, v, f.c);
            && Holds(FlagByte(f'), 3) == RotCarry(y, v) && !f'.h && !f'.n
            && (cc != 2 && cc != 3 ==> (Holds(FlagByte(f'), cc) <==> Says(cc, w)))
  {
    var f' := ModifiedFlags(0, y, v, f);
    CondHolds(f', cc);
    CondHolds(f', 3);
    OnesAreTwo(Rot(y, v, f.c));
    hide Holds, FlagByte, Rot, RotCarry, Bit, OnesMod2;
  }

  /** BIT sets Z exactly when the bit is clear, and changes nothing but F; carry stays. */
  lemma BitStep(s: State, y: nat, z: nat)
    requires Quiet(s) && y < 8 && z < 8 && Code2(s, 0xCB, 0x40 + 8 * y + z)
    ensures var r, u := s.core.regs, After(s, 2);
            var f := u.core.regs.f;
            && (Holds(FlagByte(f), 1) <==> !Bit(Held(s.core, z), y))
            && (Holds(FlagByte(f), 3) <==> Holds(FlagByte(r.f), 3)) && f.h && !f.n
            && u.core == s.core.(regs := r.(f := f, r := Refresh(Refresh(r.r)), pc := Word(PC(s) + 2)))
            && u.ctl == Unwait(s).ctl && Quiet(u)
  {
    var v, c := Held(s.core, z), Fetched(Fetched(s.core));
    CBTable(c, 1, y, z, PC(s));
    FetchedWith(s.core, z, v);
    BitSays(y, v, if z == 6 then Hi(c.regs.wz) else v, s.core.regs.f);
    CondHolds(s.core.regs.f, 3);
    hide CB, BitFlags, After, Spent, Quiet, Unwait, With, CBTime, Held, Holds, FlagByte, Bit, Hi;
    CBStep(s, 0x40 + 8 * y + z);
  }

  lemma BitSays(y: nat, v: byte, undoc: byte, f: Flags)
    requires y < 8
    ensures var f' := BitFlags(y, v, undoc, f);
            && (Holds(FlagByte(f'), 1) <==> !Bit(v, y)) && (Holds(FlagByte(f'), 3) <==> f.c) && f'.h && !f'.n
  {
    var f' := BitFlags(y, v, undoc, f);
    CondHolds(f', 1);
    CondHolds(f', 3);
    OneBit(y, v);
    hide Holds, FlagByte, Bit, And8, OnesMod2;
  }

  /** Masking with one bit leaves zero exactly when that bit is clear. */
  lemma OneBit(y: nat, v: byte)
    requires y < 8
    ensures And8(v, Mask(y)) == 0 <==> !Bit(v, y)
  {
    hide Bit, And8, Mask;
    forall k: nat | k < 8 ensures Bit(And8(v, Mask(y)), k) == (k == y && Bit(v, k)) && !Bit(0, k) {
      AndBits(v, Mask(y), k);
      MaskBits(y, k);
      ZeroBits(k);
    }
    if !Bit(v, y) { SameByte(And8(v, Mask(y)), 0); }
  }

  /** RES clears its bit and SET sets it; the other bits and the flags stay. */
  lemma ResSetStep(s: State, on: bool, y: nat, z: nat, k: nat)
    requires Quiet(s) && y < 8 && z < 8 && k < 8 && Code2(s, 0xCB, (if on then 0xC0 else 0x80) + 8 * y + z)
    ensures var v, u := Held(s.core, z), After(s, 2);
            var w := Held(u.core, z);
            && Left(s, u, z, w) && u.core.regs.f == s.core.regs.f
            && Bit(w, k) == if k == y then on else Bit(v, k)
  {
    var v, xop := Held(s.core, z), if on then 3 else 2;
    var w := Modified(xop, y, v, s.core.regs.f.c);
    MaskBits(y, k);
    AndBits(v, 0xFF - Mask(y), k);
    OrBits(v, Mask(y), k);
    CBLeaves(s, xop, y, z);
    LeftIsHeld(s, After(s, 2), z, w);
    hide CB, After, Quiet, With, Held, Bit, And8, Or8, Mask, Left, Code2;
  }

  // ----- A alone

  /** RLCA, RRCA, RLA and RRA move the bits of A as RLC, RRC, RL and RR do, but leave S, Z and PV. */
  lemma AccumulatorStep(s: State, y: nat, k: nat)
    requires Quiet(s) && y < 4 && k < 8 && Code(s, 8 * y + 7)
    ensures var r, u := s.core.regs, After(s, 1);
            var f := u.core.regs.f;
            && Bit(u.core.regs.a, k) == Shifted(y, r.a, Holds(FlagByte(r.f), 3), k)
            && Holds(FlagByte(f), 3) == ShiftedOut(y, r.a)
            && f.s == r.f.s && f.z == r.f.z && f.pv == r.f.pv && !f.h && !f.n
            && u.core == s.core.(regs := Ready(s).(a := u.core.regs.a, f := f, pc := Word(PC(s) + 1)))
            && u.ctl == Unwait(s).ctl && Quiet(u)
  {
    AccumulatorTable(Fetched(s.core), y, PC(s));
    CondHolds(s.core.regs.f, 3);
    CondHolds(After(s, 1).core.regs.f, 3);
    RotBits(y, s.core.regs.a, s.core.regs.f.c, k);
    hide Main, MainTarget, MainLength, MainTime, After, Spent, Quiet, Unwait, Rot, RotCarry, Holds, FlagByte, Bit;
    hide Shifted, ShiftedOut, Refresh, Word;
    PlainStep(s, 8 * y + 7);
  }

  lemma AccumulatorTable(c: Core, y: nat, at: word)
    requires y < 8
    ensures var op := 8 * y + 7;
            && Plain(op) && Main(c, HL, op, at) == c.(regs := Z80.Accumulator(c.regs, y))
            && MainTarget(c, HL, op, at) == Stay && MainLength(HL, op) == 1
  {
    var op := 8 * y + 7;
    assert op / 0x40 == 0 && op / 8 % 8 == y && op % 8 == 7;
    hide Z80.Accumulator, Taken;
  }

  // ----- numbers of any length

  /** SLA is RL, and SRL is RR, with carry clear. */
  lemma ShiftIsRotate(v: byte, c: bool)
    ensures Rot(4, v, c) == Rot(2, v, false) && RotCarry(4, v) == RotCarry(2, v)
    ensures Rot(7, v, c) == Rot(3, v, false) && RotCarry(7, v) == RotCarry(3, v)
  {
  }

  /** RL (or with no carry in, SLA and then RL) from the low end up: the bytes, and the carry out. */
  function LeftChain(c: bool, xs: seq<byte>): (r: (seq<byte>, bool))
    ensures |r.0| == |xs|
    decreases |xs|
  {
    if xs == [] then ([], c)
    else
      var rest := LeftChain(RotCarry(2, xs[0]), xs[1..]);
      ([Rot(2, xs[0], c)] + rest.0, rest.1)
  }

  /** It doubles the number, the carry coming in at the bottom and going out at the top. */
  lemma {:induction false} LeftDoubles(c: bool, xs: seq<byte>)
    ensures var r := LeftChain(c, xs);
            Value(r.0) + (if r.1 then Power(0x100, |xs|) else 0) == 2 * Value(xs) + if c then 1 else 0
    decreases |xs|
  {
    if xs != [] {
      LeftDoubles(RotCarry(2, xs[0]), xs[1..]);
      var r, rest := LeftChain(c, xs), LeftChain(RotCarry(2, xs[0]), xs[1..]);
      assert r.0[1..] == rest.0;
      LeftOne(xs[0], c);
      hide Rot, RotCarry;
      assert Value(r.0) == Rot(2, xs[0], c) + 0x100 * Value(rest.0);
      assert Power(0x100, |xs|) == 0x100 * Power(0x100, |xs| - 1);
    }
  }

  lemma LeftOne(v: byte, c: bool)
    ensures Rot(2, v, c) + (if RotCarry(2, v) then 0x100 else 0) == 2 * v + if c then 1 else 0
  {
  }

  /** RR (or with no carry in, SRL and then RR) from the high end down. */
  function RightChain(c: bool, xs: seq<byte>): (r: (seq<byte>, bool))
    ensures |r.0| == |xs|
    decreases |xs|
  {
    if xs == [] then ([], c)
    else
      var upper := RightChain(c, xs[1..]);
      ([Rot(3, xs[0], upper.1)] + upper.0, RotCarry(3, xs[0]))
  }

  /** It halves the number: the carry comes in at the top, and the remainder is the carry out. */
  lemma {:induction false} RightHalves(c: bool, xs: seq<byte>)
    ensures var r := RightChain(c, xs);
            2 * Value(r.0) + (if r.1 then 1 else 0) == Value(xs) + if c then Power(0x100, |xs|) else 0
    decreases |xs|
  {
    if xs != [] {
      RightHalves(c, xs[1..]);
      var r, upper := RightChain(c, xs), RightChain(c, xs[1..]);
      assert r.0[1..] == upper.0;
      RightOne(xs[0], upper.1);
      hide Rot, RotCarry;
    }
  }

  lemma RightOne(v: byte, c: bool)
    ensures 2 * Rot(3, v, c) + (if RotCarry(3, v) then 1 else 0) == v + if c then 0x100 else 0
  {
  }
}
