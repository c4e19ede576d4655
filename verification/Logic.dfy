/** The eight ALU operations as programs see them: the bits and numbers they leave in A, and what
    the conditional instructions behind them do. */
module Logic {
  import opened Bytes
  import opened Bitwise
  import opened Operands
  import opened Registers
  import opened Z80
  import opened Runs
  import opened Steps
  import opened Jumps
  import Arithmetic

  /** The second operand: the byte behind the opcode, a register, or with `z` 6 the byte at HL. */
  datatype Form = Immediate | Operand(z: nat)

  function Opcode(y: nat, form: Form): byte
    requires y < 8 && (form.Operand? ==> form.z < 8)
  {
    if form.Immediate? then 0xC6 + 8 * y else 0x80 + 8 * y + form.z
  }

  function Source(s: State, form: Form): byte
    requires form.Operand? ==> form.z < 8
  {
    if form.Immediate? then s.core.mem[Word(PC(s) + 1)] else Held(s.core, form.z)
  }

  /** About to run ALU operation `y`. */
  predicate Does(s: State, y: nat, form: Form) {
    y < 8 && (form.Operand? ==> form.z < 8) && Quiet(s) && Code(s, Opcode(y, form))
  }

  function Behind(s: State, form: Form): word { Word(PC(s) + if form.Immediate? then 2 else 1) }

  lemma AluStep(s: State, y: nat, form: Form)
    requires Does(s, y, form)
    ensures var u := After(s, 1);
            && u.core == s.core.(regs := Alu(Ready(s), y, Source(s, form)).(pc := Behind(s, form)))
            && u.ctl == Unwait(s).ctl && Quiet(u)
  {
    AluYields(s.core, y, form, PC(s));
    AluKeepsR(Ready(s), y, Source(s, form));
    hide After, Unwait, Quiet, Alu, Word, Refresh, Opcode, Code, Yields, Held;
    var c := s.core.(regs := Alu(Ready(s), y, Source(s, form)));
    StraightOn(s, Opcode(y, form), c, if form.Immediate? then 2 else 1);
  }

  lemma AluYields(c: Core, y: nat, form: Form, at: word)
    requires y < 8 && (form.Operand? ==> form.z < 8)
    ensures var v := if form.Immediate? then c.mem[Word(at + 1)] else Held(c, form.z);
            Yields(c, Opcode(y, form), at, c.(regs := Alu(c.regs.(r := Refresh(c.regs.r)), y, v)),
                   if form.Immediate? then 2 else 1)
  {
    var f, r := Fetched(c), c.regs.(r := Refresh(c.regs.r));
    var v := if form.Immediate? then c.mem[Word(at + 1)] else Held(c, form.z);
    AluTable(f, y, form, at);
    AluIgnoresPC(r, y, v, f.regs.pc);
    AluKeepsR(r, y, v);
    hide Main, MainTarget, MainLength, Alu, Word, Refresh, Opcode, Plain;
  }

  lemma AluKeepsR(r: Regs, y: nat, v: byte)
    requires y < 8
    ensures Alu(r, y, v).r == r.r
  {
    hide SumFlags, DifferenceFlags, ResultFlags, And8, Or8, Xor8;
  }

  lemma AluTable(c: Core, y: nat, form: Form, at: word)
    requires y < 8 && (form.Operand? ==> form.z < 8)
    ensures var op := Opcode(y, form);
            var v := if form.Immediate? then c.mem[Word(at + 1)] else Held(c, form.z);
            && Plain(op) && Main(c, HL, op, at) == c.(regs := Alu(c.regs, y, v))
            && MainTarget(c, HL, op, at) == Stay && MainLength(HL, op) == if form.Immediate? then 2 else 1
  {
    var op := Opcode(y, form);
    if form.Immediate? {
      assert op / 0x40 == 3 && op / 8 % 8 == y && op % 8 == 6;
    } else {
      assert op / 0x40 == 2 && op / 8 % 8 == y && op % 8 == form.z;
    }
    hide Alu, Word, Get8;
  }

  lemma AluIgnoresPC(r: Regs, y: nat, v: byte, pc: word)
    requires y < 8
    ensures Alu(r.(pc := pc), y, v) == Alu(r, y, v).(pc := pc)
  {
    hide SumFlags, DifferenceFlags, ResultFlags, And8, Or8, Xor8;
  }

  // ----- AND, XOR and OR

  /** What a conditional instruction finds after a logical operation that left `a`. */
  predicate Says(cc: nat, a: byte)
    requires cc < 8
  {
    match cc
    case 0 => a != 0 case 1 => a == 0 case 2 => true case 3 => false
    case 4 => OnesMod2(a) == 1 case 5 => OnesMod2(a) == 0 case 6 => a < 0x80 case _ => a >= 0x80
  }

  /** Bit by bit: AND keeps what both have, XOR what only one has, OR what either has. The
      conditions follow the result, with PE for an even number of ones; carry is clear. Nothing
      else changes. */
  lemma LogicBits(s: State, y: nat, form: Form, k: nat, cc: nat)
    requires Does(s, y, form) && 4 <= y <= 6 && k < 8 && cc < 8
    ensures var r, v, u := s.core.regs, Source(s, form), After(s, 1);
            var a := u.core.regs.a;
            && Bit(a, k) == (if y == 4 then Bit(r.a, k) && Bit(v, k)
                             else if y == 5 then Bit(r.a, k) != Bit(v, k) else Bit(r.a, k) || Bit(v, k))
            && (Holds(FlagByte(u.core.regs.f), cc) <==> Says(cc, a))
            && u.core.regs.f.h == (y == 4) && !u.core.regs.f.n
            && u.core == s.core.(regs := Ready(s).(a := a, f := u.core.regs.f, pc := Behind(s, form)))
            && Quiet(u)
  {
    var r, v := Ready(s), Source(s, form);
    AluStep(s, y, form);
    AndBits(r.a, v, k);
    OrBits(r.a, v, k);
    XorBits(r.a, v, k);
    LogicSays(r, y, v, cc);
    hide Bit, And8, Or8, Xor8, After, Quiet, Does, Holds, FlagByte, Says, ResultFlags;
  }

  lemma LogicSays(r: Regs, y: nat, v: byte, cc: nat)
    requires 4 <= y <= 6 && cc < 8
    ensures var r' := Alu(r, y, v);
            && (Holds(FlagByte(r'.f), cc) <==> Says(cc, r'.a)) && r'.f.h == (y == 4) && !r'.f.n
            && r'.a == (if y == 4 then And8(r.a, v) else if y == 5 then Xor8(r.a, v) else Or8(r.a, v))
            && r' == r.(a := r'.a, f := r'.f)
  {
    var r' := Alu(r, y, v);
    OnesAreTwo(r'.a);
    CondHolds(r'.f, cc);
    hide Bit, And8, Or8, Xor8, Holds, FlagByte, OnesMod2;
  }

  lemma OnesAreTwo(a: nat)
    ensures 0 <= OnesMod2(a) <= 1
  {
  }

  /** XOR A clears A, sets Z and PE and clears carry; AND A and OR A leave A alone and clear carry. */
  lemma WithItself(s: State, y: nat)
    requires Does(s, y, Operand(7)) && 4 <= y <= 6
    ensures var u := After(s, 1);
            && u.core.regs.a == (if y == 5 then 0 else s.core.regs.a)
            && !Holds(FlagByte(u.core.regs.f), 3)
            && (y == 5 ==> Holds(FlagByte(u.core.regs.f), 1) && Holds(FlagByte(u.core.regs.f), 5))
  {
    var a, want := After(s, 1).core.regs.a, if y == 5 then 0 else s.core.regs.a;
    assert Source(s, Operand(7)) == s.core.regs.a;
    forall k: nat | k < 8 ensures Bit(a, k) == Bit(want, k) {
      LogicBits(s, y, Operand(7), k, 0);
      ZeroBits(k);
      hide Bit, After, Does;
    }
    SameByte(a, want);
    LogicBits(s, y, Operand(7), 0, 3);
    LogicBits(s, y, Operand(7), 0, 1);
    LogicBits(s, y, Operand(7), 0, 5);
    assert OnesMod2(0) == 0;
    hide Bit, After, Does, Holds, FlagByte;
  }

  lemma ZeroBits(k: nat)
    requires k < 8
    ensures !Bit(0, k)
  {
  }

  /** XOR with the same byte twice gives A back. */
  lemma XorTwice(s: State, v: byte)
    requires Does(s, 5, Immediate) && Code2(s, 0xEE, v)
    requires s.core.mem[Word(PC(s) + 2)] == 0xEE && s.core.mem[Word(PC(s) + 3)] == v
    ensures After(s, 2).core.regs.a == s.core.regs.a
  {
    var u := After(s, 1);
    SecondXor(s, v);
    hide Bit, After, Does, Source;
    AfterAdd(s, 1, 1);
    Differs(s, Immediate);
    Differs(u, Immediate);
    assert forall k: nat :: k < 8 ==> Bit(After(u, 1).core.regs.a, k) == Bit(s.core.regs.a, k);
    SameByte(After(u, 1).core.regs.a, s.core.regs.a);
  }

  lemma SecondXor(s: State, v: byte)
    requires Does(s, 5, Immediate) && Code2(s, 0xEE, v)
    requires s.core.mem[Word(PC(s) + 2)] == 0xEE && s.core.mem[Word(PC(s) + 3)] == v
    ensures var u := After(s, 1); Does(u, 5, Immediate) && Source(u, Immediate) == Source(s, Immediate) == v
  {
    WordPlus(PC(s) + 2, 1);
    hide Bit, After, Quiet, Word, Holds, FlagByte, Refresh, Says;
    LogicBits(s, 5, Immediate, 0, 0);
  }

  lemma Differs(s: State, form: Form)
    requires Does(s, 5, form)
    ensures forall k: nat :: k < 8 ==>
              Bit(After(s, 1).core.regs.a, k) == (Bit(s.core.regs.a, k) != Bit(Source(s, form), k))
  {
    hide Bit, After, Source, Holds, FlagByte, Quiet, Code, Opcode;
    forall k: nat | k < 8
      ensures Bit(After(s, 1).core.regs.a, k) == (Bit(s.core.regs.a, k) != Bit(Source(s, form), k))
    {
      LogicBits(s, 5, form, k, 0);
    }
  }

  // ----- CP

  /** What a conditional instruction finds after comparing `a` with `v`. */
  predicate Compares(cc: nat, a: byte, v: byte)
    requires cc < 8
  {
    match cc
    case 0 => a != v case 1 => a == v case 2 => a >= v case 3 => a < v
    case 4 => -0x80 <= Signed8(a) - Signed8(v) < 0x80 case 5 => !(-0x80 <= Signed8(a) - Signed8(v) < 0x80)
    case 6 => (a - v) % 0x100 < 0x80 case _ => (a - v) % 0x100 >= 0x80
  }

  /** CP changes nothing but F, and the conditions follow the comparison: NZ and Z for different
      and equal, NC and C for not less and less, PO and PE for a signed difference that fits and
      one that does not, P and M for the sign of what is left of it. */
  lemma CompareHolds(s: State, form: Form, cc: nat)
    requires Does(s, 7, form) && cc < 8
    ensures var u := After(s, 1);
            && (Holds(FlagByte(u.core.regs.f), cc) <==> Compares(cc, s.core.regs.a, Source(s, form)))
            && u.core == s.core.(regs := Ready(s).(f := u.core.regs.f, pc := Behind(s, form))) && Quiet(u)
  {
    AluStep(s, 7, form);
    CompareFlags(Ready(s), Source(s, form), cc);
    hide Compares, Holds, FlagByte, After, Quiet, Does, Alu;
  }

  lemma CompareFlags(r: Regs, v: byte, cc: nat)
    requires cc < 8
    ensures var r' := Alu(r, 7, v);
            && (Holds(FlagByte(r'.f), cc) <==> Compares(cc, r.a, v)) && r' == r.(f := r'.f)
  {
    CondHolds(Alu(r, 7, v).f, cc);
    DifferenceIs(r.a, v);
    hide Bit, Holds, FlagByte, Byte;
  }

  lemma DifferenceIs(a: byte, v: byte)
    ensures Byte(a - v) == (a - v) % 0x100 == a - v + if a < v then 0x100 else 0
  {
  }

  /** After CP, signed order is S differing from PV. */
  lemma SignedLess(s: State, form: Form)
    requires Does(s, 7, form)
    ensures var f := FlagByte(After(s, 1).core.regs.f);
            (Holds(f, 7) != Holds(f, 5)) <==> Signed8(s.core.regs.a) < Signed8(Source(s, form))
  {
    CompareHolds(s, form, 7);
    CompareHolds(s, form, 5);
    SignedOrder(s.core.regs.a, Source(s, form));
    hide Holds, FlagByte, After, Does, Source, Compares, Signed8;
  }

  lemma SignedOrder(a: byte, v: byte)
    ensures Compares(7, a, v) != Compares(5, a, v) <==> Signed8(a) < Signed8(v)
  {
    DifferenceIs(a, v);
  }

  // ----- what comes behind

  /** A conditional jump, relative jump, call or return at PC, where it goes if taken, and where if not. */
  datatype Branching = JP(nn: word) | JR(d: byte) | CALL(entry: word) | RET

  predicate Branches(s: State, b: Branching, cc: nat)
    requires cc < 8
  {
    match b
    case JP(nn) => Code3(s, 0xC2 + 8 * cc, Lo(nn), Hi(nn))
    case JR(d) => cc < 4 && Code2(s, 0x20 + 8 * cc, d)
    case CALL(entry) => Code3(s, 0xC4 + 8 * cc, Lo(entry), Hi(entry))
    case RET => Code(s, 0xC0 + 8 * cc)
  }

  function Goes(s: State, b: Branching, taken: bool): word {
    match b
    case JP(nn) => if taken then nn else Word(PC(s) + 3)
    case JR(d) => Word(PC(s) + 2 + if !taken then 0 else if d < 0x80 then d else d - 0x100)
    case CALL(entry) => if taken then entry else Word(PC(s) + 3)
    case RET => if taken then OnStack(s.core.mem, s.core.regs.sp) else Word(PC(s) + 1)
  }

  lemma BranchGoes(s: State, b: Branching, cc: nat)
    requires cc < 8 && Quiet(s) && Branches(s, b, cc)
    ensures PC(After(s, 1)) == Goes(s, b, Holds(FlagByte(s.core.regs.f), cc))
  {
    hide After, Spent, Quiet, Unwait, Refresh, Holds, FlagByte, OnStack, Stacked, Word, Lo, Hi, Code;
    match b
    case JP(nn) => JumpIf(s, cc, nn);
    case JR(d) => JumpRelativeIf(s, cc, d);
    case CALL(entry) => CallIf(s, cc, entry);
    case RET => ReturnIf(s, cc);
  }

  /** A comparison and a branch behind it: the branch is taken exactly when the numbers compare as
      its condition says. */
  lemma CompareThenBranch(s: State, form: Form, b: Branching, cc: nat)
    requires cc < 8 && Does(s, 7, form) && Branches(After(s, 1), b, cc)
    ensures PC(After(s, 2)) == Goes(After(s, 1), b, Compares(cc, s.core.regs.a, Source(s, form)))
  {
    hide After, Quiet, Holds, FlagByte, OnStack, Word, Compares, Does, Branches, Goes, Source;
    CompareHolds(s, form, cc);
    BranchGoes(After(s, 1), b, cc);
    AfterAdd(s, 1, 1);
  }

  /** Likewise behind AND, XOR and OR. */
  lemma LogicThenBranch(s: State, y: nat, form: Form, b: Branching, cc: nat)
    requires cc < 8 && Does(s, y, form) && 4 <= y <= 6 && Branches(After(s, 1), b, cc)
    ensures PC(After(s, 2)) == Goes(After(s, 1), b, Says(cc, After(s, 1).core.regs.a))
  {
    hide After, Quiet, Holds, FlagByte, OnStack, Word, Says, Does, Branches, Goes, Source;
    LogicBits(s, y, form, 0, cc);
    BranchGoes(After(s, 1), b, cc);
    AfterAdd(s, 1, 1);
  }

  // ----- ADD, ADC, SUB and SBC

  /** A and carry are together the exact sum or difference; ADC and SBC count the carry before.
      PV tells whether the signed result fits. */
  lemma AddsExactly(s: State, y: nat, form: Form)
    requires Does(s, y, form) && y < 4
    ensures var r, v, u := s.core.regs, Source(s, form), After(s, 1);
            var r', c := u.core.regs, if y % 2 == 1 && Bit(FlagByte(r.f), 0) then 1 else 0;
            var carry := if Bit(FlagByte(r'.f), 0) then 0x100 else 0;
            var exact := if y < 2 then Signed8(r.a) + Signed8(v) + c else Signed8(r.a) - Signed8(v) - c;
            && (if y < 2 then r'.a + carry == r.a + v + c else r'.a - carry == r.a - v - c)
            && (Holds(FlagByte(r'.f), 5) <==> !(-0x80 <= exact < 0x80))
            && (Holds(FlagByte(r'.f), 1) <==> r'.a == 0) && (Holds(FlagByte(r'.f), 7) <==> r'.a >= 0x80)
            && u.core == s.core.(regs := Ready(s).(a := r'.a, f := r'.f, pc := Behind(s, form)))
  {
    AluStep(s, y, form);
    AddsExactlyRegs(Ready(s), y, Source(s, form));
    hide Holds, FlagByte, After, Quiet, Does, Alu, Bit, Source;
  }

  lemma AddsExactlyRegs(r: Regs, y: nat, v: byte)
    requires y < 4
    ensures var r', c := Alu(r, y, v), if y % 2 == 1 && Bit(FlagByte(r.f), 0) then 1 else 0;
            var carry := if Bit(FlagByte(r'.f), 0) then 0x100 else 0;
            var exact := if y < 2 then Signed8(r.a) + Signed8(v) + c else Signed8(r.a) - Signed8(v) - c;
            && (if y < 2 then r'.a + carry == r.a + v + c else r'.a - carry == r.a - v - c)
            && (Holds(FlagByte(r'.f), 5) <==> !(-0x80 <= exact < 0x80))
            && (Holds(FlagByte(r'.f), 1) <==> r'.a == 0) && (Holds(FlagByte(r'.f), 7) <==> r'.a >= 0x80)
            && r' == r.(a := r'.a, f := r'.f)
  {
    SameAsStep(r, y, v);
    CarryBit(r.f);
    hide Holds, FlagByte, Alu, Bit, Arithmetic.Step, Signed8;
    match y {
      case 0 => StepExactly(r.f.(c := false), r.a, v, false, r);
      case 1 => StepExactly(r.f, r.a, v, false, r);
      case 2 => StepExactly(r.f.(c := false), r.a, v, true, r);
      case _ => StepExactly(r.f, r.a, v, true, r);
    }
  }

  lemma StepExactly(f: Flags, x: byte, v: byte, sub: bool, r: Regs)
    ensures var s := Arithmetic.Step(f, x, v, sub, r);
            var carry, c := if Bit(FlagByte(s.f), 0) then 0x100 else 0, if f.c then 1 else 0;
            var exact := if sub then Signed8(x) - Signed8(v) - c else Signed8(x) + Signed8(v) + c;
            && (if sub then s.a - carry == x - v - c else s.a + carry == x + v + c)
            && (Holds(FlagByte(s.f), 5) <==> !(-0x80 <= exact < 0x80))
            && (Holds(FlagByte(s.f), 1) <==> s.a == 0) && (Holds(FlagByte(s.f), 7) <==> s.a >= 0x80)
            && s == r.(a := s.a, f := s.f)
  {
    var s := Arithmetic.Step(f, x, v, sub, r);
    CarryBit(s.f);
    CondHolds(s.f, 5);
    CondHolds(s.f, 1);
    CondHolds(s.f, 7);
    Arithmetic.StepValue(f, x, v, sub, r);
    Arithmetic.StepOverflow(f, x, v, sub, r);
    StepSigns(f, x, v, sub, r);
    hide Holds, FlagByte, Bit, Arithmetic.Step, Signed8;
  }

  lemma CarryBit(f: Flags)
    ensures Bit(FlagByte(f), 0) == f.c
  {
    FlagByteIs(f);
    BitsOf(f.c, f.n, f.pv, f.f3, f.h, f.f5, f.z, f.s);
    hide Bit, FromBits, FlagByte;
  }

  lemma SameAsStep(r: Regs, y: nat, v: byte)
    requires y < 4
    ensures y == 0 ==> Alu(r, y, v) == Arithmetic.Step(r.f.(c := false), r.a, v, false, r)
    ensures y == 1 ==> Alu(r, y, v) == Arithmetic.Step(r.f, r.a, v, false, r)
    ensures y == 2 ==> Alu(r, y, v) == Arithmetic.Step(r.f.(c := false), r.a, v, true, r)
    ensures y == 3 ==> Alu(r, y, v) == Arithmetic.Step(r.f, r.a, v, true, r)
  {
    Arithmetic.FirstStep(r, v);
    assert r.(a := r.a, f := r.f) == r;
    hide Alu;
  }

  lemma StepSigns(f: Flags, x: byte, y: byte, sub: bool, r: Regs)
    ensures var s := Arithmetic.Step(f, x, y, sub, r);
            s.f.z == (s.a == 0) && s.f.s == (s.a >= 0x80) && s == r.(a := s.a, f := s.f)
  {
    hide Sum, Difference, Bit;
  }
}
