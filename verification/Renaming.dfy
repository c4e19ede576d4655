/** A DD or FD prefix is a renaming of HL to IX or IY. */
module Renaming {
  import opened Bytes
  import opened Registers
  import opened Z80
  import opened Invariants

  function SwapRegs(r: Regs, x: Index): Regs { SetX(r.(hl := GetX(r, x)), x, r.hl) }

  function SwapCore(c: Core, x: Index): Core { c.(regs := SwapRegs(c.regs, x)) }

  function Swap(s: State, x: Index): State { s.(core := SwapCore(s.core, x)) }

  /** Opcodes of the main table with no (HL) operand, other than EX DE,HL, EXX and the prefixes. */
  predicate Renamed(op: byte) {
    var y, z := op / 8 % 8, op % 8;
    && !IsPrefixOp(op) && op != 0xEB && op != 0xD9
    && (op / 0x40 == 0 ==> !(4 <= z <= 6 && y == 6))
    && (op / 0x40 == 1 ==> (y == 6 <==> z == 6))
    && (op / 0x40 == 2 ==> z != 6)
  }

  lemma OperandsSwap(r: Regs, x: Index, i: nat, v: byte)
    requires i < 8 && i != 6
    ensures Get8(SwapRegs(r, x), HL, i) == Get8(r, x, i)
    ensures SwapRegs(Set8(SwapRegs(r, x), HL, i, v), x) == Set8(r, x, i, v)
  {
  }

  lemma PairsSwap(r: Regs, x: Index, p: nat, stack: bool, w: word)
    requires p < 4
    ensures GetPair(SwapRegs(r, x), HL, p, stack) == GetPair(r, x, p, stack)
    ensures SwapRegs(SetPair(SwapRegs(r, x), HL, p, stack, w), x) == SetPair(r, x, p, stack, w)
  {
    hide FlagByte, ByteFlags;
  }

  lemma AluSwap(r: Regs, x: Index, i: nat, v: byte)
    requires i < 8
    ensures SwapRegs(Alu(SwapRegs(r, x), i, v), x) == Alu(r, i, v)
  {
    hide SumFlags, DifferenceFlags, ResultFlags, And8, Or8, Xor8, Bit, EvenParity, Byte;
  }

  lemma Add16Swap(r: Regs, x: Index, v: word)
    ensures SwapRegs(Add16(SwapRegs(r, x), HL, v), x) == Add16(r, x, v)
  {
    hide Bit, Word, Hi;
  }

  lemma AccumulatorSwap(r: Regs, x: Index, y: nat)
    requires y < 8
    ensures SwapRegs(Accumulator(SwapRegs(r, x), y), x) == Accumulator(r, y)
  {
    hide Bit, Byte, Rot, RotCarry, ResultFlags, EvenParity;
  }

  lemma BranchSwap(r: Regs, x: Index, y: nat, target: word)
    requires y < 8
    ensures SwapRegs(Branch(SwapRegs(r, x), y, target), x) == Branch(r, y, target)
    ensures Taken(SwapRegs(r, x), y) == Taken(r, y)
  {
    hide FlagByte, ByteFlags, Hi, Lo, Pair, Byte;
  }

  lemma Main31Swap(r: Regs, x: Index, y: nat, top: word)
    requires y < 8 && y != 3
    ensures SwapRegs(Main31(SwapRegs(r, x), HL, y, top), x) == Main31(r, x, y, top)
  {
    if y % 2 == 0 {
      PairsSwap(Drop(r), x, y / 2, true, top);
      assert SwapRegs(Drop(r), x) == Drop(SwapRegs(r, x));
    }
    hide SetPair, FlagByte, ByteFlags, Word;
  }

  lemma IndirectSwap(c: Core, x: Index, y: nat, nn: word)
    requires y < 8
    ensures SwapCore(Indirect(SwapCore(c, x), HL, y, nn), x) == Indirect(c, x, y, nn)
  {
    hide ReadWord, WriteWord;
  }

  lemma IncDecSwap(c: Core, x: Index, y: nat, up: bool, at: word)
    requires y < 8 && y != 6
    ensures SwapCore(IncDec(SwapCore(c, x), HL, y, up, at), x) == IncDec(c, x, y, up, at)
  {
    hide Get8, Set8, Stepped, IncDecFlags;
    var v := Get8(c.regs, x, y);
    OperandsSwap(c.regs, x, y, Stepped(v, up));
    FlagsSwap(Set8(SwapRegs(c.regs, x), HL, y, Stepped(v, up)), x, IncDecFlags(c.regs.f, v, up));
  }

  lemma FlagsSwap(r: Regs, x: Index, f: Flags)
    ensures SwapRegs(r.(f := f), x) == SwapRegs(r, x).(f := f)
  {
  }

  lemma Main0Swap(c: Core, x: Index, y: nat, z: nat, at: word)
    requires y < 8 && z < 8 && (4 <= z <= 6 ==> y != 6)
    ensures SwapCore(Main0(SwapCore(c, x), HL, y, z, at), x) == Main0(c, x, y, z, at)
  {
    hide GetPair, SetPair, Get8, Set8, Add16, Branch, Indirect, IncDec, Accumulator, RelativeTarget, ReadWord, SwapRegs;
    var r := c.regs;
    match z
    case 0 => BranchSwap(r, x, y, RelativeTarget(c.mem, at));
    case 1 =>
      if y % 2 == 0 { PairsSwap(r, x, y / 2, false, ReadWord(c.mem, Word(at + 1))); }
      else { PairsSwap(r, x, y / 2, false, 0); Add16Swap(r, x, GetPair(r, x, y / 2, false)); }
    case 2 => IndirectSwap(c, x, y, ReadWord(c.mem, Word(at + 1)));
    case 3 =>
      var v: int := GetPair(r, x, y / 2, false);
      PairsSwap(r, x, y / 2, false, Word(v + 1));
      PairsSwap(r, x, y / 2, false, Word(v - 1));
    case 4 => IncDecSwap(c, x, y, true, at);
    case 5 => IncDecSwap(c, x, y, false, at);
    case 6 => OperandsSwap(r, x, y, c.mem[Word(at + 1)]);
    case _ => AccumulatorSwap(r, x, y);
  }

  lemma PushSwap(c: Core, x: Index, w: word)
    ensures SwapCore(Push(SwapCore(c, x), w), x) == Push(c, w)
  {
    hide WriteWord, Word;
  }

  lemma Main33Swap(c: Core, x: Index, y: nat, at: word)
    requires y < 8 && y != 5 && y != 1
    ensures SwapCore(Main33(SwapCore(c, x), HL, y, at), x) == Main33(c, x, y, at)
  {
    hide WriteWord, ReadWord, Word;
  }

  lemma Main3Swap(c: Core, x: Index, y: nat, z: nat, at: word)
    requires y < 8 && z < 8 && Renamed(0xC0 + 8 * y + z)
    ensures SwapCore(Main3(SwapCore(c, x), HL, y, z, at), x) == Main3(c, x, y, z, at)
  {
    hide GetPair, SetPair, Alu, Push, Main31, Main33, Cond, SwapRegs, ReadWord;
    var r := c.regs;
    SameParts(r, x);
    match z
    case 0 => DropSwap(r, x);
    case 1 => Main31Swap(r, x, y, Top(c));
    case 3 => Main33Swap(c, x, y, at);
    case 4 => PushSwap(c, x, Word(at + 3));
    case 5 =>
      if y % 2 == 0 {
        PairsSwap(r, x, y / 2, true, 0);
        PushSwap(c, x, GetPair(r, x, y / 2, true));
      } else { PushSwap(c, x, Word(at + 3)); }
    case 6 => AluSwap(r, x, y, c.mem[Word(at + 1)]);
    case 7 => PushSwap(c, x, Word(at + 1));
    case _ =>
  }

  lemma DropSwap(r: Regs, x: Index)
    ensures SwapRegs(Drop(SwapRegs(r, x)), x) == Drop(r)
  {
  }

  lemma SameParts(r: Regs, x: Index)
    ensures var r' := SwapRegs(r, x);
            r'.f == r.f && r'.sp == r.sp && r'.a == r.a && r'.pc == r.pc && r'.r == r.r && r'.bc == r.bc
            && GetX(r', HL) == GetX(r, x)
    ensures SwapRegs(SwapRegs(r, x), x) == r
  {
  }

  lemma MainSwap(c: Core, x: Index, op: byte, at: word)
    requires Renamed(op)
    ensures SwapCore(Main(SwapCore(c, x), HL, op, at), x) == Main(c, x, op, at)
  {
    hide Main0, Main1, Main3, Alu, Get8, SwapRegs;
    var y, z := op / 8 % 8, op % 8;
    SameParts(c.regs, x);
    match op / 0x40
    case 0 => Main0Swap(c, x, y, z, at);
    case 1 => Main1Swap(c, x, y, z, at);
    case 2 =>
      OperandsSwap(c.regs, x, z, 0);
      AluSwap(c.regs, x, y, Get8(c.regs, x, z));
    case _ => Main3Swap(c, x, y, z, at);
  }

  lemma Main1Swap(c: Core, x: Index, y: nat, z: nat, at: word)
    requires y < 8 && z < 8 && (y == 6 <==> z == 6)
    ensures SwapCore(Main1(SwapCore(c, x), HL, y, z, at), x) == Main1(c, x, y, z, at)
  {
    hide Get8, Set8, SwapRegs;
    if y == 6 { SameParts(c.regs, x); }
    else {
      OperandsSwap(c.regs, x, z, 0);
      OperandsSwap(c.regs, x, y, Get8(c.regs, x, z));
    }
  }

  lemma TargetSwap(c: Core, x: Index, op: byte, at: word)
    requires Renamed(op)
    ensures MainTarget(SwapCore(c, x), HL, op, at) == MainTarget(c, x, op, at)
  {
    hide SwapRegs, Cond, ReadWord, RelativeTarget;
    var y := op / 8 % 8;
    SameParts(c.regs, x);
    BranchSwap(c.regs, x, y, 0);
    hide Branch;
  }

  /** No displacement byte is read and no cycles are added. */
  lemma ShapeSwap(x: Index, op: byte, jumps: bool)
    requires Renamed(op)
    ensures MainLength(x, op) == MainLength(HL, op)
    ensures MainTime(x, op, jumps) == MainTime(HL, op, jumps)
  {
  }

  lemma MainTable(s: State)
    requires TableOf(s.ctl.prefix) == TableMain
    ensures var x, op, at := IndexOf(s.ctl.prefix), s.core.mem[PC(s)], PC(s);
            && Opcode(s) == op
            && Effect(s) == Main(Fetched(s.core), x, op, at)
            && TargetOf(s) == MainTarget(Fetched(s.core), x, op, at)
            && Length(s) == MainLength(x, op)
            && Time(s) == MainTime(x, op, TargetOf(s) != Stay)
            && ControlOf(s) == MainControl(s.ctl, op)
  {
    hide Main, MainTarget, MainLength, MainTime, MainControl;
  }

  /** One step under DD or FD is: swap HL with IX or IY, step without the prefix, swap back.
      Registers, flags, memory, devices, PC, control state and cycles all agree. */
  lemma PrefixIsRenaming(s: State)
    requires Indexed(s) && Renamed(Opcode(s))
    ensures var x := IndexOf(s.ctl.prefix);
            var plain := Swap(s, x).(ctl := s.ctl.(prefix := 0));
            Exec(s) == Swap(Exec(plain), x) && Time(s) == Time(plain)
  {
    hide Main, MainTarget, MainLength, MainTime, SwapRegs, Fetched, Effect, TargetOf, Length, Time, ControlOf, Opcode;
    var x := IndexOf(s.ctl.prefix);
    var plain := Swap(s, x).(ctl := s.ctl.(prefix := 0));
    var op := Opcode(s);
    MainTable(s);
    MainTable(plain);
    SameParts(s.core.regs, x);
    RefreshSwap(s.core, x);
    MainSwap(Fetched(s.core), x, op, PC(s));
    TargetSwap(Fetched(s.core), x, op, PC(s));
    ShapeSwap(x, op, TargetOf(s) != Stay);
    PcSwap(Effect(plain).regs, x, Landing(s));
  }

  lemma RefreshSwap(c: Core, x: Index)
    ensures Fetched(SwapCore(c, x)) == SwapCore(Fetched(c), x)
  {
  }

  lemma PcSwap(r: Regs, x: Index, pc: word)
    ensures SwapRegs(r.(pc := pc), x) == SwapRegs(r, x).(pc := pc)
  {
  }
}
