/** `struct z80cpu` and the functions of cpu.c that update it in place, each proved to do what the
    tables of Z80.dfy say. The displacement byte is re-read, PC moved back and forth and the prefix
    edited in mid-instruction exactly as in the source. */
module Cpu {
  import opened Bytes
  import opened Registers
  import opened Parity
  import Z80
  import opened Invariants
  import opened Runs

  // ----- the flag macros, on the operands the ALU passes them

  lemma AddMacros(a: byte, v: byte, c: nat)
    requires c <= 1
    ensures Carry8(a + v + c) == (a + v + c >= 0x100)
    ensures HalfAdd8(a, v, c) == (a % 0x10 + v % 0x10 + c >= 0x10)
  {
  }

  lemma SubMacros(a: byte, v: byte, c: nat)
    requires c <= 1
    ensures Carry8(a - v - c) == (a - v - c < 0)
    ensures HalfSub8(a, v, c) == (a % 0x10 - v % 0x10 - c < 0)
  {
  }

  lemma SignMacro(a: byte)
    ensures Sign8(a) == (a >= 0x80)
  {
  }

  lemma AddMacros16(a: word, v: word, c: nat)
    requires c <= 1
    ensures Carry16(a + v + c) == (a + v + c >= 0x10000)
    ensures HalfAdd16(a, v, c) == (a % 0x1000 + v % 0x1000 + c >= 0x1000)
  {
  }

  lemma SubMacros16(a: word, v: word, c: nat)
    requires c <= 1
    ensures Carry16(a - v - c) == (a - v - c < 0)
    ensures HalfSub16(a, v, c) == (a % 0x1000 - v % 0x1000 - c < 0)
  {
  }

  lemma WordMacros(w: word)
    ensures Sign16(w) == (w >= 0x8000)
    ensures Bit(w, 13) == Bit(Hi(w), 5) && Bit(w, 11) == Bit(Hi(w), 3)
  {
  }

  const ZERO := Regs(0, Flags(false, false, false, false, false, false, false, false), 0, 0, 0, 0, 0, 0, 0,
                     0, 0, 0, 0, 0, 0, 0)

  class Cpu {
    var regs: Regs
    var mem: Z80.Memory
    var line: bool
    var answers: seq<Z80.Answer>
    var io: seq<Z80.IoEvent>
    var prefix: word
    var iff1: bool
    var iff2: bool
    var im: Z80.IntMode
    var iffWait: bool
    var halted: bool
    var bus: byte
    var cycles: nat  // of the pass in progress

    ghost function CoreOf(): Z80.Core
      reads this
    {
      Z80.Core(regs, mem, line, answers, io)
    }

    ghost function ControlOf(): Z80.Control
      reads this
    {
      Z80.Control(prefix, iff1, iff2, im, iffWait, halted, bus)
    }

    ghost function Abs(): Z80.State
      reads this
    {
      Z80.State(CoreOf(), ControlOf())
    }

    /** `cpu_init`: everything zero. What memory holds and how devices answer is not the CPU's. */
    constructor (memory: Z80.Memory, responses: seq<Z80.Answer>)
      ensures Inv(Abs()) && CoreOf() == Z80.Core(ZERO, memory, false, responses, [])
      ensures ControlOf() == Z80.Control(0, false, false, 0, false, false, 0)
    {
      regs, mem, line, answers, io := ZERO, memory, false, responses, [];
      prefix, iff1, iff2, im, iffWait, halted, bus := 0, false, false, 0, false, false, 0;
      cycles := 0;
    }

    // ----- memory, ports and the stack

    method WriteByte(address: word, value: byte)
      modifies this`mem
      ensures CoreOf() == Z80.Poke(old(CoreOf()), address, value)
    {
      mem := mem[address := value];
    }

    method WriteWord(address: word, value: word)
      modifies this`mem
      ensures CoreOf() == Z80.PokeWord(old(CoreOf()), address, value)
    {
      WriteByte(address, Lo(value));
      WriteByte(Word(address + 1), Hi(value));
    }

    function ReadWord(address: word): word
      reads this
    {
      Z80.ReadWord(mem, address)
    }

    method Push(value: word)
      modifies this`mem, this`regs
      ensures CoreOf() == Z80.Push(old(CoreOf()), value)
    {
      WriteWord(Word(regs.sp - 2), value);
      regs := regs.(sp := Word(regs.sp - 2));
    }

    method Pop() returns (a: word)
      modifies this`regs
      ensures a == Z80.Top(old(CoreOf())) && regs == Z80.Drop(old(regs))
    {
      a := ReadWord(regs.sp);
      regs := regs.(sp := Word(regs.sp + 2));
    }

    method PortIn(port: byte) returns (val: byte)
      modifies this`line, this`answers, this`io
      ensures val == Z80.InValue(old(CoreOf())) && CoreOf() == Z80.PortIn(old(CoreOf()), port)
    {
      val := 0;
      if answers != [] {
        val, line, answers := answers[0].val, answers[0].line, answers[1..];
      }
      io := io + [Z80.In(port, val)];
    }

    method PortOut(port: byte, val: byte)
      modifies this`line, this`answers, this`io
      ensures CoreOf() == Z80.PortOut(old(CoreOf()), port, val)
    {
      if answers != [] {
        line, answers := answers[0].line, answers[1..];
      }
      io := io + [Z80.Out(port, val)];
    }

    // ----- operands

    method MovePC(delta: int)
      modifies this`regs
      ensures regs == old(regs).(pc := Word(old(regs).pc + delta))
    {
      regs := regs.(pc := Word(regs.pc + delta));
    }

    method ReadN() returns (n: byte)
      modifies this`regs
      ensures n == mem[old(regs).pc] && regs == old(regs).(pc := Word(old(regs).pc + 1))
    {
      n := mem[regs.pc];
      MovePC(1);
    }

    method ReadNN() returns (nn: word)
      modifies this`regs
      ensures nn == Z80.ReadWord(mem, old(regs).pc) && regs == old(regs).(pc := Word(old(regs).pc + 2))
    {
      nn := ReadWord(regs.pc);
      MovePC(2);
    }

    method ReadD() returns (d: int)
      modifies this`regs
      ensures d == Signed8(mem[old(regs).pc]) && regs == old(regs).(pc := Word(old(regs).pc + 1))
    {
      d := Signed8(mem[regs.pc]);
      MovePC(1);
    }

    function HLorI(): word
      reads this
    {
      if prefix / 0x100 == 0xDD then regs.ix else if prefix / 0x100 == 0xFD then regs.iy else regs.hl
    }

    method SetHLorI(value: word)
      modifies this`regs
      ensures regs == Z80.SetX(old(regs), Z80.IndexOf(prefix), value)
    {
      if prefix / 0x100 == 0xDD {
        regs := regs.(ix := value);
      } else if prefix / 0x100 == 0xFD {
        regs := regs.(iy := value);
      } else {
        regs := regs.(hl := value);
      }
    }

    /** Registers after the displacement at PC, if there is one, was consumed. */
    ghost function Locating(): Regs
      reads this
    {
      var x := Z80.IndexOf(prefix);
      var r := Z80.Located(CoreOf(), x, regs.pc).regs;
      if x == Z80.HL then r else r.(pc := Word(regs.pc + 1))
    }

    ghost function Operand(): word
      reads this
    {
      Z80.Ea(CoreOf(), Z80.IndexOf(prefix), regs.pc)
    }

    method ReadR(i: nat) returns (v: byte)
      requires i < 8
      modifies this`regs, this`cycles
      ensures i == 6 ==> v == mem[old(Operand())] && regs == old(Locating())
                         && cycles == old(cycles) + Z80.ReadCost(Z80.IndexOf(prefix))
      ensures i != 6 ==> v == Z80.Get8(old(regs), Z80.IndexOf(prefix), i) && regs == old(regs) && cycles == old(cycles)
    {
      match i {
        case 0 => v := Hi(regs.bc);
        case 1 => v := Lo(regs.bc);
        case 2 => v := Hi(regs.de);
        case 3 => v := Lo(regs.de);
        case 4 => v := Hi(HLorI());
        case 5 => v := Lo(HLorI());
        case 6 =>
          cycles := cycles + 3;
          if prefix / 0x100 == 0xDD {
            cycles := cycles + 8;
            var d := ReadD();
            regs := regs.(wz := Word(regs.ix + d));
            v := mem[regs.wz];
          } else if prefix / 0x100 == 0xFD {
            cycles := cycles + 8;
            var d := ReadD();
            regs := regs.(wz := Word(regs.iy + d));
            v := mem[regs.wz];
          } else {
            v := mem[regs.hl];
          }
        case _ => v := regs.a;
      }
    }

    method WriteR(i: nat, value: byte)
      requires i < 8
      modifies this`regs, this`mem, this`cycles
      ensures i == 6 ==> CoreOf() == Z80.Poke(old(CoreOf()), old(Operand()), value).(regs := old(Locating()))
                         && cycles == old(cycles) + Z80.WriteCost(Z80.IndexOf(prefix))
      ensures i != 6 ==> CoreOf() == old(CoreOf()).(regs := Z80.Set8(old(regs), Z80.IndexOf(prefix), i, value))
                         && cycles == old(cycles)
    {
      match i {
        case 0 => regs := regs.(bc := Pair(value, Lo(regs.bc)));
        case 1 => regs := regs.(bc := Pair(Hi(regs.bc), value));
        case 2 => regs := regs.(de := Pair(value, Lo(regs.de)));
        case 3 => regs := regs.(de := Pair(Hi(regs.de), value));
        case 4 => SetHLorI(Pair(value, Lo(HLorI())));
        case 5 => SetHLorI(Pair(Hi(HLorI()), value));
        case 6 =>
          cycles := cycles + 3;
          if prefix / 0x100 == 0xDD {
            cycles := cycles + 4;
            var d := ReadD();
            regs := regs.(wz := Word(regs.ix + d));
            WriteByte(regs.wz, value);
          } else if prefix / 0x100 == 0xFD {
            cycles := cycles + 4;
            var d := ReadD();
            regs := regs.(wz := Word(regs.iy + d));
            WriteByte(regs.wz, value);
          } else {
            WriteByte(regs.hl, value);
          }
        case _ => regs := regs.(a := value);
      }
    }

    /** LD r[write], r[read]: with a memory operand on either side, the prefix is stripped from
        the other. It is left stripped when the memory operand was read. */
    method ReadWriteR(read: nat, write: nat)
      requires read < 8 && write < 8 && !(read == 6 && write == 6)
      modifies this`regs, this`mem, this`cycles, this`prefix
      ensures var x := old(Z80.IndexOf(prefix));
              if read == 6 then
                CoreOf() == old(CoreOf()).(regs := Z80.Set8(old(Locating()), Z80.HL, write, old(mem[Operand()])))
                && cycles == old(cycles) + Z80.ReadCost(x)
              else if write == 6 then
                var v := Z80.Get8(old(regs), Z80.HL, read);
                CoreOf() == Z80.Poke(old(CoreOf()), old(Operand()), v).(regs := old(Locating()))
                && cycles == old(cycles) + Z80.WriteCost(x)
              else
                CoreOf() == old(CoreOf()).(regs := Z80.Set8(old(regs), x, write, Z80.Get8(old(regs), x, read)))
                && cycles == old(cycles)
    {
      if write == 6 || read == 6 {
        var oldPrefix := prefix;
        if write == 6 {
          prefix := prefix % 0x100;
        }
        var r := ReadR(read);
        prefix := oldPrefix;
        if read == 6 {
          prefix := prefix % 0x100;
        }
        WriteR(write, r);
      } else {
        var r := ReadR(read);
        WriteR(write, r);
      }
    }

    // ----- arithmetic

    /** The flags every 8-bit result sets alike. */
    static function Result(a: byte, h: bool, pv: bool, n: bool, c: bool): Flags {
      Flags(Sign8(a), a == 0, Bit(a, 5), h, Bit(a, 3), pv, n, c)
    }

    static lemma ResultIs(a: byte, h: bool, pv: bool, n: bool, c: bool)
      ensures Result(a, h, pv, n, c) == Z80.ResultFlags(a, h, pv, n, c)
    {
      hide Bit;
      SignMacro(a);
    }

    method ExecuteAlu(i: nat, v: byte)
      requires i < 8
      modifies this`regs, this`cycles
      ensures regs == Z80.Alu(old(regs), i, v) && cycles == old(cycles) + 4
    {
      cycles := cycles + 4;
      if i < 4 || i == 7 {
        Arithmetic(i, v);
      } else {
        Logical(i, v);
      }
    }

    method Arithmetic(i: nat, v: byte)
      requires i < 4 || i == 7
      modifies this`regs
      ensures regs == Z80.Alu(old(regs), i, v)
    {
      hide Z80.SumFlags, Z80.DifferenceFlags, Z80.Sum, Z80.Difference;
      match i {
        case 0 => Add(v, 0);
        case 1 => Add(v, Num(regs.f.c));
        case 2 => Subtract(v, 0);
        case 3 => Subtract(v, Num(regs.f.c));
        case _ => Compare(v);
      }
    }

    method Add(v: byte, c: nat)
      requires c <= 1
      modifies this`regs
      ensures regs == old(regs).(a := Z80.Sum(old(regs).a, v, c), f := Z80.SumFlags(old(regs).a, v, c))
    {
      hide Bit, Carry8, HalfAdd8, Sign8;
      var was := regs.a;
      var a := Byte(was + (v + c));
      SignMacro(was); SignMacro(v); SignMacro(a);
      AddMacros(was, v, c);
      ResultIs(a, HalfAdd8(was, v, c), OverflowAdd8(was, v, a), false, Carry8(was + v + c));
      regs := regs.(a := a, f := Result(a, HalfAdd8(was, v, c), OverflowAdd8(was, v, a), false, Carry8(was + v + c)));
    }

    method Subtract(v: byte, c: nat)
      requires c <= 1
      modifies this`regs
      ensures regs == old(regs).(a := Z80.Difference(old(regs).a, v, c), f := Z80.DifferenceFlags(old(regs).a, v, c))
    {
      hide Bit, Carry8, HalfSub8, Sign8;
      var was := regs.a;
      var a := Byte(was - (v + c));
      SignMacro(was); SignMacro(v); SignMacro(a);
      SubMacros(was, v, c);
      ResultIs(a, HalfSub8(was, v, c), OverflowSub8(was, v, a), true, Carry8(was - v - c));
      regs := regs.(a := a, f := Result(a, HalfSub8(was, v, c), OverflowSub8(was, v, a), true, Carry8(was - v - c)));
    }

    /** CP takes its two undocumented bits from the operand. */
    method Compare(v: byte)
      modifies this`regs
      ensures regs == old(regs).(f := Z80.DifferenceFlags(old(regs).a, v, 0).(f5 := Bit(v, 5), f3 := Bit(v, 3)))
    {
      hide Bit, Carry8, HalfSub8, Sign8;
      var was := regs.a;
      var d := Byte(was - v);
      SignMacro(was); SignMacro(v); SignMacro(d);
      SubMacros(was, v, 0);
      regs := regs.(f := Flags(Sign8(d), d == 0, Bit(v, 5), HalfSub8(was, v, 0), Bit(v, 3),
                               OverflowSub8(was, v, d), true, Carry8(was - v)));
    }

    method Logical(i: nat, v: byte)
      requires 4 <= i < 7
      modifies this`regs
      ensures regs == Z80.Alu(old(regs), i, v)
    {
      hide Bit, Sign8;
      var a := if i == 4 then And8(regs.a, v) else if i == 5 then Xor8(regs.a, v) else Or8(regs.a, v);
      var p := ParityOf(a);
      ResultIs(a, i == 4, p == 0, false, false);
      regs := regs.(a := a, f := Result(a, i == 4, p == 0, false, false));
    }

    method Daa()
      modifies this`regs
      ensures regs == Z80.Daa(old(regs))
    {
      hide Bit, Sign8, HalfAdd8, HalfSub8, Byte, OnesMod2, Z80.DaaFix;
      var was := regs.a;
      var v := DaaCorrection();
      AddMacros(was, v, 0);
      SubMacros(was, v, 0);
      var a := if regs.f.n then Byte(regs.a - v) else Byte(regs.a + v);
      var p := ParityOf(a);
      var h := if regs.f.n then HalfSub8(was, v, 0) else HalfAdd8(was, v, 0);
      ResultIs(a, h, p == 0, regs.f.n, v >= 0x60);
      DifferenceForm(was, v);
      regs := regs.(a := a, f := Result(a, h, p == 0, regs.f.n, v >= 0x60));
    }

    static lemma DifferenceForm(a: byte, v: byte)
      ensures Z80.Sum(a, v, 0) == Byte(a + v) && Z80.Difference(a, v, 0) == Byte(a - v)
    {
    }

    method DaaCorrection() returns (v: byte)
      ensures v == Z80.DaaFix(regs)
    {
      hide Bit, Carry8;
      v := 0;
      if regs.a % 0x10 > 9 || regs.f.h {
        v := v + 0x06;
      }
      DaaHigh(regs.a, v);
      if (regs.a + v) / 0x10 > 9 || Carry8(regs.a + v) || regs.f.c {
        v := v + 0x60;
      }
    }

    static lemma DaaHigh(a: byte, v: byte)
      ensures (a + v) / 0x10 > 9 || Carry8(a + v) <==> a + v >= 0xA0
    {
      hide Bit;
      AddMacros(a, v, 0);
    }

    // ----- CB-prefixed opcodes

    /** Reads an operand that is to be written back. With a memory operand under DD or FD, PC is
        moved back so that the displacement is read again for the write. */
    method ReadForUpdate(z: nat, indexed: bool) returns (v: byte)
      requires z < 8 && indexed == (Z80.IndexOf(prefix) != Z80.HL)
      modifies this`regs, this`cycles
      ensures var x := Z80.IndexOf(prefix);
              && regs == (if z == 6 then Z80.Located(old(CoreOf()), x, old(regs).pc).regs else old(regs))
              && v == (if z == 6 then mem[old(Operand())] else Z80.Get8(old(regs), x, z))
              && cycles == old(cycles) + if z == 6 then Z80.ReadCost(x) else 0
    {
      v := ReadR(z);
      if z == 6 && indexed {
        WordPlus(old(regs).pc + 1, -1);
        MovePC(-1);
      }
    }

    /** The write that follows finds the same operand. */
    method WriteBack(z: nat, value: byte, ghost before: Z80.Core)
      requires z < 8
      requires CoreOf() == before.(regs := regs)
      requires regs == if z == 6 then Z80.Located(before, Z80.IndexOf(prefix), before.regs.pc).regs else before.regs
      modifies this`regs, this`mem, this`cycles
      ensures var x := Z80.IndexOf(prefix);
              var pc := before.regs.pc;
              && (z == 6 ==> CoreOf() == WithPC(Z80.Poke(Z80.Located(before, x, pc), Z80.Ea(before, x, pc), value),
                                                Past(pc, x, z)))
              && (z != 6 ==> CoreOf() == before.(regs := Z80.Set8(before.regs, x, z, value)))
              && cycles == old(cycles) + if z == 6 then Z80.WriteCost(x) else 0
    {
      WriteR(z, value);
    }

    static method Rotated(y: nat, v: byte, c: bool) returns (r: byte, carry: bool)
      requires y < 8
      ensures r == Z80.Rot(y, v, c) && carry == Z80.RotCarry(y, v)
    {
      var old7, old0 := v / 0x80, v % 2;
      match y {
        case 0 => r := Byte(2 * v) + old7;
        case 1 => r := v / 2 + 0x80 * old0;
        case 2 => r := Byte(2 * v) + Num(c);
        case 3 => r := v / 2 + 0x80 * Num(c);
        case 4 => r := Byte(2 * v);
        case 5 => r := v / 2 + 0x80 * old7;
        case 6 => r := Byte(2 * v) + 1;
        case _ => r := v / 2;
      }
      carry := if y % 2 == 0 then old7 == 1 else old0 == 1;
    }

    method ExecuteRot(y: nat, z: nat, indexed: bool)
      requires y < 8 && z < 8 && indexed == (Z80.IndexOf(prefix) != Z80.HL)
      modifies this`regs, this`mem, this`cycles
      ensures var x := Z80.IndexOf(prefix);
              && CoreOf() == WithPC(Z80.CBOn(old(CoreOf()), x, 0, y, z, old(regs).pc), Past(old(regs).pc, x, z))
              && cycles == old(cycles) + (if z == 6 then Z80.ReadCost(x) + Z80.WriteCost(x) else 0)
    {
      hide OnesMod2, Bit, Sign8, Z80.Rot, Z80.RotCarry, Z80.Located, Z80.Ea, Z80.Get8, Z80.Set8;
      ghost var before := CoreOf();
      var c := regs.f.c;
      var v := ReadForUpdate(z, indexed);
      var r, carry := Rotated(y, v, c);
      WriteBack(z, r, before);
      var p := ParityOf(r);
      ResultIs(r, false, p == 0, false, carry);
      regs := regs.(f := Result(r, false, p == 0, false, carry));
      Fields(before, Z80.IndexOf(prefix), z, r);
    }

    static lemma Fields(c: Z80.Core, x: Z80.Index, z: nat, r: byte)
      requires z < 8
      ensures Z80.Located(c, x, c.regs.pc).regs == c.regs.(wz := Z80.Located(c, x, c.regs.pc).regs.wz)
      ensures z != 6 ==> Z80.Set8(c.regs, x, z, r).pc == c.regs.pc
    {
    }

    method ExecuteBit(y: nat, z: nat)
      requires y < 8 && z < 8
      modifies this`regs, this`cycles
      ensures var x := Z80.IndexOf(prefix);
              && CoreOf() == WithPC(Z80.CBOn(old(CoreOf()), x, 1, y, z, old(regs).pc), Past(old(regs).pc, x, z))
              && cycles == old(cycles) + (if z == 6 then Z80.ReadCost(x) else 0)
    {
      hide OnesMod2, Bit, Sign8, Z80.Get8, And8;
      var was := ReadR(z);
      var v := And8(was, Z80.Mask(y));
      var p := ParityOf(v);
      var undoc := if z == 6 then Hi(regs.wz) else was;
      ResultIs(v, true, p == 0, false, regs.f.c);
      regs := regs.(f := Result(v, true, p == 0, false, regs.f.c).(f5 := Bit(undoc, 5), f3 := Bit(undoc, 3)));
      Fields(old(CoreOf()), Z80.IndexOf(prefix), z, 0);
    }

    method ExecuteResSet(x: nat, y: nat, z: nat, indexed: bool)
      requires (x == 2 || x == 3) && y < 8 && z < 8 && indexed == (Z80.IndexOf(prefix) != Z80.HL)
      modifies this`regs, this`mem, this`cycles
      ensures var i := Z80.IndexOf(prefix);
              && CoreOf() == WithPC(Z80.CBOn(old(CoreOf()), i, x, y, z, old(regs).pc), Past(old(regs).pc, i, z))
              && cycles == old(cycles) + (if z == 6 then Z80.ReadCost(i) + Z80.WriteCost(i) else 0)
    {
      hide Z80.Located, Z80.Ea, Z80.Get8, Z80.Set8, And8, Or8;
      ghost var before := CoreOf();
      var was := ReadForUpdate(z, indexed);
      var v := if x == 2 then And8(was, 0xFF - Z80.Mask(y)) else Or8(was, Z80.Mask(y));
      WriteBack(z, v, before);
      Fields(before, Z80.IndexOf(prefix), z, v);
      KeepsFlags(before.regs, Z80.IndexOf(prefix), z, v);
    }

    static lemma KeepsFlags(r: Regs, x: Z80.Index, z: nat, v: byte)
      requires z < 8
      ensures z != 6 ==> Z80.Set8(r, x, z, v).f == r.f
    {
    }

    /** `fetched` is the byte after the prefixes: the opcode, or under DD and FD the displacement,
        which the opcode follows. */
    method ExecuteCB(fetched: byte)
      requires prefix == 0xCB || prefix == 0xDDCB || prefix == 0xFDCB
      requires fetched == mem[Word(regs.pc - 1)]
      modifies this`regs, this`mem, this`cycles
      ensures var at := Word(old(regs).pc - 1);
              var x := Z80.IndexOf(prefix);
              var op := if prefix == 0xCB then fetched else old(mem)[old(regs).pc];
              && CoreOf() == WithPC(Z80.CB(WithPC(old(CoreOf()), at), x, op, at),
                                    Word(at + if x == Z80.HL then 1 else Z80.IndexedCBLength(op)))
              && cycles == old(cycles) + Z80.CBTime(x, op)
    {
      hide Z80.CBOn, Z80.CBTime, Word, Z80.IndexedCBLength;
      var indexed := prefix / 0x100 != 0;
      var op := fetched;
      ghost var x := Z80.IndexOf(prefix);
      ghost var at: int := Word(regs.pc - 1);
      WordPlus(regs.pc - 1, 1);
      WordPlus(at + 1, 1);
      Small(regs.pc);
      if indexed {
        op := mem[regs.pc];
        MovePC(-1);
      }
      CBIgnoresPC(CoreOf(), x, op / 0x40, op / 8 % 8, op % 8, at, regs.pc);
      assert WithPC(CoreOf(), at) == WithPC(old(CoreOf()), at);
      IndexedLength(op);
      CBTable(op, indexed);
      if indexed {
        MovePC(1);
      }
    }

    static lemma Small(pc: word)
      ensures Word(pc) == pc
    {
    }

    static lemma IndexedLength(op: byte)
      ensures Z80.IndexedCBLength(op) == if op % 8 == 6 then 2 else 1
    {
    }

    method CBTable(op: byte, indexed: bool)
      requires indexed == (Z80.IndexOf(prefix) != Z80.HL)
      modifies this`regs, this`mem, this`cycles
      ensures var x := Z80.IndexOf(prefix);
              && CoreOf() == WithPC(Z80.CBOn(old(CoreOf()), x, op / 0x40, op / 8 % 8, op % 8, old(regs).pc),
                                    Past(old(regs).pc, x, op % 8))
              && cycles == old(cycles) + Z80.CBTime(x, op)
    {
      hide Z80.CBOn, Past;
      cycles := cycles + 4;
      match op / 0x40 {
        case 0 => ExecuteRot(op / 8 % 8, op % 8, indexed);
        case 1 => ExecuteBit(op / 8 % 8, op % 8);
        case _ => ExecuteResSet(op / 0x40, op / 8 % 8, op % 8, indexed);
      }
    }

    static lemma CBIgnoresPC(c: Z80.Core, x: Z80.Index, xop: nat, y: nat, z: nat, at: word, pc: word)
      requires xop < 4 && y < 8 && z < 8
      requires x != Z80.HL ==> pc == at
      ensures forall q: word ::
                WithPC(Z80.CBOn(c, x, xop, y, z, pc), q) == WithPC(Z80.CBOn(WithPC(c, at), x, xop, y, z, at), q)
    {
      hide Z80.Modified, Z80.ModifiedFlags, Z80.BitFlags;
    }

    // ----- ED-prefixed opcodes

    method CopyStep(delta: int)
      modifies this`regs, this`mem
      ensures CoreOf() == Z80.CopyOnce(old(CoreOf()), delta)
    {
      hide Bit;
      var moved := mem[regs.hl];
      WriteByte(regs.de, moved);
      var sum := Byte(regs.a + moved);
      regs := regs.(hl := Word(regs.hl + delta), de := Word(regs.de + delta), bc := Word(regs.bc - 1));
      regs := regs.(f := Flags(regs.f.s, regs.f.z, Bit(sum, 1), false, Bit(sum, 3), regs.bc != 0, false, regs.f.c));
    }

    method CompareStep(delta: int)
      modifies this`regs
      ensures regs == Z80.CompareOnce(old(regs), mem[old(regs).hl], delta)
    {
      hide Bit, Sign8, HalfSub8;
      var against := mem[regs.hl];
      var diff := Byte(regs.a - against);
      SubMacros(regs.a, against, 0);
      SignMacro(diff);
      var half := Num(HalfSub8(regs.a, against, 0));
      regs := regs.(hl := Word(regs.hl + delta), bc := Word(regs.bc - 1));
      regs := regs.(f := Flags(Sign8(diff), diff == 0, Bit(Byte(diff - half), 1), half == 1, Bit(Byte(diff - half), 3),
                               regs.bc != 0, true, regs.f.c));
    }

    method InStep(delta: int)
      modifies this`regs, this`mem, this`line, this`answers, this`io
      ensures CoreOf() == Z80.Block(old(CoreOf()), delta, 2)
    {
      var v := PortIn(Lo(regs.bc));
      WriteByte(regs.hl, v);
      CountB(delta);
    }

    method OutStep(delta: int)
      modifies this`regs, this`line, this`answers, this`io
      ensures CoreOf() == Z80.Block(old(CoreOf()), delta, 3)
    {
      PortOut(Lo(regs.bc), mem[regs.hl]);
      CountB(delta);
    }

    method CountB(delta: int)
      modifies this`regs
      ensures regs == Z80.BlockIoRegs(old(regs), delta)
    {
      regs := regs.(hl := Word(regs.hl + delta));
      var b := Byte(Hi(regs.bc) - 1);
      regs := regs.(bc := Pair(b, Lo(regs.bc)));
      regs := regs.(f := regs.f.(z := b == 0, n := true));
    }

    /** The sixteen block instructions: `y` 4 and 6 go up, 5 and 7 down; 6 and 7 repeat. */
    method ExecuteBli(y: nat, z: nat)
      requires 4 <= y < 8 && z < 4
      modifies this`regs, this`mem, this`line, this`answers, this`io, this`cycles
      ensures var b := Z80.Block(old(CoreOf()), if y % 2 == 0 then 1 else -1, z);
              var again := Z80.Repeats(b.regs, 0x80 + 8 * y + z);
              && CoreOf() == (if again then WithPC(b, Word(b.regs.pc - 2)) else b)
              && cycles == old(cycles) + (if again then 17 else 12)
    {
      hide Z80.CopyOnce, Z80.CompareOnce, Z80.Repeats;
      var delta := if y % 2 == 0 then 1 else -1;
      cycles := cycles + 12;
      var again;
      match z {
        case 0 =>
          CopyStep(delta);
          again := y >= 6 && regs.bc != 0;
        case 1 =>
          CompareStep(delta);
          again := y >= 6 && regs.bc != 0 && !regs.f.z;
        case 2 =>
          InStep(delta);
          again := y >= 6 && !regs.f.z;
        case _ =>
          OutStep(delta);
          again := y >= 6 && !regs.f.z;
      }
      RepeatsByParts(regs, y, z);
      if again {
        cycles := cycles + 5;
        MovePC(-2);
      }
    }

    static lemma RepeatsByParts(r: Regs, y: nat, z: nat)
      requires 4 <= y < 8 && z < 4
      ensures Z80.Repeats(r, 0x80 + 8 * y + z) <==>
              y >= 6 && (if z == 0 then r.bc != 0 else if z == 1 then r.bc != 0 && !r.f.z else !r.f.z)
    {
    }

    function ReadRp(p: nat, stack: bool): word
      requires p < 4
      reads this
    {
      match p case 0 => regs.bc case 1 => regs.de case 2 => HLorI() case _ => if stack then AF(regs) else regs.sp
    }

    method WriteRp(p: nat, stack: bool, value: word)
      requires p < 4
      modifies this`regs
      ensures regs == Z80.SetPair(old(regs), Z80.IndexOf(prefix), p, stack, value)
    {
      match p {
        case 0 => regs := regs.(bc := value);
        case 1 => regs := regs.(de := value);
        case 2 => SetHLorI(value);
        case _ => regs := if stack then SetAF(regs, value) else regs.(sp := value);
      }
    }

    static function WideResult(w: word, h: bool, pv: bool, n: bool, c: bool): Flags {
      Flags(Sign16(w), w == 0, Bit(w, 13), h, Bit(w, 11), pv, n, c)
    }

    static lemma WideResultIs(w: word, h: bool, pv: bool, n: bool, c: bool)
      ensures WideResult(w, h, pv, n, c) == Z80.WideFlags(w, h, pv, n, c)
    {
      hide Bit;
      WordMacros(w);
    }

    method Adc16(v: word)
      modifies this`regs
      ensures regs == Z80.Adc16(old(regs), v)
    {
      hide Bit, Sign16, Carry16, HalfAdd16, WideResult;
      var was, c := regs.hl, Num(regs.f.c);
      var w := Word(was + (v + c));
      WordMacros(was); WordMacros(v); WordMacros(w);
      AddMacros16(was, v, c);
      WideResultIs(w, HalfAdd16(was, v, c), OverflowAdd16(was, v, w), false, Carry16(was + v + c));
      regs := regs.(hl := w, wz := w,
                    f := WideResult(w, HalfAdd16(was, v, c), OverflowAdd16(was, v, w), false, Carry16(was + v + c)));
    }

    method Sbc16(v: word)
      modifies this`regs
      ensures regs == Z80.Sbc16(old(regs), v)
    {
      hide Bit, Sign16, Carry16, HalfSub16, WideResult;
      var was, c := regs.hl, Num(regs.f.c);
      var w := Word(was - (v + c));
      WordMacros(was); WordMacros(v); WordMacros(w);
      SubMacros16(was, v, c);
      WideResultIs(w, HalfSub16(was, v, c), OverflowSub16(was, v, w), true, Carry16(was - v - c));
      regs := regs.(hl := w, wz := w,
                    f := WideResult(w, HalfSub16(was, v, c), OverflowSub16(was, v, w), true, Carry16(was - v - c)));
    }

    method Add16(v: word)
      modifies this`regs
      ensures regs == Z80.Add16(old(regs), Z80.IndexOf(prefix), v)
    {
      hide Bit, Carry16, HalfAdd16;
      var was := HLorI();
      var w := Word(was + v);
      WordMacros(w);
      AddMacros16(was, v, 0);
      SetHLorI(w);
      regs := regs.(wz := w);
      regs := regs.(f := Flags(regs.f.s, regs.f.z, Bit(w, 13), HalfAdd16(was, v, 0), Bit(w, 11), regs.f.pv, false,
                               Carry16(was + v)));
    }

    method Neg()
      modifies this`regs
      ensures regs == Z80.ED1(old(CoreOf()), iff2, 0, 4, 0).regs
    {
      hide Bit, Sign8, HalfSub8;
      var was, zero: int := regs.a, 0;
      var a := Byte(zero - was);
      SubMacros(0, was, 0);
      ResultIs(a, HalfSub8(0, was, 0), was == 0x80, true, was != 0);
      regs := regs.(a := a, f := Result(a, HalfSub8(0, was, 0), was == 0x80, true, was != 0));
    }

    /** RRD and RLD. */
    method NibbleRotate(left: bool)
      modifies this`regs, this`mem
      ensures CoreOf() == Z80.ED17(old(CoreOf()), iff2, if left then 5 else 4)
    {
      hide Bit, Sign8, OnesMod2;
      var was, v := regs.a, mem[regs.hl];
      regs := regs.(a := 0x10 * (was / 0x10) + (if left then v / 0x10 else v % 0x10));
      v := if left then 0x10 * (v % 0x10) + was % 0x10 else v / 0x10 + 0x10 * (was % 0x10);
      WriteByte(regs.hl, v);
      var p := ParityOf(regs.a);
      ResultIs(regs.a, false, p == 0, false, regs.f.c);
      regs := regs.(f := Result(regs.a, false, p == 0, false, regs.f.c));
    }

    method In(y: nat)
      requires y < 8 && Z80.IndexOf(prefix) == Z80.HL
      modifies this`regs, this`mem, this`cycles, this`line, this`answers, this`io
      ensures CoreOf() == Z80.ED1(old(CoreOf()), iff2, y, 0, 0) && cycles == old(cycles)
    {
      hide Bit, Sign8, OnesMod2;
      var v := PortIn(Lo(regs.bc));
      var c := regs.f.c;
      if y != 6 {
        WriteR(y, v);
      }
      var p := ParityOf(v);
      ResultIs(v, false, p == 0, false, c);
      regs := regs.(f := Result(v, false, p == 0, false, c));
    }

    method ExecuteED1(y: nat, z: nat, ghost at: word)
      requires y < 8 && z < 8 && Z80.IndexOf(prefix) == Z80.HL && regs.pc == Word(at + 1)
      modifies this`regs, this`mem, this`cycles, this`line, this`answers, this`io, this`im
      ensures var target := if z == 5 then Z80.Goto(Z80.Top(old(CoreOf()))) else Z80.Stay;
              && CoreOf() == Landed(Z80.ED1(old(CoreOf()), iff2, y, z, at), target, Word(at + if z == 3 then 3 else 1))
              && cycles == old(cycles) + Z80.EDTime(0x40 + 8 * y + z, false)
              && im == if z == 6 then if y % 4 < 2 then 0 else y % 4 - 1 else old(im)
    {
      hide Z80.Sbc16, Z80.Adc16, Z80.PortIn, Z80.ED17, Z80.WriteWord, Z80.ReadWord, Z80.EDTime;
      EDTimes(y, z);
      match z {
        case 0 =>
          cycles := cycles + 8;
          In(y);
        case 1 =>
          cycles := cycles + 8;
          if y == 6 {
            PortOut(Lo(regs.bc), 0xFF);
          } else {
            var v := ReadR(y);
            PortOut(Lo(regs.bc), v);
          }
        case 2 =>
          cycles := cycles + 11;
          Wide(y);
        case 3 =>
          cycles := cycles + 16;
          LoadPair(y, at);
        case 4 =>
          cycles := cycles + 4;
          Neg();
        case 5 =>
          cycles := cycles + 14;
          var pc := Pop();
          regs := regs.(pc := pc);
        case 6 =>
          cycles := cycles + 4;
          im := if y % 4 < 2 then 0 else y % 4 - 1;
        case _ =>
          ED17KeepsPC(CoreOf(), iff2, y);
          ExecuteED17(y);
      }
    }

    static lemma EDTimes(y: nat, z: nat)
      requires y < 8 && z < 8
      ensures Z80.EDTime(0x40 + 8 * y + z, false) ==
        match z
        case 0 => 8 case 1 => 8 case 2 => 11 case 3 => 16 case 4 => 4 case 5 => 14 case 6 => 4
        case _ => if y < 4 then 5 else if y < 6 then 14 else 4
    {
    }

    method Wide(y: nat)
      requires y < 8 && Z80.IndexOf(prefix) == Z80.HL
      modifies this`regs
      ensures CoreOf() == Z80.ED1(old(CoreOf()), iff2, y, 2, 0) && regs.pc == old(regs).pc
    {
      hide Z80.Sbc16, Z80.Adc16;
      var v := ReadRp(y / 2, false);
      WideKeepsPC(regs, v);
      if y % 2 == 0 { Sbc16(v); } else { Adc16(v); }
    }

    method LoadPair(y: nat, ghost at: word)
      requires y < 8 && Z80.IndexOf(prefix) == Z80.HL && regs.pc == Word(at + 1)
      modifies this`regs, this`mem
      ensures CoreOf() == WithPC(Z80.ED1(old(CoreOf()), iff2, y, 3, at), Word(at + 3))
    {
      hide Z80.WriteWord, Z80.ReadWord;
      WordPlus(at + 1, 2);
      var nn := ReadNN();
      regs := regs.(wz := nn);
      if y % 2 == 0 {
        WriteWord(regs.wz, ReadRp(y / 2, false));
      } else {
        WriteRp(y / 2, false, ReadWord(regs.wz));
      }
    }

    static lemma WideKeepsPC(r: Regs, v: word)
      ensures Z80.Sbc16(r, v).pc == r.pc && Z80.Adc16(r, v).pc == r.pc
    {
    }

    static lemma ED17KeepsPC(c: Z80.Core, iff2: bool, y: nat)
      requires y < 8
      ensures Z80.ED17(c, iff2, y).regs.pc == c.regs.pc
    {
    }

    method ExecuteED17(y: nat)
      requires y < 8
      modifies this`regs, this`mem, this`cycles
      ensures CoreOf() == Z80.ED17(old(CoreOf()), iff2, y)
      ensures cycles == old(cycles) + if y < 4 then 5 else if y < 6 then 14 else 4
    {
      hide Bit, Sign8;
      match y {
        case 0 =>
          cycles := cycles + 5;
          regs := regs.(i := regs.a);
        case 1 =>
          cycles := cycles + 5;
          regs := regs.(r := regs.a);
        case 2 =>
          cycles := cycles + 5;
          ResultIs(regs.i, false, iff2, false, regs.f.c);
          regs := regs.(a := regs.i);
          regs := regs.(f := Result(regs.a, false, iff2, false, regs.f.c));
        case 3 =>
          cycles := cycles + 5;
          ResultIs(regs.r, false, iff2, false, regs.f.c);
          regs := regs.(a := regs.r);
          regs := regs.(f := Result(regs.a, false, iff2, false, regs.f.c));
        case 4 =>
          cycles := cycles + 14;
          NibbleRotate(false);
        case 5 =>
          cycles := cycles + 14;
          NibbleRotate(true);
        case _ => cycles := cycles + 4;
      }
    }

    method ExecuteBlock(ghost op: byte, y: nat, z: nat, ghost at: word)
      requires 4 <= y < 8 && z < 4 && op == 0x80 + 8 * y + z && regs.pc == Word(at + 1)
      modifies this`regs, this`mem, this`line, this`answers, this`io, this`cycles
      ensures var b := Z80.Block(old(CoreOf()), if y % 2 == 0 then 1 else -1, z);
              var again := Z80.Repeats(b.regs, op);
              && CoreOf() == Landed(b, if again then Z80.Goto(Word(at - 1)) else Z80.Stay, Word(at + 1))
              && cycles == old(cycles) + (if again then 17 else 12)
    {
      BlockLands(CoreOf(), if y % 2 == 0 then 1 else -1, z, op, at);
      hide Z80.Block, Z80.Repeats, Landed, Word;
      ExecuteBli(y, z);
    }

    method ExecuteED(op: byte, ghost at: word)
      requires prefix == 0xED00 && regs.pc == Word(at + 1)
      modifies this`regs, this`mem, this`cycles, this`line, this`answers, this`io, this`im, this`iffWait
      ensures var target := Z80.EDTarget(old(CoreOf()), iff2, op, at);
              && CoreOf() == Landed(Z80.ED(old(CoreOf()), iff2, op, at), target, Word(at + Z80.EDLength(op)))
              && cycles == old(cycles) + Z80.EDTime(op, target != Z80.Stay)
      ensures ControlOf().(prefix := 0) == Z80.EDControl(old(ControlOf()), op)
    {
      hide Z80.ED1, Z80.Block, Z80.Repeats, Z80.ED, Z80.EDTarget, Z80.EDTime, Z80.EDLength, Z80.EDControl, Z80.Top;
      var y, z := op / 8 % 8, op % 8;
      EDTables(CoreOf(), ControlOf(), op, at);
      match op / 0x40 {
        case 1 => ExecuteED1(y, z, at);
        case 2 =>
          if y >= 4 && z < 4 {
            ExecuteBlock(op, y, z, at);
          } else {
            cycles := cycles + 4;
            iffWait := true;
          }
        case _ =>
          cycles := cycles + 4;
          iffWait := true;
      }
    }

    /** The ED tables, by the three kinds of opcode. */
    static lemma EDTables(c: Z80.Core, k: Z80.Control, op: byte, at: word)
      ensures var y, z := op / 8 % 8, op % 8;
              if op / 0x40 == 1 then
                && Z80.ED(c, k.iff2, op, at) == Z80.ED1(c, k.iff2, y, z, at)
                && Z80.EDTarget(c, k.iff2, op, at) == (if z == 5 then Z80.Goto(Z80.Top(c)) else Z80.Stay)
                && Z80.EDLength(op) == (if z == 3 then 3 else 1) && op == 0x40 + 8 * y + z
                && (forall b :: Z80.EDTime(op, b) == Z80.EDTime(op, false))
                && Z80.EDControl(k, op) ==
                   k.(prefix := 0, im := if z == 6 then if y % 4 < 2 then 0 else y % 4 - 1 else k.im)
              else if op / 0x40 == 2 && y >= 4 && z < 4 then
                var b := Z80.Block(c, if y % 2 == 0 then 1 else -1, z);
                && Z80.ED(c, k.iff2, op, at) == b && op == 0x80 + 8 * y + z
                && Z80.EDTarget(c, k.iff2, op, at) ==
                   (if Z80.Repeats(b.regs, op) then Z80.Goto(Word(at - 1)) else Z80.Stay)
                && Z80.EDLength(op) == 1 && Z80.EDTime(op, true) == 17 && Z80.EDTime(op, false) == 12
                && Z80.EDControl(k, op) == k.(prefix := 0)
              else
                && Z80.ED(c, k.iff2, op, at) == c && Z80.EDTarget(c, k.iff2, op, at) == Z80.Stay
                && Z80.EDLength(op) == 1 && Z80.EDTime(op, false) == 4
                && Z80.EDControl(k, op) == k.(prefix := 0, iffWait := true)
    {
      hide Z80.ED1, Z80.Block, Z80.Repeats, Z80.Top;
    }

    /** Going round again moves PC back over both bytes of the instruction. */
    static lemma BlockLands(c: Z80.Core, d: int, z: nat, op: byte, at: word)
      requires z < 4 && c.regs.pc == Word(at + 1)
      ensures var b := Z80.Block(c, d, z);
              var again := Z80.Repeats(b.regs, op);
              (if again then WithPC(b, Word(b.regs.pc - 2)) else b)
              == Landed(b, if again then Z80.Goto(Word(at - 1)) else Z80.Stay, Word(at + 1))
    {
      BlockKeepsPC(c, d, z);
      WordPlus(at + 1, -2);
      hide Z80.Block, Z80.Repeats, Word;
    }

    static lemma BlockKeepsPC(c: Z80.Core, d: int, z: nat)
      requires z < 4
      ensures Z80.Block(c, d, z).regs.pc == c.regs.pc
    {
    }

    // ----- the main table

    method Branch(y: nat, ghost at: word)
      requires y < 8 && regs.pc == Word(at + 1)
      modifies this`regs, this`cycles
      ensures var target := Z80.RelativeTarget(mem, at);
              var jumps := Z80.Taken(old(regs), y);
              && regs == Z80.Branch(old(regs), y, target).(
                           pc := if jumps then target else Word(at + if y < 2 then 1 else 2))
              && cycles == old(cycles) +
                 (if y < 2 then 4 else if y == 2 then if jumps then 13 else 8 else if jumps then 12 else 7)
    {
      hide FlagByte, ByteFlags, Word;
      WordPlus(at + 1, 1);
      WordPlus(at + 2, Signed8(mem[Word(at + 1)]));
      match y {
        case 0 => cycles := cycles + 4;
        case 1 =>
          cycles := cycles + 4;
          var temp := regs.af2;
          regs := regs.(af2 := AF(regs));
          regs := SetAF(regs, temp);
        case 2 =>
          cycles := cycles + 8;
          var d := ReadD();
          CountDown(regs.bc);
          regs := SetB(regs, Byte(Hi(regs.bc) - 1));
          if Hi(regs.bc) != 0 {
            cycles := cycles + 5;
            MovePC(d);
            regs := regs.(wz := regs.pc);
          }
        case 3 =>
          cycles := cycles + 12;
          var d := ReadD();
          MovePC(d);
          regs := regs.(wz := regs.pc);
        case _ =>
          cycles := cycles + 7;
          var d := ReadD();
          if Z80.Cond(regs.f, y - 4) {
            cycles := cycles + 5;
            MovePC(d);
            regs := regs.(wz := regs.pc);
          }
      }
    }

    static lemma CountDown(bc: word)
      ensures var b := Byte(Hi(bc) - 1);
              Hi(Pair(b, Lo(bc))) == b && (b != 0 <==> Hi(bc) != 1)
    {
    }

    method Pairs(y: nat, ghost at: word)
      requires y < 8 && regs.pc == Word(at + 1)
      modifies this`regs, this`cycles
      ensures CoreOf() ==
              WithPC(Z80.Main0(old(CoreOf()), Z80.IndexOf(prefix), y, 1, at), Word(at + if y % 2 == 0 then 3 else 1))
      ensures cycles == old(cycles) + if y % 2 == 0 then 10 else 11
    {
      hide Z80.Add16, FlagByte, ByteFlags;
      WordPlus(at + 1, 2);
      if y % 2 == 0 {
        cycles := cycles + 10;
        var nn := ReadNN();
        WriteRp(y / 2, false, nn);
      } else {
        cycles := cycles + 11;
        Add16KeepsPC(regs, Z80.IndexOf(prefix), ReadRp(y / 2, false));
        Add16(ReadRp(y / 2, false));
      }
    }

    static lemma Add16KeepsPC(r: Regs, x: Z80.Index, v: word)
      ensures Z80.Add16(r, x, v).pc == r.pc
    {
    }

    method Indirect(y: nat, ghost at: word)
      requires y < 8 && regs.pc == Word(at + 1)
      modifies this`regs, this`mem, this`cycles
      ensures CoreOf() ==
              WithPC(Z80.Main0(old(CoreOf()), Z80.IndexOf(prefix), y, 2, at), Word(at + if y < 4 then 1 else 3))
      ensures cycles == old(cycles) + if y < 4 then 7 else if y < 6 then 16 else 13
    {
      WordPlus(at + 1, 2);
      match y {
        case 0 =>
          cycles := cycles + 7;
          WriteByte(regs.bc, regs.a);
        case 1 =>
          cycles := cycles + 7;
          regs := regs.(a := mem[regs.bc]);
        case 2 =>
          cycles := cycles + 7;
          WriteByte(regs.de, regs.a);
        case 3 =>
          cycles := cycles + 7;
          regs := regs.(a := mem[regs.de]);
        case 4 =>
          cycles := cycles + 16;
          var nn := ReadNN();
          regs := regs.(wz := nn);
          WriteWord(regs.wz, HLorI());
        case 5 =>
          cycles := cycles + 16;
          var nn := ReadNN();
          regs := regs.(wz := nn);
          SetHLorI(ReadWord(regs.wz));
        case 6 =>
          cycles := cycles + 13;
          var nn := ReadNN();
          regs := regs.(wz := nn);
          WriteByte(regs.wz, regs.a);
        case _ =>
          cycles := cycles + 13;
          var nn := ReadNN();
          regs := regs.(wz := nn);
          regs := regs.(a := mem[regs.wz]);
      }
    }

    method IncDec(y: nat, up: bool, ghost at: word)
      requires y < 8 && regs.pc == Word(at + 1)
      modifies this`regs, this`mem, this`cycles
      ensures var x := Z80.IndexOf(prefix);
              && CoreOf() == WithPC(Z80.IncDec(old(CoreOf()), x, y, up, at), Past(Word(at + 1), x, y))
              && cycles == old(cycles) + if y == 6 then 4 + Z80.ReadCost(x) + Z80.WriteCost(x) else 4
    {
      hide Z80.Located, Z80.Ea, Z80.Get8, Z80.Set8, Z80.IncDecFlags;
      ghost var before := CoreOf();
      cycles := cycles + 4;
      var was: int := ReadForUpdate(y, prefix / 0x100 == 0xDD || prefix / 0x100 == 0xFD);
      var v := if up then Byte(was + 1) else Byte(was - 1);
      WriteBack(y, v, before);
      IncDecMacros(regs.f, was, up);
      if up {
        regs := regs.(f := Result(v, HalfAdd8(was, 0, 1), was == 0x7F, false, regs.f.c));
      } else {
        regs := regs.(f := Result(v, HalfSub8(was, 0, 1), was == 0x80, true, regs.f.c));
      }
      Fields(before, Z80.IndexOf(prefix), y, v);
      KeepsFlags(before.regs, Z80.IndexOf(prefix), y, v);
    }

    static lemma IncDecMacros(f: Flags, was: byte, up: bool)
      ensures Z80.IncDecFlags(f, was, true) == Result(Byte(was + 1), HalfAdd8(was, 0, 1), was == 0x7F, false, f.c)
      ensures Z80.IncDecFlags(f, was, false) == Result(Byte(was - 1), HalfSub8(was, 0, 1), was == 0x80, true, f.c)
    {
      hide Bit, HalfAdd8, HalfSub8, Sign8;
      AddMacros(was, 0, 1);
      SubMacros(was, 0, 1);
      ResultIs(Byte(was + 1), HalfAdd8(was, 0, 1), was == 0x7F, false, f.c);
      ResultIs(Byte(was - 1), HalfSub8(was, 0, 1), was == 0x80, true, f.c);
    }

    method LoadImmediate(y: nat, ghost at: word)
      requires y < 8 && regs.pc == Word(at + 1)
      modifies this`regs, this`mem, this`cycles
      ensures var x := Z80.IndexOf(prefix);
              && CoreOf() == WithPC(Z80.Main0(old(CoreOf()), x, y, 6, at),
                                    Word(at + if y == 6 && x != Z80.HL then 3 else 2))
              && cycles == old(cycles) + if y == 6 then 7 + Z80.WriteCost(x) else 7
    {
      hide Z80.Ea, Z80.Set8, Z80.Located;
      cycles := cycles + 7;
      if y == 6 {
        StoreImmediate(at);
      } else {
        ghost var before := CoreOf();
        WordPlus(at + 1, 1);
        var n := ReadN();
        SetIgnoresPC(before.regs, Z80.IndexOf(prefix), y, n, regs.pc);
        WriteR(y, n);
      }
    }

    /** LD (HL),n. With an indexed operand the displacement comes first, so PC skips over it to
        read `n`, steps back two for the write to read it, and then skips `n` again. */
    method StoreImmediate(ghost at: word)
      requires regs.pc == Word(at + 1)
      modifies this`regs, this`mem, this`cycles
      ensures var x := Z80.IndexOf(prefix);
              && CoreOf() == WithPC(Z80.Main0(old(CoreOf()), x, 6, 6, at), Word(at + if x != Z80.HL then 3 else 2))
              && cycles == old(cycles) + Z80.WriteCost(x)
    {
      Store6(CoreOf(), Z80.IndexOf(prefix), at);
      hide Word, Signed8, Z80.Main0;
      var indexed := prefix / 0x100 == 0xDD || prefix / 0x100 == 0xFD;
      ghost var x := Z80.IndexOf(prefix);
      ghost var before := CoreOf();
      WordPlus(at + 1, 1);
      WordPlus(at + 2, 1);
      WordPlus(at + 3, -2);
      if indexed {
        MovePC(1);
      }
      var n := ReadN();
      if indexed {
        MovePC(-2);
      }
      EaIgnoresPC(before, x, regs.pc, Word(at + 1));
      WriteR(6, n);
      if indexed {
        MovePC(1);
      }
    }

    static lemma Store6(c: Z80.Core, x: Z80.Index, at: word)
      ensures var d := Word(at + 1);
              Z80.Main0(c, x, 6, 6, at)
              == Z80.Poke(Z80.Located(c, x, d), Z80.Ea(c, x, d), c.mem[Word(at + (if x == Z80.HL then 1 else 2))])
    {
    }

    static lemma EaIgnoresPC(c: Z80.Core, x: Z80.Index, pc: word, d: word)
      ensures Z80.Ea(WithPC(c, pc), x, d) == Z80.Ea(c, x, d)
    {
    }

    static lemma SetIgnoresPC(r: Regs, x: Z80.Index, i: nat, v: byte, pc: word)
      requires i < 8 && i != 6
      ensures Z80.Set8(r.(pc := pc), x, i, v) == Z80.Set8(r, x, i, v).(pc := pc)
    {
    }

    method Undoc()
      modifies this`regs
      ensures regs == Z80.Undoc(old(regs))
    {
      regs := regs.(f := regs.f.(f5 := Bit(regs.a, 5), f3 := Bit(regs.a, 3)));
    }

    method Accumulator(y: nat)
      requires y < 8
      modifies this`regs, this`cycles
      ensures regs == Z80.Accumulator(old(regs), y) && cycles == old(cycles) + 4
    {
      hide Bit, Z80.Daa;
      cycles := cycles + 4;
      match y {
        case 0 =>
          var was := regs.a / 0x80;
          regs := regs.(a := Byte(2 * regs.a) + was, f := regs.f.(c := was == 1, n := false, h := false));
          Undoc();
        case 1 =>
          var was := regs.a % 2;
          regs := regs.(a := regs.a / 2 + 0x80 * was, f := regs.f.(c := was == 1, n := false, h := false));
          Undoc();
        case 2 =>
          var was := regs.f.c;
          regs := regs.(a := Byte(2 * regs.a) + Num(was), f := regs.f.(c := regs.a >= 0x80, n := false, h := false));
          Undoc();
        case 3 =>
          var was := regs.f.c;
          regs := regs.(a := regs.a / 2 + 0x80 * Num(was), f := regs.f.(c := regs.a % 2 == 1, n := false, h := false));
          Undoc();
        case 4 => Daa();
        case 5 =>
          regs := regs.(a := 0xFF - regs.a, f := regs.f.(n := true, h := true));
          Undoc();
        case 6 =>
          regs := regs.(f := regs.f.(c := true, n := false, h := false));
          Undoc();
        case _ =>
          regs := regs.(f := regs.f.(h := regs.f.c, c := !regs.f.c, n := false));
          Undoc();
      }
    }

    method Execute0(y: nat, z: nat, ghost op: byte, ghost at: word)
      requires y < 8 && z < 8 && op == 8 * y + z && regs.pc == Word(at + 1)
      modifies this`regs, this`mem, this`cycles
      ensures var x := Z80.IndexOf(prefix);
              var target := Z80.MainTarget(old(CoreOf()), x, op, at);
              && CoreOf() == Landed(Z80.Main0(old(CoreOf()), x, y, z, at), target, Word(at + Z80.MainLength(x, op)))
              && cycles == old(cycles) + Z80.MainTime(x, op, target != Z80.Stay)
    {
      hide Z80.Branch, Z80.Indirect, Z80.IncDec, Z80.Accumulator, Z80.Add16, Z80.Main0, Z80.RelativeTarget, Z80.Taken,
        Z80.MainTarget, Z80.MainLength, Z80.MainTime, Word;
      ghost var x := Z80.IndexOf(prefix);
      Tables0(CoreOf(), x, y, z, op, at);
      Rows0(CoreOf(), x, y, z, at);
      WordPlus(at + 1, 1);
      match z {
        case 0 => Branch(y, at);
        case 1 => Pairs(y, at);
        case 2 => Indirect(y, at);
        case 3 =>
          cycles := cycles + 6;
          if y % 2 == 0 { WriteRp(y / 2, false, Word(ReadRp(y / 2, false) + 1)); }
          else { WriteRp(y / 2, false, Word(ReadRp(y / 2, false) - 1)); }
        case 4 => IncDec(y, true, at);
        case 5 => IncDec(y, false, at);
        case 6 => LoadImmediate(y, at);
        case _ => Accumulator(y);
      }
    }

    /** The tables for the first quarter of the opcodes, row by row. */
    static lemma Tables0(c: Z80.Core, x: Z80.Index, y: nat, z: nat, op: byte, at: word)
      requires y < 8 && z < 8 && op == 8 * y + z
      ensures Z80.MainTarget(c, x, op, at) ==
              if z == 0 && Z80.Taken(c.regs, y) then Z80.Goto(Z80.RelativeTarget(c.mem, at)) else Z80.Stay
      ensures forall b :: Z80.MainTime(x, op, b) == Z80.Time0(x, y, z, b)
      ensures Z80.MainLength(x, op) ==
              if z == 0 then if y < 2 then 1 else 2
              else if z == 1 then if y % 2 == 0 then 3 else 1
              else if z == 2 then if y < 4 then 1 else 3
              else if z == 4 || z == 5 then if y == 6 && x != Z80.HL then 2 else 1
              else if z == 6 then if y == 6 && x != Z80.HL then 3 else 2
              else 1
    {
      hide Z80.RelativeTarget, Z80.Taken;
    }

    static lemma Rows0(c: Z80.Core, x: Z80.Index, y: nat, z: nat, at: word)
      requires y < 8 && z < 8
      ensures z == 0 ==> Z80.Main0(c, x, y, z, at) == c.(regs := Z80.Branch(c.regs, y, Z80.RelativeTarget(c.mem, at)))
      ensures z == 3 ==> Z80.Main0(c, x, y, z, at) == c.(regs := Z80.SetPair(c.regs, x, y / 2, false,
                if y % 2 == 0 then Word(Z80.GetPair(c.regs, x, y / 2, false) + 1)
                else Word(Z80.GetPair(c.regs, x, y / 2, false) - 1)))
      ensures z == 4 || z == 5 ==> Z80.Main0(c, x, y, z, at) == Z80.IncDec(c, x, y, z == 4, at)
      ensures z == 7 ==> Z80.Main0(c, x, y, z, at) == c.(regs := Z80.Accumulator(c.regs, y))
                         && Z80.Accumulator(c.regs, y).pc == c.regs.pc
    {
      hide Z80.Branch, Z80.Indirect, Z80.IncDec, Z80.Add16, Z80.RelativeTarget, Z80.Taken,
        Bit, Z80.ResultFlags, Z80.Rot, Z80.DaaFix;
    }

    method Execute1(y: nat, z: nat, ghost at: word)
      requires y < 8 && z < 8 && regs.pc == Word(at + 1)
      modifies this`regs, this`mem, this`cycles, this`prefix, this`halted
      ensures var x := old(Z80.IndexOf(prefix));
              && CoreOf() == WithPC(Z80.Main1(old(CoreOf()), x, y, z, at),
                                    Word(at + if (y == 6) != (z == 6) && x != Z80.HL then 2 else 1))
              && cycles == old(cycles) + Z80.MainTime(x, 0x40 + 8 * y + z, false)
              && halted == (old(halted) || (y == 6 && z == 6))
    {
      hide Z80.Ea, Z80.Set8, Z80.Get8, Z80.MainTime, Word;
      ghost var x := Z80.IndexOf(prefix);
      ghost var before := CoreOf();
      Tables1(x, y, z, 0x40 + 8 * y + z);
      WordPlus(at + 1, 1);
      if z == 6 && y == 6 {
        cycles := cycles + 4;
        halted := true;
      } else {
        cycles := cycles + 4;
        ReadWriteR(z, y);
        if z == 6 {
          SetIgnoresPC(Z80.Located(before, x, Word(at + 1)).regs, Z80.HL, y,
                        before.mem[Z80.Ea(before, x, Word(at + 1))],
                       if x == Z80.HL then Word(at + 1) else Word(at + 2));
        } else if y != 6 {
          SetIgnoresPC(before.regs, x, y, Z80.Get8(before.regs, x, z), before.regs.pc);
        }
      }
    }

    static lemma Tables1(x: Z80.Index, y: nat, z: nat, op: byte)
      requires y < 8 && z < 8 && op == 0x40 + 8 * y + z
      ensures forall b :: Z80.MainTime(x, op, b) ==
                          if y == 6 && z == 6 then 4 else if z == 6 then 4 + Z80.ReadCost(x)
                          else if y == 6 then 4 + Z80.WriteCost(x) else 4
      ensures Z80.MainLength(x, op) == if (y == 6) != (z == 6) && x != Z80.HL then 2 else 1
    {
    }

    method Execute2(y: nat, z: nat, ghost at: word)
      requires y < 8 && z < 8 && regs.pc == Word(at + 1)
      modifies this`regs, this`mem, this`cycles
      ensures var x := Z80.IndexOf(prefix);
              && CoreOf() == WithPC(Z80.Main2(old(CoreOf()), x, y, z, at),
                                    Word(at + if z == 6 && x != Z80.HL then 2 else 1))
              && cycles == old(cycles) + if z == 6 then 4 + Z80.ReadCost(x) else 4
    {
      hide Z80.Ea, Z80.Get8, Z80.Alu, Word;
      WordPlus(at + 1, 1);
      ghost var before := CoreOf();
      ghost var x := Z80.IndexOf(prefix);
      var v := ReadR(z);
      AluIgnoresPC(Z80.Located(before, x, Word(at + 1)).regs, y, v, regs.pc);
      AluIgnoresPC(before.regs, y, v, regs.pc);
      ExecuteAlu(y, v);
    }

    static lemma AluIgnoresPC(r: Regs, y: nat, v: byte, pc: word)
      requires y < 8
      ensures Z80.Alu(r.(pc := pc), y, v) == Z80.Alu(r, y, v).(pc := pc)
    {
      hide Z80.SumFlags, Z80.DifferenceFlags, Z80.ResultFlags, And8, Or8, Xor8, Bit, EvenParity, Byte;
    }

    method Execute31(y: nat, ghost at: word)
      requires y < 8 && regs.pc == Word(at + 1)
      modifies this`regs, this`cycles
      ensures var x := Z80.IndexOf(prefix);
              var target := Z80.Target3(old(CoreOf()), x, y, 1, at);
              && CoreOf() == Landed(old(CoreOf()).(regs := Z80.Main31(old(regs), x, y, Z80.Top(old(CoreOf())))),
                                    target, Word(at + 1))
              && cycles == old(cycles) + Z80.Time3(y, 1, target != Z80.Stay)
    {
      hide FlagByte, ByteFlags, Z80.ReadWord, Word;
      if y % 2 == 0 {
        cycles := cycles + 10;
        var w := Pop();
        WriteRp(y / 2, true, w);
      } else {
        match y / 2 {
          case 0 =>
            cycles := cycles + 10;
            var pc := Pop();
            regs := regs.(pc := pc);
          case 1 =>
            cycles := cycles + 4;
            var temp := regs.hl2;
            regs := regs.(hl2 := regs.hl);
            regs := regs.(hl := temp);
            temp := regs.de2;
            regs := regs.(de2 := regs.de);
            regs := regs.(de := temp);
            temp := regs.bc2;
            regs := regs.(bc2 := regs.bc);
            regs := regs.(bc := temp);
          case 2 =>
            cycles := cycles + 4;
            regs := regs.(pc := HLorI());
          case _ =>
            cycles := cycles + 6;
            regs := regs.(sp := HLorI());
        }
      }
    }

    /** The opcodes with z = 3 other than the CB prefix, DI and EI. */
    method Execute33(y: nat, ghost at: word)
      requires y < 6 && y != 1 && regs.pc == Word(at + 1)
      modifies this`regs, this`mem, this`cycles, this`line, this`answers, this`io
      ensures var x := Z80.IndexOf(prefix);
              var target := Z80.Target3(old(CoreOf()), x, y, 3, at);
              && CoreOf() == Landed(Z80.Main33(old(CoreOf()), x, y, at), target,
                                    Word(at + if y == 2 || y == 3 then 2 else 1))
              && cycles == old(cycles) + Z80.Time3(y, 3, target != Z80.Stay)
    {
      hide Word, Z80.ReadWord, Z80.WriteWord;
      WordPlus(at + 1, 1);
      match y {
        case 0 =>
          cycles := cycles + 10;
          var nn := ReadNN();
          regs := regs.(pc := nn);
        case 2 =>
          cycles := cycles + 11;
          var n := ReadN();
          PortOut(n, regs.a);
        case 3 =>
          cycles := cycles + 11;
          var n := ReadN();
          var v := PortIn(n);
          regs := regs.(a := v);
        case 4 =>
          cycles := cycles + 19;
          regs := regs.(wz := ReadWord(regs.sp));
          WriteWord(regs.sp, HLorI());
          SetHLorI(regs.wz);
        case _ =>
          cycles := cycles + 4;
          var temp := regs.hl;
          regs := regs.(hl := regs.de);
          regs := regs.(de := temp);
      }
    }

    method Call(nn: word)
      modifies this`regs, this`mem
      ensures CoreOf() == WithPC(Z80.Push(old(CoreOf()), old(regs).pc), nn)
    {
      hide Z80.WriteWord;
      Push(regs.pc);
      regs := regs.(pc := nn);
    }

    /** Rows of the last quarter that neither set a prefix nor touch the interrupt flags. */
    method Execute3(y: nat, z: nat, ghost at: word)
      requires y < 8 && z < 8 && regs.pc == Word(at + 1)
      requires z == 3 ==> y < 6 && y != 1
      requires z == 5 ==> y % 2 == 0 || y == 1
      modifies this`regs, this`mem, this`cycles, this`line, this`answers, this`io
      ensures var x := Z80.IndexOf(prefix);
              var target := Z80.Target3(old(CoreOf()), x, y, z, at);
              && CoreOf() == Landed(Z80.Main3(old(CoreOf()), x, y, z, at), target, Word(at + Length3(y, z)))
              && cycles == old(cycles) + Z80.Time3(y, z, target != Z80.Stay)
    {
      hide Word, Z80.ReadWord, Z80.WriteWord, Z80.Main31, Z80.Main33, FlagByte, ByteFlags, Z80.Alu, Z80.Cond;
      WordPlus(at + 1, 1);
      WordPlus(at + 1, 2);
      match z {
        case 0 =>
          cycles := cycles + 5;
          if Z80.Cond(regs.f, y) {
            var pc := Pop();
            regs := regs.(pc := pc);
            cycles := cycles + 6;
          }
        case 1 => Execute31(y, at);
        case 2 =>
          cycles := cycles + 10;
          var nn := ReadNN();
          if Z80.Cond(regs.f, y) {
            regs := regs.(pc := nn);
          }
        case 3 => Execute33(y, at);
        case 4 =>
          cycles := cycles + 10;
          var nn := ReadNN();
          if Z80.Cond(regs.f, y) {
            cycles := cycles + 7;
            Call(nn);
          }
        case 5 =>
          if y % 2 == 0 {
            cycles := cycles + 11;
            Push(ReadRp(y / 2, true));
          } else {
            cycles := cycles + 17;
            var nn := ReadNN();
            Call(nn);
          }
        case 6 =>
          var n := ReadN();
          AluIgnoresPC(old(regs), y, n, regs.pc);
          ExecuteAlu(y, n);
        case _ =>
          cycles := cycles + 11;
          Call(8 * y);
      }
    }

    /** `reset` tells whether the prefix is to be cleared afterwards. */
    method ExecuteMain(op: byte, ghost at: word) returns (reset: bool)
      requires prefix == 0 || prefix == 0xDD00 || prefix == 0xFD00
      requires regs.pc == Word(at + 1)
      modifies this`regs, this`mem, this`cycles, this`line, this`answers, this`io,
        this`prefix, this`iff1, this`iff2, this`iffWait, this`halted
      ensures var x := old(Z80.IndexOf(prefix));
              var target := Z80.MainTarget(old(CoreOf()), x, op, at);
              && CoreOf() == Landed(Z80.Main(old(CoreOf()), x, op, at), target, Word(at + Z80.MainLength(x, op)))
              && cycles == old(cycles) + Z80.MainTime(x, op, target != Z80.Stay)
      ensures ControlOf().(prefix := if reset then 0 else prefix) == Z80.MainControl(old(ControlOf()), op)
    {
      hide Z80.Main, Z80.MainTarget, Z80.MainLength, Z80.MainTime, Z80.MainControl, Word;
      OpcodeParts(op);
      if op / 0x40 == 3 {
        Tables3(CoreOf(), Z80.IndexOf(prefix), op / 8 % 8, op % 8, op, at);
        reset := ExecuteLast(op / 8 % 8, op % 8, op, at);
      } else {
        PlainControl(ControlOf(), op);
        ExecuteFirst(op, at);
        reset := true;
      }
    }

    method ExecuteFirst(op: byte, ghost at: word)
      requires op < 0xC0 && regs.pc == Word(at + 1)
      modifies this`regs, this`mem, this`cycles, this`prefix, this`halted
      ensures var x := old(Z80.IndexOf(prefix));
              var target := Z80.MainTarget(old(CoreOf()), x, op, at);
              && CoreOf() == Landed(Z80.Main(old(CoreOf()), x, op, at), target, Word(at + Z80.MainLength(x, op)))
              && cycles == old(cycles) + Z80.MainTime(x, op, target != Z80.Stay)
              && halted == (old(halted) || op == 0x76)
    {
      hide Z80.Main0, Z80.Main1, Z80.Main2, Z80.Main3, Z80.MainTarget, Z80.MainLength, Z80.MainTime, Word;
      var y, z := op / 8 % 8, op % 8;
      OpcodeParts(op);
      match op / 0x40 {
        case 0 => Execute0(y, z, op, at);
        case 1 =>
          Tables1(Z80.IndexOf(prefix), y, z, op);
          TargetsMiddle(CoreOf(), Z80.IndexOf(prefix), op, at);
          Execute1(y, z, at);
        case _ =>
          Tables2(Z80.IndexOf(prefix), y, z, op);
          TargetsMiddle(CoreOf(), Z80.IndexOf(prefix), op, at);
          Execute2(y, z, at);
      }
    }

    method ExecuteLast(y: nat, z: nat, ghost op: byte, ghost at: word) returns (reset: bool)
      requires y < 8 && z < 8 && op == 0xC0 + 8 * y + z
      requires prefix == 0 || prefix == 0xDD00 || prefix == 0xFD00
      requires regs.pc == Word(at + 1)
      modifies this`regs, this`mem, this`cycles, this`line, this`answers, this`io,
        this`prefix, this`iff1, this`iff2, this`iffWait
      ensures var x := old(Z80.IndexOf(prefix));
              var target := Z80.Target3(old(CoreOf()), x, y, z, at);
              && CoreOf() == Landed(Z80.Main3(old(CoreOf()), x, y, z, at), target, Word(at + Length3(y, z)))
              && cycles == old(cycles) + Z80.Time3(y, z, target != Z80.Stay)
      ensures ControlOf().(prefix := if reset then 0 else prefix) == Z80.MainControl(old(ControlOf()), op)
    {
      hide Z80.Main3, Z80.MainControl, Z80.Target3, Z80.Time3, Length3, Word;
      reset := true;
      if (z == 3 && (y == 1 || y >= 6)) || (z == 5 && y % 2 == 1 && y != 1) {
        reset := Control3(y, z, CoreOf(), Z80.IndexOf(prefix), op, at);
      } else {
        PlainControl(ControlOf(), op);
        Execute3(y, z, at);
      }
    }

    static lemma OpcodeParts(op: byte)
      ensures op == 0x40 * (op / 0x40) + 8 * (op / 8 % 8) + op % 8
    {
    }

    static lemma PlainControl(k: Z80.Control, op: byte)
      requires !Z80.IsPrefixOp(op) && op != 0xF3 && op != 0xFB
      ensures Z80.MainControl(k, op) == k.(prefix := 0, halted := k.halted || op == 0x76)
    {
    }

    static lemma TargetsMiddle(c: Z80.Core, x: Z80.Index, op: byte, at: word)
      requires op / 0x40 == 1 || op / 0x40 == 2
      ensures Z80.MainTarget(c, x, op, at) == Z80.Stay
    {
    }

    static lemma Tables2(x: Z80.Index, y: nat, z: nat, op: byte)
      requires y < 8 && z < 8 && op == 0x80 + 8 * y + z
      ensures forall b :: Z80.MainTime(x, op, b) == if z == 6 then 4 + Z80.ReadCost(x) else 4
      ensures Z80.MainLength(x, op) == if z == 6 && x != Z80.HL then 2 else 1
    {
    }

    static lemma Tables3(c: Z80.Core, x: Z80.Index, y: nat, z: nat, op: byte, at: word)
      requires y < 8 && z < 8 && op == 0xC0 + 8 * y + z
      ensures Z80.MainTarget(c, x, op, at) == Z80.Target3(c, x, y, z, at)
      ensures forall b :: Z80.MainTime(x, op, b) == Z80.Time3(y, z, b)
      ensures Z80.MainLength(x, op) == Length3(y, z) && Z80.Main(c, x, op, at) == Z80.Main3(c, x, y, z, at)
    {
      hide Z80.Main3, Z80.Target3, Z80.Taken;
    }

    /** The prefix bytes, DI and EI. */
    method Control3(y: nat, z: nat, ghost c: Z80.Core, ghost x: Z80.Index, ghost op: byte, ghost at: word)
      returns (reset: bool)
      requires prefix == 0 || prefix == 0xDD00 || prefix == 0xFD00
      requires (z == 3 && (y == 1 || y == 6 || y == 7)) || (z == 5 && (y == 3 || y == 5 || y == 7))
      requires op == 0xC0 + 8 * y + z && c == CoreOf() && regs.pc == Word(at + 1)
      modifies this`cycles, this`prefix, this`iff1, this`iff2, this`iffWait
      ensures CoreOf() == Landed(Z80.Main3(c, x, y, z, at), Z80.Target3(c, x, y, z, at), Word(at + 1))
      ensures cycles == old(cycles) + 4 && Z80.Time3(y, z, false) == 4
              && Z80.Target3(c, x, y, z, at) == Z80.Stay && Length3(y, z) == 1
      ensures ControlOf().(prefix := if reset then 0 else prefix) == Z80.MainControl(old(ControlOf()), op)
    {
      hide Word, Z80.ReadWord, Z80.Main31, Z80.Push, Z80.Alu, Z80.Cond;
      cycles := cycles + 4;
      reset := false;
      if z == 3 {
        match y {
          case 1 => prefix := prefix / 0x100 * 0x100 + 0xCB;
          case 6 =>
            iff1, iff2 := false, false;
            reset := true;
          case _ =>
            iff1, iff2, iffWait := true, true, true;
            reset := true;
        }
      } else {
        match y {
          case 3 => prefix := 0xDD00 + prefix % 0x100;
          case 5 => prefix := 0xED00 + prefix % 0x100;
          case _ => prefix := 0xFD00 + prefix % 0x100;
        }
      }
    }

    // ----- the loop

    method HandleInterrupt()
      modifies this`regs, this`mem, this`cycles, this`iff1, this`iff2
      requires !halted
      ensures var t := Z80.Accept(old(Abs()));
              Abs() == t && cycles == old(cycles) + (if im == 1 then 13 else if im == 2 then 19 else 0)
    {
      hide Z80.WriteWord;
      match im {
        case 1 =>
          cycles := cycles + 13;
          Push(regs.pc);
          regs := regs.(pc := 0x38);
          iff1, iff2 := false, false;
        case 2 =>
          cycles := cycles + 19;
          Push(regs.pc);
          regs := regs.(pc := Pair(regs.i, bus));
          iff1, iff2 := false, false;
        case _ =>
      }
    }

    /** Fetches an opcode byte and carries it out. */
    method Fetch()
      requires Inv(Abs())
      modifies this
      ensures Abs() == Z80.Exec(old(Abs())) && cycles == old(cycles) + Z80.Time(old(Abs()))
    {
      hide Z80.Main, Z80.CB, Z80.ED, Z80.MainTarget, Z80.EDTarget, Z80.MainLength, Z80.EDLength, Z80.IndexedCBLength,
        Z80.MainTime, Z80.EDTime, Z80.CBTime, Z80.MainControl, Z80.EDControl, Z80.Refresh, Z80.Exec, Z80.Time, Word;
      ghost var s := Abs();
      ghost var at: int := regs.pc;
      ByTable(s);
      Prefixes(prefix);
      WordPlus(at + 1, -1);
      Small(at);
      var op := mem[regs.pc];
      MovePC(1);
      RefreshMasks(regs.r);
      var oldR := regs.r;
      regs := regs.(r := (regs.r + 1) % 0x100 % 0x80 + oldR / 0x80 * 0x80);
      assert CoreOf() == Z80.Fetched(s.core);
      var reset := true;
      if prefix % 0x100 == 0xCB {
        CBIgnoresFetch(s.core, Z80.IndexOf(prefix), Z80.Opcode(s), at);
        ExecuteCB(op);
      } else if prefix / 0x100 == 0xED {
        ExecuteED(op, at);
      } else {
        reset := ExecuteMain(op, at);
      }
      if reset {
        prefix := 0;
      }
    }

    static lemma Prefixes(p: word)
      requires LegalPrefix(p)
      ensures p % 0x100 == 0xCB <==> p == 0xCB || p == 0xDDCB || p == 0xFDCB
      ensures p / 0x100 == 0xED <==> p == 0xED00
      ensures p / 0x100 == 0 <==> p == 0 || p == 0xCB
      ensures Z80.IndexOf(p) ==
              (if p == 0xDD00 || p == 0xDDCB then Z80.IX else if p == 0xFD00 || p == 0xFDCB then Z80.IY else Z80.HL)
    {
    }

    static lemma RefreshMasks(r: byte)
      ensures (r + 1) % 0x100 % 0x80 + r / 0x80 * 0x80 == Z80.Refresh(r)
    {
    }

    /** Putting PC back on the displacement undoes the fetch, as far as the tables can tell. */
    static lemma CBIgnoresFetch(c: Z80.Core, x: Z80.Index, op: byte, at: word)
      ensures forall q: word ::
                WithPC(Z80.CB(WithPC(Z80.Fetched(c), at), x, op, at), q) == WithPC(Z80.CB(Z80.Fetched(c), x, op, at), q)
    {
      hide Z80.CBOn;
      CBIgnoresPC(Z80.Fetched(c), x, op / 0x40, op / 8 % 8, op % 8, at, at);
    }

    /** One opcode fetch, table by table. */
    static lemma ByTable(s: Z80.State)
      requires Inv(s)
      ensures var c, p, at, op := Z80.Fetched(s.core), s.ctl.prefix, s.core.regs.pc, Z80.Opcode(s);
              if p == 0xCB || p == 0xDDCB || p == 0xFDCB then
                var x := Z80.IndexOf(p);
                && op == s.core.mem[if p == 0xCB then at else Word(at + 1)]
                && Z80.Exec(s) == Z80.State(WithPC(Z80.CB(c, x, op, at),
                                                Word(at + if x == Z80.HL then 1 else Z80.IndexedCBLength(op))),
                                            s.ctl.(prefix := 0))
                && Z80.Time(s) == Z80.CBTime(x, op)
              else if p == 0xED00 then
                var target := Z80.EDTarget(c, s.ctl.iff2, op, at);
                && op == s.core.mem[at]
                && Z80.Exec(s) == Z80.State(Landed(Z80.ED(c, s.ctl.iff2, op, at), target, Word(at + Z80.EDLength(op))),
                                         Z80.EDControl(s.ctl, op))
                && Z80.Time(s) == Z80.EDTime(op, target != Z80.Stay)
              else
                var x := Z80.IndexOf(p);
                var target := Z80.MainTarget(c, x, op, at);
                && op == s.core.mem[at]
                && Z80.Exec(s) == Z80.State(Landed(Z80.Main(c, x, op, at), target, Word(at + Z80.MainLength(x, op))),
                                         Z80.MainControl(s.ctl, op))
                && Z80.Time(s) == Z80.MainTime(x, op, target != Z80.Stay)
    {
      hide Z80.Main, Z80.CB, Z80.ED, Z80.MainTarget, Z80.EDTarget, Z80.MainLength, Z80.EDLength, Z80.IndexedCBLength,
        Z80.MainTime, Z80.EDTime, Z80.CBTime, Z80.MainControl, Z80.EDControl, Z80.Refresh, Word;
      Prefixes(s.ctl.prefix);
    }

    /** One pass of the loop in `cpu_execute`: `spent` is what it takes off the budget. */
    method Pass() returns (spent: nat)
      requires Inv(Abs())
      modifies this
      ensures Abs() == Z80.Pass(old(Abs())) && spent == Z80.Cost(old(Abs()))
    {
      hide Z80.Exec, Z80.Time, Z80.Push;
      cycles := 0;
      var accepted := false;
      if iff2 && prefix == 0 {
        if iffWait {
          iffWait := false;
        } else if line {
          halted := false;
          HandleInterrupt();
          accepted := true;
        }
      }
      if !accepted {
        if halted {
          cycles := cycles + 4;
        } else {
          UnwaitKeeps(old(Abs()));
          Fetch();
        }
      }
      spent := if cycles == 0 then 1 else cycles;
    }

    static lemma UnwaitKeeps(s: Z80.State)
      requires Inv(s)
      ensures Inv(Z80.Unwait(s)) && Z80.Time(Z80.Unwait(s)) == Z80.Time(s) && Z80.Time(s) > 0
    {
      TimeBounds(s);
      hide Z80.EDTarget, Z80.MainTarget;
    }

    /** `cpu_execute`. Where it returns at all, it does so after the first number of passes that
        uses up the budget and leaves no prefix pending. */
    method Execute(budget: int) returns (left: int)
      requires Inv(Abs()) && exists n: nat :: Exits(Abs(), budget, n)
      modifies this
      ensures Inv(Abs())
      ensures exists n: nat :: Exits(old(Abs()), budget, n) && Abs() == After(old(Abs()), n)
                               && left == budget - Spent(old(Abs()), n)
    {
      hide Z80.Pass, Z80.Cost, Inv;
      ghost var s := Abs();
      ghost var end: nat :| Exits(s, budget, end);
      ghost var n := 0;
      left := budget;
      while left > 0 || prefix != 0
        invariant Inv(Abs()) && Abs() == After(s, n) && left == budget - Spent(s, n)
        invariant n <= end
        decreases end - n
      {
        assert !Done(s, budget, n);
        AfterAdd(s, n, 1);
        PassKeepsInv(Abs());
        assert After(Abs(), 1) == Z80.Pass(Abs()) && Spent(Abs(), 1) == Z80.Cost(Abs());
        var spent := Pass();
        left := left - spent;
        n := n + 1;
      }
      assert Done(s, budget, n);
    }
  }

  /** Where PC ends up: at a jump target, or at the next instruction. */
  ghost function Landed(c: Z80.Core, target: Z80.Target, next: word): Z80.Core {
    WithPC(c, match target case Stay => next case Goto(pc) => pc)
  }

  ghost function Length3(y: nat, z: nat): nat {
    if z == 2 || z == 4 || (z == 3 && y == 0) || (z == 5 && y == 1) then 3
    else if z == 6 || (z == 3 && (y == 2 || y == 3)) then 2
    else 1
  }

  ghost function WithPC(c: Z80.Core, pc: word): Z80.Core { c.(regs := c.regs.(pc := pc)) }

  /** PC past the displacement, which only a memory operand under DD or FD has. */
  ghost function Past(pc: word, x: Z80.Index, z: nat): word {
    if z == 6 && x != Z80.HL then Word(pc + 1) else pc
  }
}
