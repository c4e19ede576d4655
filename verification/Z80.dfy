/** What one pass of the loop in `cpu_execute` does, as a function from state to state.

    This is the specification the class in Cpu.dfy is proved against, and what every theorem
    about runs speaks of. It is written the way a processor manual describes instructions, as
    separate tables: how long an instruction is, how many cycles it takes, what it does to the
    control state, what it does to registers and memory, and where it jumps. The source instead
    interleaves all of these, re-reads displacement bytes by moving PC back and forth, and edits
    the prefix in mid-instruction. */
module Z80 {
  import opened Bytes
  import opened Registers

  /** What the read_byte and write_byte callbacks answer: a flat 64K address space. */
  type Memory = m: seq<byte> | |m| == 0x10000 witness seq(0x10000, _ => 0)

  /** What a device answers to one port access: the byte read, and the level of the CPU
      interrupt line afterwards. With no answer left there is no device: reads give 0. */
  datatype Answer = Answer(val: byte, line: bool)

  datatype IoEvent = In(port: byte, val: byte) | Out(port: byte, val: byte)

  /** Registers, memory and devices. */
  datatype Core = Core(regs: Regs, mem: Memory, line: bool, answers: seq<Answer>, io: seq<IoEvent>)

  type IntMode = x: int | 0 <= x < 4

  datatype Control = Control(prefix: word, iff1: bool, iff2: bool, im: IntMode, iffWait: bool, halted: bool, bus: byte)

  datatype State = State(core: Core, ctl: Control)

  datatype Target = Stay | Goto(pc: word)

  // ----- memory, stack and ports

  function PC(s: State): word { s.core.regs.pc }

  function SetPC(s: State, pc: word): State { s.(core := s.core.(regs := s.core.regs.(pc := pc))) }

  function ReadWord(m: Memory, a: word): word { Pair(m[Word(a + 1)], m[a]) }

  function Poke(c: Core, a: word, v: byte): Core { c.(mem := c.mem[a := v]) }

  function WriteWord(m: Memory, a: word, w: word): Memory { m[a := Lo(w)][Word(a + 1) := Hi(w)] }

  function PokeWord(c: Core, a: word, w: word): Core { c.(mem := WriteWord(c.mem, a, w)) }

  function Push(c: Core, w: word): Core {
    var sp := Word(c.regs.sp - 2);
    PokeWord(c, sp, w).(regs := c.regs.(sp := sp))
  }

  function Top(c: Core): word { ReadWord(c.mem, c.regs.sp) }

  function Drop(r: Regs): Regs { r.(sp := Word(r.sp + 2)) }

  function InValue(c: Core): byte { if c.answers == [] then 0 else c.answers[0].val }

  function Answered(c: Core): Core {
    if c.answers == [] then c else c.(line := c.answers[0].line, answers := c.answers[1..])
  }

  function PortIn(c: Core, port: byte): Core { Answered(c).(io := c.io + [In(port, InValue(c))]) }

  function PortOut(c: Core, port: byte, v: byte): Core { Answered(c).(io := c.io + [Out(port, v)]) }

  // ----- operands

  /** Which register plays the part of HL. */
  datatype Index = HL | IX | IY

  function IndexOf(prefix: word): Index {
    if prefix / 0x100 == 0xDD then IX else if prefix / 0x100 == 0xFD then IY else HL
  }

  function GetX(r: Regs, x: Index): word {
    match x case HL => r.hl case IX => r.ix case IY => r.iy
  }

  function SetX(r: Regs, x: Index, w: word): Regs {
    match x case HL => r.(hl := w) case IX => r.(ix := w) case IY => r.(iy := w)
  }

  /** The eight-bit register operands; 6 is the memory operand and is handled apart. */
  function Get8(r: Regs, x: Index, i: nat): byte
    requires i < 8 && i != 6
  {
    match i
    case 0 => Hi(r.bc) case 1 => Lo(r.bc) case 2 => Hi(r.de) case 3 => Lo(r.de)
    case 4 => Hi(GetX(r, x)) case 5 => Lo(GetX(r, x)) case _ => r.a
  }

  function Set8(r: Regs, x: Index, i: nat, v: byte): Regs
    requires i < 8 && i != 6
  {
    match i
    case 0 => r.(bc := Pair(v, Lo(r.bc))) case 1 => r.(bc := Pair(Hi(r.bc), v))
    case 2 => r.(de := Pair(v, Lo(r.de))) case 3 => r.(de := Pair(Hi(r.de), v))
    case 4 => SetX(r, x, Pair(v, Lo(GetX(r, x)))) case 5 => SetX(r, x, Pair(Hi(GetX(r, x)), v))
    case _ => r.(a := v)
  }

  /** The register pairs; `stack` selects AF instead of SP (PUSH and POP). */
  function GetPair(r: Regs, x: Index, p: nat, stack: bool): word
    requires p < 4
  {
    match p case 0 => r.bc case 1 => r.de case 2 => GetX(r, x) case _ => if stack then AF(r) else r.sp
  }

  function SetPair(r: Regs, x: Index, p: nat, stack: bool, w: word): Regs
    requires p < 4
  {
    match p
    case 0 => r.(bc := w) case 1 => r.(de := w) case 2 => SetX(r, x, w)
    case _ => if stack then SetAF(r, w) else r.(sp := w)
  }

  /** The address of the memory operand: HL, or an index register plus the displacement at `d`. */
  function Ea(c: Core, x: Index, d: word): word {
    if x == HL then c.regs.hl else Word(GetX(c.regs, x) + Signed8(c.mem[d]))
  }

  /** An indexed address is also left in WZ. */
  function Located(c: Core, x: Index, d: word): Core {
    if x == HL then c else c.(regs := c.regs.(wz := Ea(c, x, d)))
  }

  predicate Cond(f: Flags, y: nat)
    requires y < 8
  {
    match y
    case 0 => !f.z case 1 => f.z case 2 => !f.c case 3 => f.c
    case 4 => !f.pv case 5 => f.pv case 6 => !f.s case _ => f.s
  }

  // ----- arithmetic

  /** Sign, zero and the two undocumented bits of a result. */
  function ResultFlags(r: byte, h: bool, pv: bool, n: bool, c: bool): Flags {
    Flags(r >= 0x80, r == 0, Bit(r, 5), h, Bit(r, 3), pv, n, c)
  }

  function Sum(a: byte, v: byte, c: nat): byte { Byte(a + v + c) }

  function Difference(a: byte, v: byte, c: nat): byte { Byte(a - v - c) }

  function SumFlags(a: byte, v: byte, c: nat): Flags {
    var r := Sum(a, v, c);
    ResultFlags(r, a % 0x10 + v % 0x10 + c >= 0x10,
                (a >= 0x80) == (v >= 0x80) && (a >= 0x80) != (r >= 0x80), false, a + v + c >= 0x100)
  }

  function DifferenceFlags(a: byte, v: byte, c: nat): Flags {
    var r := Difference(a, v, c);
    ResultFlags(r, a % 0x10 - v % 0x10 - c < 0,
                (a >= 0x80) != (v >= 0x80) && (a >= 0x80) != (r >= 0x80), true, a - v - c < 0)
  }

  function Logic(r: Regs, v: byte, h: bool): Regs {
    r.(a := v, f := ResultFlags(v, h, EvenParity(v), false, false))
  }

  function Alu(r: Regs, i: nat, v: byte): Regs
    requires i < 8
  {
    var c := Num(r.f.c);
    match i
    case 0 => r.(a := Sum(r.a, v, 0), f := SumFlags(r.a, v, 0))
    case 1 => r.(a := Sum(r.a, v, c), f := SumFlags(r.a, v, c))
    case 2 => r.(a := Difference(r.a, v, 0), f := DifferenceFlags(r.a, v, 0))
    case 3 => r.(a := Difference(r.a, v, c), f := DifferenceFlags(r.a, v, c))
    case 4 => Logic(r, And8(r.a, v), true)
    case 5 => Logic(r, Xor8(r.a, v), false)
    case 6 => Logic(r, Or8(r.a, v), false)
    case _ => r.(f := DifferenceFlags(r.a, v, 0).(f5 := Bit(v, 5), f3 := Bit(v, 3)))
  }

  /** How much DAA corrects by: 6 for the low digit, 0x60 for the high one. */
  function DaaLow(r: Regs): nat { if r.a % 0x10 > 9 || r.f.h then 6 else 0 }

  function DaaFix(r: Regs): byte {
    var low := DaaLow(r);
    if r.a + low >= 0xA0 || r.f.c then low + 0x60 else low
  }

  function Daa(r: Regs): Regs {
    var v := DaaFix(r);
    var a := if r.f.n then Difference(r.a, v, 0) else Sum(r.a, v, 0);
    var h := if r.f.n then r.a % 0x10 < v % 0x10 else r.a % 0x10 + v % 0x10 >= 0x10;
    r.(a := a, f := ResultFlags(a, h, EvenParity(a), r.f.n, v >= 0x60))
  }

  /** 16-bit results set the undocumented bits from the high byte. */
  function WideFlags(w: word, h: bool, pv: bool, n: bool, c: bool): Flags {
    Flags(w >= 0x8000, w == 0, Bit(Hi(w), 5), h, Bit(Hi(w), 3), pv, n, c)
  }

  function Adc16(r: Regs, v: word): Regs {
    var c := Num(r.f.c);
    var w := Word(r.hl + v + c);
    r.(hl := w, wz := w,
    f := WideFlags(w, r.hl % 0x1000 + v % 0x1000 + c >= 0x1000,
    (r.hl >= 0x8000) == (v >= 0x8000) && (r.hl >= 0x8000) != (w >= 0x8000), false, r.hl + v + c >= 0x10000))
  }

  function Sbc16(r: Regs, v: word): Regs {
    var c := Num(r.f.c);
    var w := Word(r.hl - v - c);
    r.(hl := w, wz := w,
    f := WideFlags(w, r.hl % 0x1000 - v % 0x1000 - c < 0,
    (r.hl >= 0x8000) != (v >= 0x8000) && (r.hl >= 0x8000) != (w >= 0x8000), true, r.hl - v - c < 0))
  }

  function Add16(r: Regs, x: Index, v: word): Regs {
    var u := GetX(r, x);
    var w := Word(u + v);
    SetX(r, x, w).(wz := w,
    f := r.f.(f5 := Bit(Hi(w), 5), f3 := Bit(Hi(w), 3),
    h := u % 0x1000 + v % 0x1000 >= 0x1000, n := false, c := u + v >= 0x10000))
  }

  function IncDecFlags(f: Flags, was: byte, up: bool): Flags {
    if up then ResultFlags(Byte(was + 1), was % 0x10 == 0xF, was == 0x7F, false, f.c)
    else ResultFlags(Byte(was - 1), was % 0x10 == 0, was == 0x80, true, f.c)
  }

  /** The eight rotates and shifts: the result, and the bit shifted out. */
  function Rot(y: nat, v: byte, c: bool): byte
    requires y < 8
  {
    match y
    case 0 => Byte(2 * v) + v / 0x80
    case 1 => v / 2 + 0x80 * (v % 2)
    case 2 => Byte(2 * v) + Num(c)
    case 3 => v / 2 + 0x80 * Num(c)
    case 4 => Byte(2 * v)
    case 5 => v / 2 + 0x80 * (v / 0x80)
    case 6 => Byte(2 * v) + 1
    case _ => v / 2
  }

  predicate RotCarry(y: nat, v: byte) {
    if y % 2 == 0 then v >= 0x80 else v % 2 == 1
  }

  /** RLCA, RRCA, RLA and RRA: rotate A but keep S, Z and PV. */
  function RotA(r: Regs, y: nat): Regs
    requires y < 4
  {
    var a := Rot(y, r.a, r.f.c);
    r.(a := a, f := r.f.(c := RotCarry(y, r.a), n := false, h := false, f5 := Bit(a, 5), f3 := Bit(a, 3)))
  }

  function Mask(y: nat): byte
    requires y < 8
  {
    match y
    case 0 => 1 case 1 => 2 case 2 => 4 case 3 => 8 case 4 => 0x10 case 5 => 0x20 case 6 => 0x40 case _ => 0x80
  }

  /** What a CB-prefixed opcode other than BIT writes back, and the flags it leaves. */
  function Modified(x: nat, y: nat, v: byte, c: bool): byte
    requires x < 4 && y < 8
  {
    if x == 0 then Rot(y, v, c) else if x == 2 then And8(v, 0xFF - Mask(y)) else Or8(v, Mask(y))
  }

  function ModifiedFlags(x: nat, y: nat, v: byte, f: Flags): Flags
    requires x < 4 && y < 8
  {
    if x == 0 then
      var r := Rot(y, v, f.c);
      ResultFlags(r, false, EvenParity(r), false, RotCarry(y, v))
    else f
  }

  function BitFlags(y: nat, v: byte, undoc: byte, f: Flags): Flags
    requires y < 8
  {
    var r := And8(v, Mask(y));
    ResultFlags(r, true, EvenParity(r), false, f.c).(f5 := Bit(undoc, 5), f3 := Bit(undoc, 3))
  }

  function InFlags(f: Flags, v: byte): Flags { ResultFlags(v, false, EvenParity(v), false, f.c) }

  function Stepped(v: byte, up: bool): byte { if up then Byte(v + 1) else Byte(v - 1) }

  // ----- registers, memory and devices: CB-prefixed opcodes

  /** `d` is the address of the displacement, used when `x` is an index register. */
  function CB(c: Core, x: Index, op: byte, d: word): Core { CBOn(c, x, op / 0x40, op / 8 % 8, op % 8, d) }

  function CBOn(c: Core, x: Index, xop: nat, y: nat, z: nat, d: word): Core
    requires xop < 4 && y < 8 && z < 8
  {
    if z == 6 then CBMemory(c, x, xop, y, d) else c.(regs := CBRegister(c.regs, x, xop, y, z))
  }

  function CBRegister(r: Regs, x: Index, xop: nat, y: nat, z: nat): Regs
    requires xop < 4 && y < 8 && z < 8 && z != 6
  {
    var v := Get8(r, x, z);
    if xop == 1 then r.(f := BitFlags(y, v, v, r.f))
    else Set8(r, x, z, Modified(xop, y, v, r.f.c)).(f := ModifiedFlags(xop, y, v, r.f))
  }

  function CBMemory(c: Core, x: Index, xop: nat, y: nat, d: word): Core
    requires xop < 4 && y < 8
  {
    var a := Ea(c, x, d);
    var v := c.mem[a];
    var c1 := Located(c, x, d);
    if xop == 1 then c1.(regs := c1.regs.(f := BitFlags(y, v, Hi(c1.regs.wz), c.regs.f)))
    else Poke(c1, a, Modified(xop, y, v, c.regs.f.c)).(regs := c1.regs.(f := ModifiedFlags(xop, y, v, c.regs.f)))
  }

  // ----- ED-prefixed opcodes; `at` is the address of the opcode byte

  function ED(c: Core, iff2: bool, op: byte, at: word): Core {
    var y, z := op / 8 % 8, op % 8;
    if op / 0x40 == 1 then ED1(c, iff2, y, z, at)
    else if op / 0x40 == 2 && y >= 4 && z < 4 then Block(c, if y % 2 == 0 then 1 else -1, z)
    else c
  }

  function ED1(c: Core, iff2: bool, y: nat, z: nat, at: word): Core
    requires y < 8 && z < 8
  {
    var r := c.regs;
    match z
    case 0 =>
      var v := InValue(c);
      PortIn(c, Lo(r.bc)).(regs := (if y == 6 then r else Set8(r, HL, y, v)).(f := InFlags(r.f, v)))
    case 1 => PortOut(c, Lo(r.bc), if y == 6 then 0xFF else Get8(r, HL, y))
    case 2 =>
      var v := GetPair(r, HL, y / 2, false);
      c.(regs := if y % 2 == 0 then Sbc16(r, v) else Adc16(r, v))
    case 3 =>
      var a := ReadWord(c.mem, Word(at + 1));
      if y % 2 == 0 then PokeWord(c, a, GetPair(r, HL, y / 2, false)).(regs := r.(wz := a))
      else c.(regs := SetPair(r.(wz := a), HL, y / 2, false, ReadWord(c.mem, a)))
    case 4 =>
      var a := Difference(0, r.a, 0);
      c.(regs := r.(a := a, f := ResultFlags(a, r.a % 0x10 != 0, r.a == 0x80, true, r.a != 0)))
    case 5 => c.(regs := Drop(r))
    case 6 => c
    case _ => ED17(c, iff2, y)
  }

  function ED17(c: Core, iff2: bool, y: nat): Core
    requires y < 8
  {
    var r := c.regs;
    match y
    case 0 => c.(regs := r.(i := r.a))
    case 1 => c.(regs := r.(r := r.a))
    case 2 => c.(regs := r.(a := r.i, f := ResultFlags(r.i, false, iff2, false, r.f.c)))
    case 3 => c.(regs := r.(a := r.r, f := ResultFlags(r.r, false, iff2, false, r.f.c)))
    case 4 => NibbleRotate(c, c.mem[r.hl] % 0x10, c.mem[r.hl] / 0x10 + 0x10 * (r.a % 0x10))
    case 5 => NibbleRotate(c, c.mem[r.hl] / 0x10, 0x10 * (c.mem[r.hl] % 0x10) + r.a % 0x10)
    case _ => c
  }

  /** RRD and RLD: the low digit of A is replaced, and a byte written back to (HL). */
  function NibbleRotate(c: Core, digit: nat, back: byte): Core
    requires digit < 0x10
  {
    var a := 0x10 * (c.regs.a / 0x10) + digit;
    var f := ResultFlags(a, false, EvenParity(a), false, c.regs.f.c);
    Poke(c, c.regs.hl, back).(regs := c.regs.(a := a, f := f))
  }

  /** One step of a block instruction in direction `d`. */
  function Block(c: Core, d: int, z: nat): Core
    requires z < 4
  {
    match z
    case 0 => CopyOnce(c, d)
    case 1 => c.(regs := CompareOnce(c.regs, c.mem[c.regs.hl], d))
    case 2 => Poke(PortIn(c, Lo(c.regs.bc)), c.regs.hl, InValue(c)).(regs := BlockIoRegs(c.regs, d))
    case _ => PortOut(c, Lo(c.regs.bc), c.mem[c.regs.hl]).(regs := BlockIoRegs(c.regs, d))
  }

  function BlockIoRegs(r: Regs, d: int): Regs {
    var b := Byte(Hi(r.bc) - 1);
    r.(hl := Word(r.hl + d), bc := Pair(b, Lo(r.bc)), f := r.f.(z := b == 0, n := true))
  }

  function CopyOnce(c: Core, d: int): Core {
    var v := c.mem[c.regs.hl];
    Poke(c, c.regs.de, v).(regs := CopyRegs(c.regs, v, d))
  }

  function CopyRegs(r: Regs, v: byte, d: int): Regs {
    var u := Byte(r.a + v);
    var bc := Word(r.bc - 1);
    r.(hl := Word(r.hl + d), de := Word(r.de + d), bc := bc,
    f := r.f.(h := false, n := false, pv := bc != 0, f5 := Bit(u, 1), f3 := Bit(u, 3)))
  }

  function CompareOnce(r: Regs, v: byte, d: int): Regs {
    var u := Difference(r.a, v, 0);
    var h := r.a % 0x10 < v % 0x10;
    var w := Byte(u - Num(h));
    var bc := Word(r.bc - 1);
    r.(hl := Word(r.hl + d), bc := bc,
    f := Flags(u >= 0x80, u == 0, Bit(w, 1), h, Bit(w, 3), bc != 0, true, r.f.c))
  }

  // ----- the main table; `at` is the address of the opcode byte

  function Main(c: Core, x: Index, op: byte, at: word): Core {
    var y, z := op / 8 % 8, op % 8;
    match op / 0x40
    case 0 => Main0(c, x, y, z, at)
    case 1 => Main1(c, x, y, z, at)
    case 2 => Main2(c, x, y, z, at)
    case _ => Main3(c, x, y, z, at)
  }

  function RelativeTarget(m: Memory, at: word): word { Word(at + 2 + Signed8(m[Word(at + 1)])) }

  function Main0(c: Core, x: Index, y: nat, z: nat, at: word): Core
    requires y < 8 && z < 8
  {
    var r := c.regs;
    match z
    case 0 => c.(regs := Branch(r, y, RelativeTarget(c.mem, at)))
    case 1 =>
      c.(regs := if y % 2 == 0 then SetPair(r, x, y / 2, false, ReadWord(c.mem, Word(at + 1)))
                 else Add16(r, x, GetPair(r, x, y / 2, false)))
    case 2 => Indirect(c, x, y, ReadWord(c.mem, Word(at + 1)))
    case 3 =>
      var v := GetPair(r, x, y / 2, false);
      c.(regs := SetPair(r, x, y / 2, false, if y % 2 == 0 then Word(v + 1) else Word(v - 1)))
    case 4 => IncDec(c, x, y, true, at)
    case 5 => IncDec(c, x, y, false, at)
    case 6 =>
      if y != 6 then c.(regs := Set8(r, x, y, c.mem[Word(at + 1)]))
      else Poke(Located(c, x, Word(at + 1)), Ea(c, x, Word(at + 1)), c.mem[Word(at + (if x == HL then 1 else 2))])
    case _ => c.(regs := Accumulator(r, y))
  }

  /** DJNZ, JR and JR cc are taken or not. */
  predicate Taken(r: Regs, y: nat)
    requires y < 8
  {
    if y < 2 then false else if y == 2 then Hi(r.bc) != 1 else if y == 3 then true else Cond(r.f, y - 4)
  }

  /** NOP, EX AF,AF' and the relative jumps; a jump taken leaves its target in WZ. */
  function Branch(r: Regs, y: nat, target: word): Regs
    requires y < 8
  {
    var r1 := if y == 1 then ExAFAF(r) else if y == 2 then SetB(r, Byte(Hi(r.bc) - 1)) else r;
    if Taken(r, y) then r1.(wz := target) else r1
  }

  function Indirect(c: Core, x: Index, y: nat, nn: word): Core
    requires y < 8
  {
    var r := c.regs;
    match y
    case 0 => Poke(c, r.bc, r.a)
    case 1 => c.(regs := r.(a := c.mem[r.bc]))
    case 2 => Poke(c, r.de, r.a)
    case 3 => c.(regs := r.(a := c.mem[r.de]))
    case 4 => PokeWord(c, nn, GetX(r, x)).(regs := r.(wz := nn))
    case 5 => c.(regs := SetX(r.(wz := nn), x, ReadWord(c.mem, nn)))
    case 6 => Poke(c, nn, r.a).(regs := r.(wz := nn))
    case _ => c.(regs := r.(wz := nn, a := c.mem[nn]))
  }

  function IncDec(c: Core, x: Index, y: nat, up: bool, at: word): Core
    requires y < 8
  {
    if y == 6 then
      var a := Ea(c, x, Word(at + 1));
      var v := c.mem[a];
      var c1 := Located(c, x, Word(at + 1));
      Poke(c1, a, Stepped(v, up)).(regs := c1.regs.(f := IncDecFlags(c.regs.f, v, up)))
    else
      var v := Get8(c.regs, x, y);
      c.(regs := Set8(c.regs, x, y, Stepped(v, up)).(f := IncDecFlags(c.regs.f, v, up)))
  }

  function Undoc(r: Regs): Regs { r.(f := r.f.(f5 := Bit(r.a, 5), f3 := Bit(r.a, 3))) }

  function Accumulator(r: Regs, y: nat): Regs
    requires y < 8
  {
    if y < 4 then RotA(r, y)
    else match y
    case 4 => Daa(r)
    case 5 => Undoc(r.(a := 0xFF - r.a, f := r.f.(n := true, h := true)))
    case 6 => Undoc(r.(f := r.f.(c := true, n := false, h := false)))
    case _ => Undoc(r.(f := r.f.(h := r.f.c, c := !r.f.c, n := false)))
  }

  /** LD r, r' and HALT. With a memory operand the other side is always the plain register. */
  function Main1(c: Core, x: Index, y: nat, z: nat, at: word): Core
    requires y < 8 && z < 8
  {
    var d := Word(at + 1);
    if y == 6 && z == 6 then c
    else if z == 6 then
      var c1 := Located(c, x, d);
      c1.(regs := Set8(c1.regs, HL, y, c.mem[Ea(c, x, d)]))
    else if y == 6 then Poke(Located(c, x, d), Ea(c, x, d), Get8(c.regs, HL, z))
    else c.(regs := Set8(c.regs, x, y, Get8(c.regs, x, z)))
  }

  function Main2(c: Core, x: Index, y: nat, z: nat, at: word): Core
    requires y < 8 && z < 8
  {
    if z == 6 then
      var c1 := Located(c, x, Word(at + 1));
      c1.(regs := Alu(c1.regs, y, c.mem[Ea(c, x, Word(at + 1))]))
    else c.(regs := Alu(c.regs, y, Get8(c.regs, x, z)))
  }

  function Main3(c: Core, x: Index, y: nat, z: nat, at: word): Core
    requires y < 8 && z < 8
  {
    var r := c.regs;
    match z
    case 0 => if Cond(r.f, y) then c.(regs := Drop(r)) else c
    case 1 => c.(regs := Main31(r, x, y, Top(c)))
    case 2 => c
    case 3 => Main33(c, x, y, at)
    case 4 => if Cond(r.f, y) then Push(c, Word(at + 3)) else c
    case 5 =>
      if y % 2 == 0 then Push(c, GetPair(r, x, y / 2, true)) else if y == 1 then Push(c, Word(at + 3)) else c
    case 6 => c.(regs := Alu(r, y, c.mem[Word(at + 1)]))
    case _ => Push(c, Word(at + 1))
  }

  /** POP, RET, EXX, JP (HL) and LD SP,HL; `top` is the word on top of the stack. */
  function Main31(r: Regs, x: Index, y: nat, top: word): Regs
    requires y < 8
  {
    if y % 2 == 0 then SetPair(Drop(r), x, y / 2, true, top)
    else if y == 1 then Drop(r)
    else if y == 3 then Exx(r)
    else if y == 5 then r
    else r.(sp := GetX(r, x))
  }

  function Main33(c: Core, x: Index, y: nat, at: word): Core
    requires y < 8
  {
    var n := c.mem[Word(at + 1)];
    match y
    case 2 => PortOut(c, n, c.regs.a)
    case 3 => PortIn(c, n).(regs := c.regs.(a := InValue(c)))
    case 4 =>
      var w := Top(c);
      PokeWord(c, c.regs.sp, GetX(c.regs, x)).(regs := SetX(c.regs.(wz := w), x, w))
    case 5 => c.(regs := ExDEHL(c.regs))
    case _ => c
  }

  // ----- jumps

  function MainTarget(c: Core, x: Index, op: byte, at: word): Target {
    var y, z := op / 8 % 8, op % 8;
    if op / 0x40 == 0 && z == 0 && Taken(c.regs, y) then Goto(RelativeTarget(c.mem, at))
    else if op / 0x40 == 3 then Target3(c, x, y, z, at)
    else Stay
  }

  function Target3(c: Core, x: Index, y: nat, z: nat, at: word): Target
    requires y < 8 && z < 8
  {
    var nn := ReadWord(c.mem, Word(at + 1));
    match z
    case 0 => if Cond(c.regs.f, y) then Goto(Top(c)) else Stay
    case 1 => if y == 1 then Goto(Top(c)) else if y == 5 then Goto(GetX(c.regs, x)) else Stay
    case 2 => if Cond(c.regs.f, y) then Goto(nn) else Stay
    case 3 => if y == 0 then Goto(nn) else Stay
    case 4 => if Cond(c.regs.f, y) then Goto(nn) else Stay
    case 5 => if y == 1 then Goto(nn) else Stay
    case 6 => Stay
    case _ => Goto(8 * y)
  }

  predicate IsBlock(op: byte) { op / 0x40 == 2 && op / 8 % 8 >= 4 && op % 8 < 4 }

  /** Whether a block instruction goes round again, from the registers its step left. */
  predicate Repeats(r: Regs, op: byte) {
    op / 8 % 8 >= 6 && (if op % 8 == 0 then r.bc != 0 else if op % 8 == 1 then r.bc != 0 && !r.f.z else !r.f.z)
  }

  /** A repeating block instruction jumps back onto its own ED byte. */
  function EDTarget(c: Core, iff2: bool, op: byte, at: word): Target {
    if op / 0x40 == 1 && op % 8 == 5 then Goto(Top(c))
    else if IsBlock(op) && Repeats(ED(c, iff2, op, at).regs, op) then Goto(Word(at - 1))
    else Stay
  }

  // ----- length, timing and control

  /** The bytes from the opcode to the end of the instruction. */
  function MainLength(x: Index, op: byte): nat {
    var y, z := op / 8 % 8, op % 8;
    var d := if x == HL then 0 else 1;
    match op / 0x40
    case 0 =>
      if z == 0 then if y < 2 then 1 else 2
      else if z == 1 then if y % 2 == 0 then 3 else 1
      else if z == 2 then if y < 4 then 1 else 3
      else if z == 4 || z == 5 then if y == 6 then 1 + d else 1
      else if z == 6 then if y == 6 then 2 + d else 2
      else 1
    case 1 => if (y == 6) != (z == 6) then 1 + d else 1
    case 2 => if z == 6 then 1 + d else 1
    case _ =>
      if z == 2 || z == 4 || (z == 3 && y == 0) || (z == 5 && y == 1) then 3
      else if z == 6 || (z == 3 && (y == 2 || y == 3)) then 2
      else 1
  }

  function EDLength(op: byte): nat { if op / 0x40 == 1 && op % 8 == 3 then 3 else 1 }

  /** From the displacement on. With a register operand the CPU stops on the opcode byte itself. */
  function IndexedCBLength(op: byte): nat { if op % 8 == 6 then 2 else 1 }

  function ReadCost(x: Index): nat { if x == HL then 3 else 11 }

  function WriteCost(x: Index): nat { if x == HL then 3 else 7 }

  function CBTime(x: Index, op: byte): nat {
    if op % 8 != 6 then 4 else if op / 0x40 == 1 then 4 + ReadCost(x) else 4 + ReadCost(x) + WriteCost(x)
  }

  function EDTime(op: byte, repeats: bool): nat {
    var y, z := op / 8 % 8, op % 8;
    if op / 0x40 == 1 then
      match z
      case 0 => 8 case 1 => 8 case 2 => 11 case 3 => 16 case 4 => 4 case 5 => 14 case 6 => 4
      case _ => if y < 4 then 5 else if y < 6 then 14 else 4
    else if IsBlock(op) then if repeats then 17 else 12
    else 4
  }

  /** `jumps` tells whether a conditional jump, call or return is taken. */
  function MainTime(x: Index, op: byte, jumps: bool): nat {
    var y, z := op / 8 % 8, op % 8;
    match op / 0x40
    case 0 => Time0(x, y, z, jumps)
    case 1 =>
      if y == 6 && z == 6 then 4 else if z == 6 then 4 + ReadCost(x) else if y == 6 then 4 + WriteCost(x) else 4
    case 2 => if z == 6 then 4 + ReadCost(x) else 4
    case _ => Time3(y, z, jumps)
  }

  function Time0(x: Index, y: nat, z: nat, jumps: bool): nat {
    match z
    case 0 => if y < 2 then 4 else if y == 2 then if jumps then 13 else 8 else if jumps then 12 else 7
    case 1 => if y % 2 == 0 then 10 else 11
    case 2 => if y < 4 then 7 else if y < 6 then 16 else 13
    case 3 => 6
    case 6 => if y == 6 then 7 + WriteCost(x) else 7
    case 7 => 4
    case _ => if y == 6 then 4 + ReadCost(x) + WriteCost(x) else 4
  }

  function Time3(y: nat, z: nat, jumps: bool): nat {
    match z
    case 0 => if jumps then 11 else 5
    case 1 => if y == 3 || y == 5 then 4 else if y == 7 then 6 else 10
    case 2 => 10
    case 3 => if y == 0 then 10 else if y == 2 || y == 3 then 11 else if y == 4 then 19 else 4
    case 4 => if jumps then 17 else 10
    case 5 => if y % 2 == 0 then 11 else if y == 1 then 17 else 4
    case 6 => 4
    case _ => 11
  }

  predicate IsPrefixOp(op: byte) { op == 0xCB || op == 0xDD || op == 0xED || op == 0xFD }

  function MainControl(k: Control, op: byte): Control {
    match op
    case 0xCB => k.(prefix := k.prefix / 0x100 * 0x100 + 0xCB)
    case 0xDD => k.(prefix := 0xDD00 + k.prefix % 0x100)
    case 0xED => k.(prefix := 0xED00 + k.prefix % 0x100)
    case 0xFD => k.(prefix := 0xFD00 + k.prefix % 0x100)
    case 0x76 => k.(prefix := 0, halted := true)
    case 0xF3 => k.(prefix := 0, iff1 := false, iff2 := false)
    case 0xFB => k.(prefix := 0, iff1 := true, iff2 := true, iffWait := true)
    case _ => k.(prefix := 0)
  }

  function EDControl(k: Control, op: byte): Control {
    if op / 0x40 == 1 && op % 8 == 6 then
      k.(prefix := 0, im := if op / 8 % 4 < 2 then 0 else op / 8 % 4 - 1)
    else if op / 0x40 == 1 || IsBlock(op) then k.(prefix := 0)
    else k.(prefix := 0, iffWait := true)
  }

  // ----- one opcode fetch

  datatype Table = TableCB | TableED | TableMain

  function TableOf(prefix: word): Table {
    if prefix % 0x100 == 0xCB then TableCB else if prefix / 0x100 == 0xED then TableED else TableMain
  }

  /** The byte that selects the instruction: after DD CB or FD CB it follows the displacement. */
  function Opcode(s: State): byte {
    if TableOf(s.ctl.prefix) == TableCB && s.ctl.prefix / 0x100 != 0 then s.core.mem[Word(PC(s) + 1)]
    else s.core.mem[PC(s)]
  }

  /** R counts opcode fetches in its low seven bits. */
  function Refresh(r: byte): byte { r / 0x80 * 0x80 + (r + 1) % 0x80 }

  /** One byte was fetched at PC. */
  function Fetched(c: Core): Core { c.(regs := c.regs.(pc := Word(c.regs.pc + 1), r := Refresh(c.regs.r))) }

  /** How far PC advances over the bytes fetched and read. */
  function Length(s: State): nat {
    match TableOf(s.ctl.prefix)
    case TableCB => if s.ctl.prefix / 0x100 == 0 then 1 else IndexedCBLength(Opcode(s))
    case TableED => EDLength(Opcode(s))
    case TableMain => MainLength(IndexOf(s.ctl.prefix), Opcode(s))
  }

  function Effect(s: State): Core {
    var c := Fetched(s.core);
    match TableOf(s.ctl.prefix)
    case TableCB => CB(c, IndexOf(s.ctl.prefix), Opcode(s), PC(s))
    case TableED => ED(c, s.ctl.iff2, Opcode(s), PC(s))
    case TableMain => Main(c, IndexOf(s.ctl.prefix), Opcode(s), PC(s))
  }

  function TargetOf(s: State): Target {
    match TableOf(s.ctl.prefix)
    case TableCB => Stay
    case TableED => EDTarget(Fetched(s.core), s.ctl.iff2, Opcode(s), PC(s))
    case TableMain => MainTarget(Fetched(s.core), IndexOf(s.ctl.prefix), Opcode(s), PC(s))
  }

  function Time(s: State): nat {
    match TableOf(s.ctl.prefix)
    case TableCB => CBTime(IndexOf(s.ctl.prefix), Opcode(s))
    case TableED => EDTime(Opcode(s), TargetOf(s) != Stay)
    case TableMain => MainTime(IndexOf(s.ctl.prefix), Opcode(s), TargetOf(s) != Stay)
  }

  function ControlOf(s: State): Control {
    match TableOf(s.ctl.prefix)
    case TableCB => s.ctl.(prefix := 0)
    case TableED => EDControl(s.ctl, Opcode(s))
    case TableMain => MainControl(s.ctl, Opcode(s))
  }

  /** Where the fall-through instruction starts. */
  function NextPC(s: State): word { Word(PC(s) + Length(s)) }

  function Landing(s: State): word {
    match TargetOf(s) case Stay => NextPC(s) case Goto(pc) => pc
  }

  function Exec(s: State): State {
    SetPC(State(Effect(s), ControlOf(s)), Landing(s))
  }

  // ----- one pass of the loop

  /** The interrupt is taken at the start of this pass. */
  predicate Accepts(s: State) { s.ctl.iff2 && s.ctl.prefix == 0 && !s.ctl.iffWait && s.core.line }

  function Accept(s: State): State {
    var k := s.ctl.(halted := false);
    if s.ctl.im == 1 then
      SetPC(State(Push(s.core, PC(s)), k.(iff1 := false, iff2 := false)), 0x38)
    else if s.ctl.im == 2 then
      SetPC(State(Push(s.core, PC(s)), k.(iff1 := false, iff2 := false)), Pair(s.core.regs.i, s.ctl.bus))
    else s.(ctl := k)
  }

  /** Mode 0 is not supported: nothing happens, and the pass is charged one cycle. */
  function AcceptCost(im: IntMode): nat { if im == 1 then 13 else if im == 2 then 19 else 1 }

  /** The one-instruction delay after EI runs out at the start of the next instruction. */
  function Unwait(s: State): State {
    if s.ctl.iff2 && s.ctl.prefix == 0 then s.(ctl := s.ctl.(iffWait := false)) else s
  }

  /** One pass of the loop. */
  function Pass(s: State): State {
    if Accepts(s) then Accept(s) else if s.ctl.halted then Unwait(s) else Exec(Unwait(s))
  }

  /** What one pass costs. */
  function Cost(s: State): nat {
    if Accepts(s) then AcceptCost(s.ctl.im) else if s.ctl.halted then 4 else Time(s)
  }
}
