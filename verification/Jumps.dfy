/** Conditional and unconditional jumps, calls and returns, by the bits of F and the numbers
    compared. */
module Jumps {
  import opened Bytes
  import opened Bitwise
  import opened Registers
  import opened Z80
  import opened Runs
  import opened Steps

  /** The condition in bits 3 to 5 of an opcode, read off the F byte: the upper two bits name Z, C,
      PV or S, and the lowest says whether that flag is to be set. */
  predicate Holds(f: byte, cc: nat)
    requires cc < 8
  {
    Bit(f, if cc < 2 then 6 else if cc < 4 then 0 else if cc < 6 then 2 else 7) == (cc % 2 == 1)
  }

  lemma CondHolds(f: Flags, cc: nat)
    requires cc < 8
    ensures Cond(f, cc) <==> Holds(FlagByte(f), cc)
  {
    FlagByteIs(f);
    BitsOf(f.c, f.n, f.pv, f.f3, f.h, f.f5, f.z, f.s);
    hide Bit, FromBits, FlagByte;
  }

  /** JP cc,nn goes to nn exactly when the flag named has the value asked for, and otherwise on to
      the next instruction; nothing else changes. */
  lemma JumpIf(s: State, cc: nat, nn: word)
    requires cc < 8 && Quiet(s) && Code3(s, 0xC2 + 8 * cc, Lo(nn), Hi(nn))
    ensures var u, taken := After(s, 1), Holds(FlagByte(s.core.regs.f), cc);
            && u.core == s.core.(regs := Ready(s).(pc := if taken then nn else Word(PC(s) + 3)))
            && u.ctl == Unwait(s).ctl && Spent(s, 1) == 10 && Quiet(u)
  {
    CondHolds(s.core.regs.f, cc);
    ReadsOperand(s, nn);
    hide Cond, Holds, After, Spent, Main, MainTarget, MainLength, MainTime, Quiet, Unwait, FlagByte, ReadWord, Lo, Hi;
    JumpTable(Fetched(s.core), cc, PC(s));
    PlainStep(s, 0xC2 + 8 * cc);
  }

  lemma ReadsOperand(s: State, nn: word)
    requires s.core.mem[Word(PC(s) + 1)] == Lo(nn) && s.core.mem[Word(PC(s) + 2)] == Hi(nn)
    ensures ReadWord(s.core.mem, Word(PC(s) + 1)) == nn
  {
    WordPlus(PC(s) + 1, 1);
    PairOf(nn);
    hide Word, Pair, Lo, Hi;
  }

  lemma JumpTable(c: Core, cc: nat, at: word)
    requires cc < 8
    ensures var op := 0xC2 + 8 * cc;
            && Plain(op) && Main(c, HL, op, at) == c && MainLength(HL, op) == 3 && MainTime(HL, op, true) == 10
            && MainTime(HL, op, false) == 10
            && MainTarget(c, HL, op, at)
               == (if Cond(c.regs.f, cc) then Goto(ReadWord(c.mem, Word(at + 1))) else Stay)
  {
    var op := 0xC2 + 8 * cc;
    assert op / 0x40 == 3 && op / 8 % 8 == cc && op % 8 == 2;
    hide Cond, ReadWord, Word;
  }

  /** JR cc,d adds the displacement, from -128 to 127, to the address behind the instruction. */
  lemma JumpRelativeIf(s: State, cc: nat, d: byte)
    requires cc < 4 && Quiet(s) && Code2(s, 0x20 + 8 * cc, d)
    ensures var u, taken := After(s, 1), Holds(FlagByte(s.core.regs.f), cc);
            var target := Word(PC(s) + 2 + if d < 0x80 then d else d - 0x100);
            && u.core == s.core.(regs := if taken then Ready(s).(pc := target, wz := target)
                                         else Ready(s).(pc := Word(PC(s) + 2)))
            && u.ctl == Unwait(s).ctl && Spent(s, 1) == (if taken then 12 else 7) && Quiet(u)
  {
    CondHolds(s.core.regs.f, cc);
    hide Cond, Holds, After, Spent, Main, MainTarget, MainLength, MainTime, Quiet, Unwait, FlagByte, Word;
    RelativeTable(Fetched(s.core), cc, PC(s));
    PlainStep(s, 0x20 + 8 * cc);
    if Cond(s.core.regs.f, cc) { assert Holds(FlagByte(s.core.regs.f), cc); }
  }

  lemma RelativeTable(c: Core, cc: nat, at: word)
    requires cc < 4
    ensures var op, taken := 0x20 + 8 * cc, Cond(c.regs.f, cc);
            var d: int := c.mem[Word(at + 1)];
            var target := Word(at + 2 + if d < 0x80 then d else d - 0x100);
            && Plain(op) && MainLength(HL, op) == 2 && MainTime(HL, op, true) == 12 && MainTime(HL, op, false) == 7
            && Main(c, HL, op, at) == (if taken then c.(regs := c.regs.(wz := target)) else c)
            && MainTarget(c, HL, op, at) == (if taken then Goto(target) else Stay)
  {
    var op := 0x20 + 8 * cc;
    assert op / 0x40 == 0 && op / 8 % 8 == cc + 4 && op % 8 == 0;
    hide Cond, Word;
  }

  /** CALL cc,nn pushes the address of the next instruction, high byte at the higher address. */
  lemma CallIf(s: State, cc: nat, nn: word)
    requires cc < 8 && Quiet(s) && Code3(s, 0xC4 + 8 * cc, Lo(nn), Hi(nn))
    ensures var u, taken := After(s, 1), Holds(FlagByte(s.core.regs.f), cc);
            && (taken ==> Called(s, u, nn, Word(PC(s) + 3)))
            && (!taken ==> u.core == s.core.(regs := Ready(s).(pc := Word(PC(s) + 3))))
            && u.ctl == Unwait(s).ctl && Spent(s, 1) == (if taken then 17 else 10) && Quiet(u)
  {
    CondHolds(s.core.regs.f, cc);
    ReadsOperand(s, nn);
    hide Cond, Holds, After, Spent, Main, MainTarget, MainLength, MainTime, Quiet, Unwait, FlagByte, ReadWord, Word;
    hide Lo, Hi;
    CallTable(Fetched(s.core), cc, PC(s));
    PlainStep(s, 0xC4 + 8 * cc);
  }

  /** In `u` a subroutine at `entry` has just been called from `s`, to return to `back`. */
  predicate Called(s: State, u: State, entry: word, back: word) {
    u.core == s.core.(mem := Stacked(s.core.mem, s.core.regs.sp, back),
                      regs := Ready(s).(sp := Word(s.core.regs.sp - 2), pc := entry))
  }

  /** Memory with a word on top of the stack, its low byte at the lower address. */
  function Stacked(m: Memory, sp: word, w: word): Memory {
    m[Word(sp - 2) := w % 0x100][Word(sp - 1) := w / 0x100]
  }

  lemma PushStacks(c: Core, w: word)
    ensures Push(c, w) == c.(mem := Stacked(c.mem, c.regs.sp, w), regs := c.regs.(sp := Word(c.regs.sp - 2)))
  {
    WordPlus(c.regs.sp - 2, 1);
  }

  lemma CallTable(c: Core, cc: nat, at: word)
    requires cc < 8
    ensures var op, taken, nn := 0xC4 + 8 * cc, Cond(c.regs.f, cc), ReadWord(c.mem, Word(at + 1));
            && Plain(op) && MainLength(HL, op) == 3 && MainTime(HL, op, true) == 17 && MainTime(HL, op, false) == 10
            && Main(c, HL, op, at)
               == (if taken then c.(mem := Stacked(c.mem, c.regs.sp, Word(at + 3)),
                                    regs := c.regs.(sp := Word(c.regs.sp - 2))) else c)
            && MainTarget(c, HL, op, at) == (if taken then Goto(nn) else Stay)
  {
    var op := 0xC4 + 8 * cc;
    assert op / 0x40 == 3 && op / 8 % 8 == cc && op % 8 == 4;
    PushStacks(c, Word(at + 3));
    hide Cond, Word, ReadWord, Push, Stacked;
  }

  /** RET cc goes to the word on top of the stack, low byte first, and drops it. */
  lemma ReturnIf(s: State, cc: nat)
    requires cc < 8 && Quiet(s) && Code(s, 0xC0 + 8 * cc)
    ensures var u, taken := After(s, 1), Holds(FlagByte(s.core.regs.f), cc);
            && u.core == s.core.(regs := if taken then Returned(s) else Ready(s).(pc := Word(PC(s) + 1)))
            && u.ctl == Unwait(s).ctl && Spent(s, 1) == (if taken then 11 else 5) && Quiet(u)
  {
    CondHolds(s.core.regs.f, cc);
    hide Cond, Holds, After, Spent, Main, MainTarget, MainLength, MainTime, Quiet, Unwait, FlagByte, Word, OnStack;
    ReturnTable(Fetched(s.core), cc, PC(s));
    PlainStep(s, 0xC0 + 8 * cc);
    if Cond(s.core.regs.f, cc) {
      assert After(s, 1).core == s.core.(regs := Returned(s));
    }
  }

  function Returned(s: State): Regs {
    Ready(s).(sp := Word(s.core.regs.sp + 2), pc := OnStack(s.core.mem, s.core.regs.sp))
  }

  function OnStack(m: Memory, sp: word): word {
    var low: int, high: int := m[sp], m[Word(sp + 1)];
    low + 0x100 * high
  }

  lemma ReturnTable(c: Core, cc: nat, at: word)
    requires cc < 8
    ensures var op, taken := 0xC0 + 8 * cc, Cond(c.regs.f, cc);
            && Plain(op) && MainLength(HL, op) == 1 && MainTime(HL, op, true) == 11 && MainTime(HL, op, false) == 5
            && Main(c, HL, op, at) == (if taken then c.(regs := c.regs.(sp := Word(c.regs.sp + 2))) else c)
            && MainTarget(c, HL, op, at) == (if taken then Goto(OnStack(c.mem, c.regs.sp)) else Stay)
  {
    var op := 0xC0 + 8 * cc;
    assert op / 0x40 == 3 && op / 8 % 8 == cc && op % 8 == 0;
    TopIsOnStack(c);
    hide Cond, Word, Top, OnStack;
  }

  // ----- the unconditional forms

  /** JP nn, JR d, CALL nn and RET are the conditional forms with their condition met. */
  lemma Jump(s: State, nn: word)
    requires Quiet(s) && Code3(s, 0xC3, Lo(nn), Hi(nn))
    ensures var u := After(s, 1);
            u.core == s.core.(regs := Ready(s).(pc := nn)) && u.ctl == Unwait(s).ctl && Spent(s, 1) == 10 && Quiet(u)
  {
    ReadsOperand(s, nn);
    hide After, Spent, Main, MainTarget, MainLength, MainTime, Quiet, Unwait, ReadWord, Lo, Hi;
    JumpTables(Fetched(s.core), PC(s));
    PlainStep(s, 0xC3);
  }

  lemma JumpRelative(s: State, d: byte)
    requires Quiet(s) && Code2(s, 0x18, d)
    ensures var u, target := After(s, 1), Word(PC(s) + 2 + if d < 0x80 then d else d - 0x100);
            && u.core == s.core.(regs := Ready(s).(pc := target, wz := target))
            && u.ctl == Unwait(s).ctl && Spent(s, 1) == 12 && Quiet(u)
  {
    hide After, Spent, Main, MainTarget, MainLength, MainTime, Quiet, Unwait, Word, ReadWord;
    JumpTables(Fetched(s.core), PC(s));
    PlainStep(s, 0x18);
  }

  lemma Call(s: State, nn: word)
    requires Quiet(s) && Code3(s, 0xCD, Lo(nn), Hi(nn))
    ensures Called(s, After(s, 1), nn, Word(PC(s) + 3))
    ensures After(s, 1).ctl == Unwait(s).ctl && Spent(s, 1) == 17 && Quiet(After(s, 1))
  {
    ReadsOperand(s, nn);
    hide After, Spent, Main, MainTarget, MainLength, MainTime, Quiet, Unwait, ReadWord, Lo, Hi, Word, Stacked;
    SubroutineTables(Fetched(s.core), PC(s));
    PlainStep(s, 0xCD);
  }

  /** RST calls one of eight fixed addresses. */
  lemma Restart(s: State, y: nat)
    requires y < 8 && Quiet(s) && Code(s, 0xC7 + 8 * y)
    ensures Called(s, After(s, 1), 8 * y, Word(PC(s) + 1))
    ensures After(s, 1).ctl == Unwait(s).ctl && Spent(s, 1) == 11 && Quiet(After(s, 1))
  {
    hide After, Spent, Main, MainTarget, MainLength, MainTime, Quiet, Unwait, ReadWord, Word, Stacked;
    RestartTable(Fetched(s.core), y, PC(s));
    PlainStep(s, 0xC7 + 8 * y);
  }

  lemma Return(s: State)
    requires Quiet(s) && Code(s, 0xC9)
    ensures var u := After(s, 1);
            u.core == s.core.(regs := Returned(s)) && u.ctl == Unwait(s).ctl && Spent(s, 1) == 10 && Quiet(u)
  {
    hide After, Spent, Main, MainTarget, MainLength, MainTime, Quiet, Unwait, Word, ReadWord;
    SubroutineTables(Fetched(s.core), PC(s));
    PlainStep(s, 0xC9);
  }

  lemma JumpTables(c: Core, at: word)
    ensures var d: int := c.mem[Word(at + 1)];
            var target := Word(at + 2 + if d < 0x80 then d else d - 0x100);
            && Plain(0xC3) && Main(c, HL, 0xC3, at) == c && MainTime(HL, 0xC3, true) == 10
            && MainTarget(c, HL, 0xC3, at) == Goto(ReadWord(c.mem, Word(at + 1)))
            && Plain(0x18) && Main(c, HL, 0x18, at) == c.(regs := c.regs.(wz := target))
            && MainTime(HL, 0x18, true) == 12 && MainTarget(c, HL, 0x18, at) == Goto(target)
  {
    hide Word, ReadWord;
  }

  lemma SubroutineTables(c: Core, at: word)
    ensures Plain(0xCD) && MainTime(HL, 0xCD, true) == 17
    ensures Main(c, HL, 0xCD, at) == c.(mem := Stacked(c.mem, c.regs.sp, Word(at + 3)),
                                        regs := c.regs.(sp := Word(c.regs.sp - 2)))
    ensures MainTarget(c, HL, 0xCD, at) == Goto(ReadWord(c.mem, Word(at + 1)))
    ensures Plain(0xC9) && MainTime(HL, 0xC9, true) == 10
    ensures Main(c, HL, 0xC9, at) == c.(regs := c.regs.(sp := Word(c.regs.sp + 2)))
    ensures MainTarget(c, HL, 0xC9, at) == Goto(OnStack(c.mem, c.regs.sp))
  {
    PushStacks(c, Word(at + 3));
    TopIsOnStack(c);
    hide Word, Push, Stacked, ReadWord, Top, OnStack;
  }

  lemma TopIsOnStack(c: Core)
    ensures Top(c) == OnStack(c.mem, c.regs.sp)
  {
    hide Word;
  }

  lemma RestartTable(c: Core, y: nat, at: word)
    requires y < 8
    ensures var op := 0xC7 + 8 * y;
            && Plain(op) && MainTime(HL, op, true) == 11 && MainTarget(c, HL, op, at) == Goto(8 * y)
            && Main(c, HL, op, at) == c.(mem := Stacked(c.mem, c.regs.sp, Word(at + 1)),
                                         regs := c.regs.(sp := Word(c.regs.sp - 2)))
  {
    var op := 0xC7 + 8 * y;
    assert op / 0x40 == 3 && op / 8 % 8 == y && op % 8 == 7;
    PushStacks(c, Word(at + 1));
    hide Word, Push, Stacked;
  }

  /** A subroutine that leaves SP and the two bytes on its stack as it found them returns to the
      instruction after the call, with SP as it was before: by RET, and by any RET cc that is taken. */
  lemma ReturnsBehindCall(s: State, entered: State, v: State, entry: word, back: word, cc: nat)
    requires Called(s, entered, entry, back) && Quiet(v) && cc < 8
    requires Code(v, 0xC9) || (Code(v, 0xC0 + 8 * cc) && Holds(FlagByte(v.core.regs.f), cc))
    requires var sp := entered.core.regs.sp;
             && v.core.regs.sp == sp && v.core.mem[sp] == entered.core.mem[sp]
             && v.core.mem[Word(sp + 1)] == entered.core.mem[Word(sp + 1)]
    ensures PC(After(v, 1)) == back && After(v, 1).core.regs.sp == s.core.regs.sp
    ensures After(v, 1).core.mem == v.core.mem
  {
    Unstacks(s.core.mem, s.core.regs.sp, back);
    hide After, Quiet, FlagByte, Holds, Stacked, Word, Code;
    Returns(v, cc);
  }

  lemma Returns(v: State, cc: nat)
    requires Quiet(v) && cc < 8
    requires Code(v, 0xC9) || (Code(v, 0xC0 + 8 * cc) && Holds(FlagByte(v.core.regs.f), cc))
    ensures var u := After(v, 1);
            && PC(u) == OnStack(v.core.mem, v.core.regs.sp) && u.core.regs.sp == Word(v.core.regs.sp + 2)
            && u.core.mem == v.core.mem
  {
    hide After, Quiet, FlagByte, Holds, OnStack, Word;
    if Code(v, 0xC9) { Return(v); } else { ReturnIf(v, cc); }
  }

  lemma Unstacks(m: Memory, sp: word, w: word)
    ensures OnStack(Stacked(m, sp, w), Word(sp - 2)) == w && Word(Word(sp - 2) + 2) == sp
  {
    WordPlus(sp - 2, 1);
    WordPlus(sp - 2, 2);
    TopApart(sp);
  }

  lemma TopApart(sp: word)
    ensures Word(sp - 2) != Word(sp - 1) && Word(sp) == sp
  {
  }
}
