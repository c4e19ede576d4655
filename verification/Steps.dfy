/** Single instructions run from between instructions, with no interrupt in the offing: what the
    theorems about particular instructions start from. */
module Steps {
  import opened Bytes
  import opened Registers
  import opened Z80
  import opened Invariants
  import opened Runs

  predicate Quiet(s: State) { Inv(s) && s.ctl.prefix == 0 && !s.ctl.halted && !(s.ctl.iff2 && s.core.line) }

  // The bytes at PC.

  predicate Code(s: State, b0: byte) { s.core.mem[PC(s)] == b0 }

  predicate Code2(s: State, b0: byte, b1: byte) { Code(s, b0) && s.core.mem[Word(PC(s) + 1)] == b1 }

  predicate Code3(s: State, b0: byte, b1: byte, b2: byte) {
    Code2(s, b0, b1) && s.core.mem[Word(PC(s) + 2)] == b2
  }

  /** The registers after a fetch from `s` other than PC and R, so that results can be compared. */
  function Ready(s: State): Regs { s.core.regs.(r := Refresh(s.core.regs.r)) }

  /** Opcodes of the main table that leave the control state and the devices alone. */
  predicate Plain(op: byte) { !IsPrefixOp(op) && op != 0x76 && op != 0xF3 && op != 0xFB && op != 0xD3 && op != 0xDB }

  function Next(t: Target, fallThrough: word): word { match t case Stay => fallThrough case Goto(pc) => pc }

  lemma OnePass(s: State)
    ensures After(s, 1) == Pass(s) && Spent(s, 1) == Cost(s)
  {
    assert After(s, 1) == After(Pass(s), 0) && Spent(s, 1) == Cost(s) + Spent(Pass(s), 0);
    hide Pass, Cost;
  }

  lemma TwoPasses(s: State)
    ensures After(s, 2) == Pass(Pass(s)) && Spent(s, 2) == Cost(s) + Cost(Pass(s))
  {
    hide Pass, Cost;
    OnePass(Pass(s));
    assert After(s, 2) == After(Pass(s), 1) && Spent(s, 2) == Cost(s) + Spent(Pass(s), 1);
  }

  lemma PlainStep(s: State, op: byte)
    requires Quiet(s) && Code(s, op) && Plain(op)
    ensures var c, at := Fetched(s.core), PC(s);
            var t := MainTarget(c, HL, op, at);
            var m, u := Main(c, HL, op, at), After(s, 1);
            && u == State(m.(regs := m.regs.(pc := Next(t, Word(at + MainLength(HL, op))))), Unwait(s).ctl)
            && Spent(s, 1) == MainTime(HL, op, t != Stay)
            && Quiet(u)
  {
    QuietPass(s);
    OnePass(s);
    hide Main, MainTarget, MainLength, MainTime, Exec, Time, After, Spent, Pass, Cost, Unwait, Inv, Fetched, Plain;
    PlainExec(Unwait(s), op);
    PlainExec(s, op);
    StaysQuiet(s, op);
  }

  lemma StaysQuiet(s: State, op: byte)
    requires Quiet(s) && Code(s, op) && Plain(op)
    ensures Quiet(Pass(s))
  {
    QuietPass(s);
    PassKeepsInv(s);
    hide Main, MainTarget, MainLength, Exec, Pass, Unwait, Inv, Plain;
    MainKeepsLine(Fetched(s.core), HL, op, PC(s));
    PlainExec(Unwait(s), op);
  }

  lemma QuietPass(s: State)
    requires Quiet(s)
    ensures Pass(s) == Exec(Unwait(s)) && Cost(s) == Time(s) && Unwait(s).core == s.core
    ensures var k := Unwait(s).ctl; k.prefix == 0 && !k.halted && k.iff2 == s.ctl.iff2
  {
    hide Exec, Time;
  }

  lemma PlainExec(s: State, op: byte)
    requires s.ctl.prefix == 0 && Code(s, op) && Plain(op)
    ensures var c, at := Fetched(s.core), PC(s);
            var t := MainTarget(c, HL, op, at);
            var m := Main(c, HL, op, at);
            && Exec(s) == State(m.(regs := m.regs.(pc := Next(t, Word(at + MainLength(HL, op))))), s.ctl)
            && Time(s) == MainTime(HL, op, t != Stay)
  {
    PlainControl(s.ctl, op);
    assert TableOf(s.ctl.prefix) == TableMain && IndexOf(s.ctl.prefix) == HL;
    hide Main, MainTarget, MainLength, MainTime, Fetched, MainControl, Plain, Word, TableOf, IndexOf;
  }

  lemma PlainControl(k: Control, op: byte)
    requires k.prefix == 0 && Plain(op)
    ensures MainControl(k, op) == k
  {
  }

  lemma MainKeepsLine(c: Core, x: Index, op: byte, at: word)
    requires Plain(op)
    ensures Main(c, x, op, at).line == c.line
  {
    var y, z := op / 8 % 8, op % 8;
    OpcodeParts(op);
    hide Main0, Main1, Main2, Main3, Plain;
    if op / 0x40 == 0 {
      FirstKeepsLine(c, x, y, z, at);
    } else if op / 0x40 == 3 {
      LastKeepsLine(c, x, y, z, at);
    } else {
      MiddleKeepsLine(c, x, y, z, at);
    }
  }

  lemma OpcodeParts(op: byte)
    ensures op == 0x40 * (op / 0x40) + 8 * (op / 8 % 8) + op % 8
  {
    assert op == 8 * (op / 8) + op % 8;
  }

  lemma MiddleKeepsLine(c: Core, x: Index, y: nat, z: nat, at: word)
    requires y < 8 && z < 8
    ensures Main1(c, x, y, z, at).line == c.line && Main2(c, x, y, z, at).line == c.line
  {
    hide Alu, Set8, Get8, Ea;
  }

  lemma FirstKeepsLine(c: Core, x: Index, y: nat, z: nat, at: word)
    requires y < 8 && z < 8
    ensures Main0(c, x, y, z, at).line == c.line
  {
    hide Branch, Accumulator, Set8, SetPair, Add16, IncDecFlags, Stepped, RelativeTarget, Ea, Get8, GetPair;
  }

  lemma LastKeepsLine(c: Core, x: Index, y: nat, z: nat, at: word)
    requires y < 8 && z < 8 && Plain(0xC0 + 8 * y + z)
    ensures Main3(c, x, y, z, at).line == c.line
  {
    hide Alu, Main31, Cond, GetPair;
  }

  /** In `u` a one-pass instruction of `n` bytes has run from `s` and left this core, but for R and PC. */
  predicate Leaves(s: State, u: State, c: Core, n: nat) {
    && u.core == c.(regs := c.regs.(r := Refresh(s.core.regs.r), pc := Word(PC(s) + n)))
    && u.ctl == Unwait(s).ctl && Quiet(u)
  }

  /** The opcode does not jump, is `n` bytes long, and turns core `c` into `to`, but for R and PC. */
  predicate Yields(c: Core, op: byte, at: word, to: Core, n: nat) {
    var m := Main(Fetched(c), HL, op, at);
    && Plain(op) && MainTarget(Fetched(c), HL, op, at) == Stay && MainLength(HL, op) == n
    && m == to.(regs := to.regs.(r := Refresh(c.regs.r), pc := m.regs.pc))
  }

  lemma StraightOn(s: State, op: byte, c: Core, n: nat)
    requires Quiet(s) && Code(s, op) && Yields(s.core, op, PC(s), c, n)
    ensures Leaves(s, After(s, 1), c, n)
  {
    hide Main, MainTarget, MainLength, MainTime, After, Spent, Quiet, Unwait, Refresh, Word, Plain, Code, Fetched;
    PlainStep(s, op);
  }

  /** A CB-prefixed instruction takes two passes. */
  lemma CBStep(s: State, op: byte)
    requires Quiet(s) && Code2(s, 0xCB, op)
    ensures var c := Fetched(Fetched(s.core));
            var m := CB(c, HL, op, PC(s));
            After(s, 2) == State(m.(regs := m.regs.(pc := Word(PC(s) + 2))), Unwait(s).ctl)
            && Spent(s, 2) == 4 + CBTime(HL, op) && Quiet(After(s, 2))
  {
    CBFirst(s);
    hide CB, CBTime, Fetched, After, Spent, Pass, Cost, Unwait, Inv, Word, PC;
    CBSecond(s, Pass(s), op);
    TwoPasses(s);
  }

  lemma CBSecond(s: State, v: State, op: byte)
    requires Quiet(s) && Code2(s, 0xCB, op) && Inv(v) && v.core == Fetched(s.core)
    requires v.ctl == Unwait(s).ctl.(prefix := 0xCB) && PC(v) == Word(PC(s) + 1) && Unwait(s).ctl.prefix == 0
    ensures var m := CB(Fetched(v.core), HL, op, PC(s));
            && Pass(v) == State(m.(regs := m.regs.(pc := Word(PC(s) + 2))), Unwait(s).ctl)
            && Cost(v) == CBTime(HL, op) && Quiet(Pass(v))
  {
    WordPlus(PC(s) + 1, 1);
    CBLast(v);
    PassKeepsInv(v);
    CBIgnoresPlace(Fetched(v.core), op, PC(s), PC(v));
    hide CB, CBTime, Pass, Cost, Inv, Refresh;
  }

  lemma CBFirst(s: State)
    requires Quiet(s) && Code(s, 0xCB)
    ensures var v := Pass(s);
            && v.core == Fetched(s.core) && v.core.mem == s.core.mem && v.core.line == s.core.line
            && v.ctl == Unwait(s).ctl.(prefix := 0xCB) && Cost(s) == 4
            && Inv(v) && !v.ctl.halted && v.ctl.iff2 == s.ctl.iff2 && PC(v) == Word(PC(s) + 1)
            && Unwait(s).ctl.prefix == 0
  {
    PrefixFetch(s, 0xCB);
    PassKeepsInv(s);
    hide Pass, Cost, Refresh;
  }

  lemma CBLast(v: State)
    requires Inv(v) && v.ctl.prefix == 0xCB
    ensures var m := CB(Fetched(v.core), HL, v.core.mem[PC(v)], PC(v));
            && Pass(v) == State(m.(regs := m.regs.(pc := Word(PC(v) + 1))), v.ctl.(prefix := 0))
            && Cost(v) == CBTime(HL, v.core.mem[PC(v)])
            && m.line == v.core.line
  {
    hide Modified, ModifiedFlags, BitFlags, Set8, Get8, CBTime;
  }

  lemma CBIgnoresPlace(c: Core, op: byte, d: word, e: word)
    ensures CB(c, HL, op, d) == CB(c, HL, op, e)
  {
    hide Modified, ModifiedFlags, BitFlags, Set8, Get8;
  }

  /** An ED-prefixed instruction takes two passes as well. It may jump, and it may touch devices and
      interrupts, so that what comes next is not always quiet. */
  lemma EDStep(s: State, op: byte)
    requires Quiet(s) && Code2(s, 0xED, op)
    ensures var c, at, k := Fetched(Fetched(s.core)), Word(PC(s) + 1), Unwait(s).ctl;
            var t := EDTarget(c, k.iff2, op, at);
            var m := ED(c, k.iff2, op, at);
            && After(s, 2) == State(m.(regs := m.regs.(pc := Next(t, Word(at + EDLength(op))))), EDControl(k, op))
            && Spent(s, 2) == 4 + EDTime(op, t != Stay)
  {
    EDFirst(s);
    hide ED, EDTarget, EDLength, EDTime, EDControl, Fetched, After, Spent, Pass, Cost, Unwait, Inv, Word;
    EDLast(Pass(s));
    TwoPasses(s);
    ForgetsPrefix(Unwait(s).ctl, op);
  }

  lemma EDFirst(s: State)
    requires Quiet(s) && Code(s, 0xED)
    ensures var v := Pass(s);
            && v.core == Fetched(s.core) && v.core.mem == s.core.mem && v.ctl == Unwait(s).ctl.(prefix := 0xED00)
            && Cost(s) == 4 && Inv(v) && !v.ctl.halted && PC(v) == Word(PC(s) + 1) && Unwait(s).ctl.prefix == 0
  {
    PrefixFetch(s, 0xED);
    PassKeepsInv(s);
    hide Pass, Cost, Refresh;
  }

  lemma EDLast(v: State)
    requires Inv(v) && v.ctl.prefix == 0xED00
    ensures var c, op, at := Fetched(v.core), v.core.mem[PC(v)], PC(v);
            var t := EDTarget(c, v.ctl.iff2, op, at);
            var m := ED(c, v.ctl.iff2, op, at);
            && Pass(v) == State(m.(regs := m.regs.(pc := Next(t, Word(at + EDLength(op))))), EDControl(v.ctl, op))
            && Cost(v) == EDTime(op, t != Stay)
  {
    hide ED, EDTarget, EDLength, EDTime, EDControl, Word;
  }

  lemma ForgetsPrefix(k: Control, op: byte)
    requires k.prefix == 0
    ensures EDControl(k.(prefix := 0xED00), op) == EDControl(k, op)
  {
  }
}
