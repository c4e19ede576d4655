/** Input and output as programs see them: single transfers, and whole blocks of them. */
module Devices {
  import opened Bytes
  import opened Bitwise
  import opened Operands
  import opened Registers
  import opened Z80
  import opened Invariants
  import opened Runs
  import opened Steps
  import opened Extended

  /** The byte a device would answer now; with no device, 0. */
  function Offered(c: Core): byte { if c.answers == [] then 0 else c.answers[0].val }

  /** An exchange with a device: the event is noted, and the device may move the interrupt line. */
  function Met(c: Core, e: IoEvent): Core {
    if c.answers == [] then c.(io := c.io + [e])
    else c.(io := c.io + [e], answers := c.answers[1..], line := c.answers[0].line)
  }

  // ----- port n and A

  /** IN A,(n) and OUT (n),A: two bytes, no flag touched. */
  lemma DirectPort(s: State, n: byte, input: bool)
    requires Quiet(s) && Code2(s, if input then 0xDB else 0xD3, n)
    ensures var c, u := s.core, After(s, 1);
            var to := Direct(c, n, input);
            u == State(to.(regs := to.regs.(r := Refresh(c.regs.r), pc := Word(PC(s) + 2))), Unwait(s).ctl)
  {
    hide After, Unwait, Quiet, Word, Refresh, Fetched, Direct, Code2;
    PortPass(s, if input then 0xDB else 0xD3, n);
    DirectIgnores(s.core, Fetched(s.core).regs.pc, n, input);
  }

  lemma PortPass(s: State, op: byte, n: byte)
    requires Quiet(s) && Code2(s, op, n) && (op == 0xD3 || op == 0xDB)
    ensures var m := Direct(Fetched(s.core), n, op == 0xDB);
            After(s, 1) == State(m.(regs := m.regs.(pc := Word(PC(s) + 2))), Unwait(s).ctl)
  {
    hide Main, MainTarget, MainLength, Exec, After, Pass, Unwait, Quiet, Word, Fetched, Direct, Code, Code2;
    QuietPass(s);
    OnePass(s);
    CodeThere(s, Unwait(s), op, n);
    PortExec(Unwait(s), op);
    PortTable(Fetched(s.core), op, n, PC(s));
  }

  lemma CodeThere(s: State, t: State, op: byte, n: byte)
    requires Code2(s, op, n) && t.core == s.core
    ensures Code(t, op) && Fetched(s.core).mem[Word(PC(s) + 1)] == n && PC(t) == PC(s)
  {
    hide Word, Refresh;
  }

  /** Port `n` and A. */
  function Direct(c: Core, n: byte, input: bool): Core {
    if input then Met(c, In(n, Offered(c))).(regs := c.regs.(a := Offered(c))) else Met(c, Out(n, c.regs.a))
  }

  lemma DirectIgnores(c: Core, pc: word, n: byte, input: bool)
    requires pc == Fetched(c).regs.pc
    ensures var t := Direct(c, n, input);
            Direct(Fetched(c), n, input) == t.(regs := t.regs.(pc := pc, r := Refresh(c.regs.r)))
    ensures Fetched(c).mem == c.mem
  {
    hide Word, Refresh;
  }

  lemma PortExec(s: State, op: byte)
    requires s.ctl.prefix == 0 && Code(s, op) && (op == 0xD3 || op == 0xDB)
    ensures var c, at := Fetched(s.core), PC(s);
            var t, m := MainTarget(c, HL, op, at), Main(c, HL, op, at);
            Exec(s) == State(m.(regs := m.regs.(pc := Next(t, Word(at + MainLength(HL, op))))), s.ctl)
  {
    assert TableOf(s.ctl.prefix) == TableMain && IndexOf(s.ctl.prefix) == HL;
    hide Main, MainTarget, MainLength, MainTime, Fetched, Word, TableOf, IndexOf;
  }

  lemma PortTable(c: Core, op: byte, n: byte, at: word)
    requires (op == 0xD3 || op == 0xDB) && n == c.mem[Word(at + 1)]
    ensures MainTarget(c, HL, op, at) == Stay && MainLength(HL, op) == 2
    ensures Main(c, HL, op, at) == Direct(c, n, op == 0xDB)
  {
    assert op / 0x40 == 3 && op % 8 == 3 && op / 8 % 8 == (if op == 0xDB then 3 else 2);
    hide Word;
  }

  // ----- port C and any register

  /** What IN r,(C) leaves; with 6 for a register only the flags. */
  function Answers(c: Core, y: nat): Core
    requires y < 8
  {
    var v := Offered(c);
    var c1 := Met(c, In(c.regs.bc % 0x100, v));
    var c2 := if y == 6 then c1 else With(c1, y, v);
    c2.(regs := c2.regs.(f := ResultFlags(v, false, EvenParity(v), false, c.regs.f.c)))
  }

  lemma InputC(s: State, y: nat)
    requires Quiet(s) && y < 8 && Code2(s, 0xED, 0x40 + 8 * y)
    ensures Ends(s, After(s, 2), Answers(s.core, y), 2)
  {
    QuietPass(s);
    var op: byte := 0x40 + 8 * y;
    hide Turns, Ends, After, Quiet, Code2, Word, Unwait, Answers;
    InputTurns(s.core, Unwait(s).ctl, op, y, Word(PC(s) + 1));
    EndsWith(s, op, Answers(s.core, y), 2);
  }

  lemma InputTurns(c: Core, k: Control, op: byte, y: nat, at: word)
    requires k.prefix == 0 && y < 8 && op == 0x40 + 8 * y
    ensures Turns(c, k, op, at, Answers(c, y), 2)
  {
    hide ED, EDTarget, EDLength, EDControl, Refresh, Word, Answers;
    assert op / 0x40 == 1 && op / 8 % 8 == y && op % 8 == 0;
    InputTable(Twice(c), k.iff2, op, y, at);
    StaysPut(Twice(c), k, op, at);
    AnswersIgnore(c, Twice(c).regs.pc, Twice(c).regs.r, y);
  }

  lemma InputTable(c: Core, iff2: bool, op: byte, y: nat, at: word)
    requires y < 8 && op == 0x40 + 8 * y
    ensures ED(c, iff2, op, at) == Answers(c, y)
  {
    assert op / 0x40 == 1 && op / 8 % 8 == y && op % 8 == 0;
    hide ResultFlags, EvenParity, Hi, Pair;
  }

  lemma AnswersIgnore(c: Core, pc: word, refreshed: byte, y: nat)
    requires y < 8
    ensures var d, t := c.(regs := c.regs.(pc := pc, r := refreshed)), Answers(c, y);
            Answers(d, y) == t.(regs := t.regs.(pc := pc, r := refreshed))
  {
    hide ResultFlags, EvenParity, Hi, Lo, Pair;
  }

  /** The flags tell about the byte, and the register gets it. */
  lemma AnswersMean(c: Core, y: nat)
    requires y < 8
    ensures var t, v := Answers(c, y), Offered(c);
            && (y != 6 ==> Held(t, y) == v) && t.io == c.io + [In(c.regs.bc % 0x100, v)] && t.mem == c.mem
            && t.regs.f.z == (v == 0) && t.regs.f.s == (v >= 0x80) && t.regs.f.pv == (OnesMod2(v) == 0)
            && t.regs.f.c == c.regs.f.c && !t.regs.f.h && !t.regs.f.n
  {
    var v := Offered(c);
    HeldWith(Met(c, In(c.regs.bc % 0x100, v)), y, v, y);
    hide Bit, OnesMod2, Pair, Hi, Lo;
  }

  /** OUT (C),r; with 6 for a register the byte is 0xFF. */
  lemma OutputC(s: State, y: nat)
    requires Quiet(s) && y < 8 && Code2(s, 0xED, 0x41 + 8 * y)
    ensures var c := s.core;
            Ends(s, After(s, 2), Met(c, Out(c.regs.bc % 0x100, if y == 6 then 0xFF else Held(c, y))), 2)
  {
    QuietPass(s);
    var op: byte := 0x41 + 8 * y;
    hide Turns, Ends, After, Quiet, Code2, Word, Unwait, Met, Held;
    OutputTurns(s.core, Unwait(s).ctl, op, y, Word(PC(s) + 1));
    EndsWith(s, op, Met(s.core, Out(s.core.regs.bc % 0x100, if y == 6 then 0xFF else Held(s.core, y))), 2);
  }

  lemma OutputTurns(c: Core, k: Control, op: byte, y: nat, at: word)
    requires k.prefix == 0 && y < 8 && op == 0x41 + 8 * y
    ensures Turns(c, k, op, at, Met(c, Out(c.regs.bc % 0x100, if y == 6 then 0xFF else Held(c, y))), 2)
  {
    assert op / 0x40 == 1 && op / 8 % 8 == y && op % 8 == 1;
    StaysPut(Twice(c), k, op, at);
    hide Refresh, Word, EDTarget, EDLength, EDControl, Hi;
  }

  // ----- blocks

  /** One byte between port C and the byte at HL, B counting the bytes down. */
  function Transferred(c: Core, d: int, input: bool): Core {
    var port, m := c.regs.bc % 0x100, c.mem[c.regs.hl];
    var b: int := (c.regs.bc / 0x100 - 1) % 0x100;
    var c1 := if input then Met(c, In(port, Offered(c))).(mem := c.mem[c.regs.hl := Offered(c)])
              else Met(c, Out(port, m));
    c1.(regs := c.regs.(bc := b * 0x100 + port, hl := Word(c.regs.hl + d), f := c.regs.f.(z := b == 0, n := true)))
  }

  function BlockOpcode(d: int, input: bool, again: bool): byte {
    (if input then 0xA2 else 0xA3) + (if d == 1 then 0 else 8) + if again then 0x10 else 0
  }

  /** INI, IND, OUTI and OUTD, and with `again` INIR, INDR, OTIR and OTDR: one byte; the latter are
      run again until B is 0. */
  lemma BlockTransfer(s: State, d: int, input: bool, again: bool)
    requires Quiet(s) && (d == 1 || d == -1)
    requires Code2(s, 0xED, BlockOpcode(d, input, again))
    ensures var u, t := After(s, 2), Transferred(s.core, d, input);
            var pc := if again && !t.regs.f.z then PC(s) else Word(PC(s) + 2);
            && u == State(t.(regs := t.regs.(r := Refresh(Refresh(s.core.regs.r)), pc := pc)), Unwait(s).ctl)
            && Spent(s, 2) == if again && !t.regs.f.z then 21 else 16
  {
    hide After, Spent, Quiet, Unwait, Transferred, Word, Refresh, Code2, BlockOpcode;
    BlockPasses(s, BlockOpcode(d, input, again), d, input, again);
    TransferIgnores(s.core, Twice(s.core).regs.pc, Twice(s.core).regs.r, d, input);
  }

  lemma BlockPasses(s: State, op: byte, d: int, input: bool, again: bool)
    requires Quiet(s) && (d == 1 || d == -1) && Code2(s, 0xED, op)
    requires op == BlockOpcode(d, input, again)
    ensures var t := Transferred(Twice(s.core), d, input);
            var pc := if again && !t.regs.f.z then PC(s) else Word(PC(s) + 2);
            && After(s, 2) == State(t.(regs := t.regs.(pc := pc)), Unwait(s).ctl)
            && Spent(s, 2) == if again && !t.regs.f.z then 21 else 16
  {
    hide After, Spent, Quiet, Unwait, ED, EDTarget, EDLength, EDControl, EDTime, Transferred, Word, Code2, Fetched;
    hide BlockOpcode;
    UnwaitPrefix(s);
    BlockTable(Twice(s.core), Unwait(s).ctl, op, d, input, again, Word(PC(s) + 1));
    BackAndForth(PC(s));
    EDStep(s, op);
  }

  lemma UnwaitPrefix(s: State)
    requires Quiet(s)
    ensures Unwait(s).ctl.prefix == 0
  {
  }

  lemma BackAndForth(pc: word)
    ensures Word(Word(pc + 1) - 1) == pc && Word(Word(pc + 1) + 1) == Word(pc + 2)
  {
  }

  lemma BlockTable(c: Core, k: Control, op: byte, d: int, input: bool, again: bool, at: word)
    requires (d == 1 || d == -1) && k.prefix == 0
    requires op == BlockOpcode(d, input, again)
    ensures var t := Transferred(c, d, input);
            && ED(c, k.iff2, op, at) == t
            && EDTarget(c, k.iff2, op, at) == (if again && !t.regs.f.z then Goto(Word(at - 1)) else Stay)
            && EDLength(op) == 1 && EDControl(k, op) == k && EDTime(op, true) == 17 && EDTime(op, false) == 12
  {
    hide ED;
    assert op / 0x40 == 2 && op / 8 % 8 == (if d == 1 then 4 else 5) + if again then 2 else 0;
    assert op % 8 == if input then 2 else 3;
    BlockIs(c, k.iff2, op, d, input, again, at);
  }

  lemma BlockIs(c: Core, iff2: bool, op: byte, d: int, input: bool, again: bool, at: word)
    requires (d == 1 || d == -1)
    requires op == BlockOpcode(d, input, again)
    ensures ED(c, iff2, op, at) == Transferred(c, d, input)
  {
    assert op / 0x40 == 2 && op / 8 % 8 == (if d == 1 then 4 else 5) + if again then 2 else 0;
    assert op % 8 == if input then 2 else 3;
    hide Word, ED1;
  }

  lemma TransferIgnores(c: Core, pc: word, refreshed: byte, d: int, input: bool)
    ensures var e, t := c.(regs := c.regs.(pc := pc, r := refreshed)), Transferred(c, d, input);
            Transferred(e, d, input) == t.(regs := t.regs.(pc := pc, r := refreshed))
  {
    hide Word;
  }

  /** The `n` bytes from HL on, one way or the other, as they are sent to port C. */
  function Sent(c: Core, d: int, n: nat): seq<IoEvent> {
    seq(n, i requires 0 <= i < n => Out(c.regs.bc % 0x100, c.mem[Word(c.regs.hl + d * i)]))
  }

  /** How many bytes B asks for. */
  function Wanted(c: Core): nat { if c.regs.bc < 0x100 then 0x100 else c.regs.bc / 0x100 }

  /** `n` bytes were sent from `s` on. */
  predicate SentFrom(s: State, u: State, d: int, n: nat) {
    && u.core.io == s.core.io + Sent(s.core, d, n) && u.core.mem == s.core.mem
    && u.core.regs.hl == Word(s.core.regs.hl + d * n) && u.core.regs.bc % 0x100 == s.core.regs.bc % 0x100
    && u.core.regs.a == s.core.regs.a && u.core.regs.de == s.core.regs.de && u.core.regs.sp == s.core.regs.sp
    && u.ctl == s.ctl
  }

  predicate Calm(s: State) { Quiet(s) && !s.ctl.iff2 }

  /** With interrupts off, OTIR and OTDR send B bytes (256 for 0) from HL on to port C, in order, and
      go on behind themselves with B 0 and Z set; 21 cycles each and 16 for the last. */
  lemma {:induction false} OutputBlock(s: State, d: int, n: nat)
    requires Calm(s) && (d == 1 || d == -1)
    requires Code2(s, 0xED, if d == 1 then 0xB3 else 0xBB) && n == Wanted(s.core)
    ensures var u := After(s, 2 * n);
            && SentFrom(s, u, d, n) && u.core.regs.bc < 0x100 && u.core.regs.f.z
            && PC(u) == Word(PC(s) + 2) && Spent(s, 2 * n) == 21 * n - 5
    decreases n
  {
    hide After, Spent, Calm, SentFrom, Wanted, Code2;
    SendsOne(s, d);
    var u := After(s, 2);
    if n > 1 {
      OutputBlock(u, d, n - 1);
      AfterAdd(s, 2, 2 * (n - 1));
      SentOn(s, u, After(u, 2 * (n - 1)), d, n - 1);
    }
  }

  lemma SendsOne(s: State, d: int)
    requires Calm(s) && (d == 1 || d == -1)
    requires Code2(s, 0xED, if d == 1 then 0xB3 else 0xBB)
    ensures var u, last := After(s, 2), Wanted(s.core) == 1;
            && SentFrom(s, u, d, 1) && Calm(u)
            && Spent(s, 2) == (if last then 16 else 21)
            && (if last then u.core.regs.bc < 0x100 && u.core.regs.f.z && PC(u) == Word(PC(s) + 2)
                else Wanted(u.core) == Wanted(s.core) - 1 && PC(u) == PC(s)
                     && Code2(u, 0xED, if d == 1 then 0xB3 else 0xBB))
  {
    CountedDown(s.core.regs.bc);
    hide After, Spent, Refresh, Word, Quiet, Calm, Transferred, SentFrom, Unwait, Wanted, Code2;
    CalmOn(s, After(s, 2));
    BlockTransfer(s, d, false, true);
    OutTransferred(s, After(s, 2), d);
    SameCode(s, After(s, 2), if d == 1 then 0xB3 else 0xBB);
  }

  lemma CalmOn(s: State, u: State)
    requires Calm(s) && u == After(s, 2)
    ensures Quiet(s) && Unwait(s) == s && (u.ctl == s.ctl ==> Calm(u))
  {
    RunKeepsInv(s, 2);
    hide After, Inv;
  }

  lemma SameCode(s: State, u: State, b: byte)
    ensures Code2(s, 0xED, b) && u.core.mem == s.core.mem && PC(u) == PC(s) ==> Code2(u, 0xED, b)
  {
    hide Word;
  }

  lemma OutTransferred(s: State, u: State, d: int)
    requires var t := Transferred(s.core, d, false);
             u.ctl == s.ctl && u.core == t.(regs := t.regs.(r := u.core.regs.r, pc := u.core.regs.pc))
    ensures SentFrom(s, u, d, 1) && u.core.mem == s.core.mem
    ensures Transferred(s.core, d, false).regs.f.z == (Wanted(s.core) == 1) && u.core.regs.f.z == (Wanted(s.core) == 1)
    ensures if Wanted(s.core) == 1 then u.core.regs.bc < 0x100 else Wanted(u.core) == Wanted(s.core) - 1
  {
    CountedDown(s.core.regs.bc);
    OneSent(s.core, d);
    hide Word, Sent;
  }

  lemma OneSent(c: Core, d: int)
    ensures Sent(c, d, 1) == [Out(c.regs.bc % 0x100, c.mem[c.regs.hl])]
  {
  }

  lemma CountedDown(bc: word)
    ensures var b := (bc / 0x100 - 1) % 0x100;
            && (b * 0x100 + bc % 0x100) / 0x100 == b && (b * 0x100 + bc % 0x100) % 0x100 == bc % 0x100
            && (b == 0 <==> bc / 0x100 == 1) && (bc >= 0x100 ==> b == bc / 0x100 - 1) && (bc < 0x100 ==> b == 0xFF)
  {
    var h: int, l: int := (bc / 0x100 - 1) % 0x100, bc % 0x100;
    PairParts(h, l);
  }

  lemma SentOn(s: State, u: State, v: State, d: int, n: nat)
    requires SentFrom(s, u, d, 1) && SentFrom(u, v, d, n)
    ensures SentFrom(s, v, d, n + 1)
  {
    WordPlus(s.core.regs.hl + d, d * n);
    SentParts(s.core, u.core, d, n);
    assert d * (n + 1) == d + d * n;
    hide Word, Sent;
    assert (s.core.io + Sent(s.core, d, 1)) + Sent(u.core, d, n) == s.core.io + Sent(s.core, d, n + 1);
  }

  lemma SentParts(c: Core, e: Core, d: int, n: nat)
    requires e.mem == c.mem && e.regs.hl == Word(c.regs.hl + d * 1) && e.regs.bc % 0x100 == c.regs.bc % 0x100
    ensures Sent(c, d, 1) + Sent(e, d, n) == Sent(c, d, n + 1)
  {
    var first, rest, all := Sent(c, d, 1), Sent(e, d, n), Sent(c, d, n + 1);
    assert |first + rest| == |all|;
    forall i | 0 <= i < n + 1 ensures all[i] == (first + rest)[i] {
      if i > 0 { Shifted(c.regs.hl, d, i); }
    }
    hide Word;
  }

  lemma Shifted(hl: word, d: int, i: nat)
    requires i > 0
    ensures Word(Word(hl + d * 1) + d * (i - 1)) == Word(hl + d * i)
  {
    WordPlus(hl + d, d * (i - 1));
    assert hl + d + d * (i - 1) == hl + d * i;
    hide Word;
  }
}
