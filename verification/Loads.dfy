/** Moving data: loads, stores, exchanges, the stack and counting, as programs see them. */
module Loads {
  import opened Bytes
  import opened Operands
  import opened Registers
  import opened Z80
  import opened Runs
  import opened Steps
  import opened Jumps
  import opened Logic

  // ----- bytes

  /** LD r,r', LD r,(HL) and LD (HL),r copy the operand named last to the one named first. */
  lemma Load(s: State, y: nat, z: nat)
    requires Quiet(s) && y < 8 && z < 8 && !(y == 6 && z == 6) && Code(s, 0x40 + 8 * y + z)
    ensures var u := After(s, 1);
            Leaves(s, u, With(s.core, y, Held(s.core, z)), 1) && Held(u.core, y) == Held(s.core, z)
  {
    hide Yields, Leaves, With, Held, After, Quiet, Code;
    LoadYields(s.core, y, z, PC(s));
    StraightOn(s, 0x40 + 8 * y + z, With(s.core, y, Held(s.core, z)), 1);
    HeldAfter(s, After(s, 1), y, Held(s.core, z), 1);
  }

  lemma LoadYields(c: Core, y: nat, z: nat, at: word)
    requires y < 8 && z < 8 && !(y == 6 && z == 6)
    ensures Yields(c, 0x40 + 8 * y + z, at, With(c, y, Held(c, z)), 1)
  {
    LoadTable(Fetched(c), y, z, at);
    FetchedOnce(c, y, Held(c, z), z);
    hide Main, MainTarget, MainLength, With, Held, Plain, Refresh, Fetched;
  }

  lemma LoadTable(c: Core, y: nat, z: nat, at: word)
    requires y < 8 && z < 8 && !(y == 6 && z == 6)
    ensures var op := 0x40 + 8 * y + z;
            && Plain(op) && Main(c, HL, op, at) == With(c, y, Held(c, z))
            && MainTarget(c, HL, op, at) == Stay && MainLength(HL, op) == 1
  {
    var op := 0x40 + 8 * y + z;
    assert op / 0x40 == 1 && op / 8 % 8 == y && op % 8 == z;
    hide Get8, Set8;
  }

  lemma FetchedOnce(c: Core, z: nat, v: byte, w: nat)
    requires z < 8 && w < 8
    ensures var f := Fetched(c);
            && Held(f, w) == Held(c, w)
            && With(f, z, v) == With(c, z, v).(regs := With(c, z, v).regs.(pc := f.regs.pc, r := f.regs.r))
            && f.regs.r == Refresh(c.regs.r) && f.regs.f == c.regs.f && f.mem == c.mem
  {
    hide Pair, Hi, Lo, Refresh, Word;
  }

  lemma HeldAfter(s: State, u: State, z: nat, v: byte, n: nat)
    requires z < 8 && Leaves(s, u, With(s.core, z, v), n)
    ensures Held(u.core, z) == v
  {
    var c := With(s.core, z, v);
    HeldWith(s.core, z, v, z);
    HeldIgnores(c, z, c.regs.f, Refresh(s.core.regs.r), Word(PC(s) + n));
    hide With, Held, Refresh, Word, Quiet, Unwait;
  }

  lemma HeldIgnores(c: Core, z: nat, f: Flags, r: byte, pc: word)
    requires z < 8
    ensures Held(c.(regs := c.regs.(f := f, r := r, pc := pc)), z) == Held(c, z)
  {
    hide Hi, Lo;
  }

  /** LD r,n and LD (HL),n. */
  lemma LoadByte(s: State, y: nat, n: byte)
    requires Quiet(s) && y < 8 && Code2(s, 0x06 + 8 * y, n)
    ensures var u := After(s, 1); Leaves(s, u, With(s.core, y, n), 2) && Held(u.core, y) == n
  {
    LoadByteYields(s.core, y, PC(s));
    hide Yields, Leaves, With, Held, After, Quiet;
    StraightOn(s, 0x06 + 8 * y, With(s.core, y, n), 2);
    HeldAfter(s, After(s, 1), y, n, 2);
  }

  lemma LoadByteYields(c: Core, y: nat, at: word)
    requires y < 8
    ensures Yields(c, 0x06 + 8 * y, at, With(c, y, c.mem[Word(at + 1)]), 2)
  {
    LoadByteTable(Fetched(c), y, at);
    FetchedOnce(c, y, c.mem[Word(at + 1)], y);
    hide Main, MainTarget, MainLength, With, Held, Plain, Refresh, Fetched, Word;
  }

  lemma LoadByteTable(c: Core, y: nat, at: word)
    requires y < 8
    ensures var op := 0x06 + 8 * y;
            && Plain(op) && Main(c, HL, op, at) == With(c, y, c.mem[Word(at + 1)])
            && MainTarget(c, HL, op, at) == Stay && MainLength(HL, op) == 2
  {
    var op := 0x06 + 8 * y;
    assert op / 0x40 == 0 && op / 8 % 8 == y && op % 8 == 6;
    hide Set8, Word;
  }

  // ----- counting

  /** The core with an operand counted up or down. */
  function Counted(c: Core, y: nat, up: bool): Core
    requires y < 8
  {
    var v := Held(c, y);
    var w := With(c, y, Stepped(v, up));
    w.(regs := w.regs.(f := IncDecFlags(c.regs.f, v, up)))
  }

  /** INC and DEC count any operand up or down by one, round the corner. Z tells of zero and S of
      the top bit; PV tells of passing from 7F to 80 or back; carry stays. */
  lemma Count(s: State, y: nat, up: bool)
    requires Quiet(s) && y < 8 && Code(s, (if up then 0x04 else 0x05) + 8 * y)
    ensures var v, f, u := Held(s.core, y), s.core.regs.f, After(s, 1);
            var w, f' := Held(u.core, y), u.core.regs.f;
            var c := With(s.core, y, w);
            && w == (if up then v + 1 else v - 1) % 0x100
            && Leaves(s, u, c.(regs := c.regs.(f := f')), 1)
            && (Holds(FlagByte(f'), 1) <==> w == 0) && (Holds(FlagByte(f'), 7) <==> w >= 0x80)
            && (Holds(FlagByte(f'), 5) <==> if up then v == 0x7F else v == 0x80)
            && (Holds(FlagByte(f'), 3) <==> Holds(FlagByte(f), 3))
  {
    CountLeaves(s, y, up);
    hide Yields, With, Held, After, Quiet, IncDecFlags, Holds, FlagByte, Stepped, Code, Leaves;
    CountSays(s.core.regs.f, Held(s.core, y), up);
    CountHeld(s, After(s, 1), y, up);
  }

  lemma CountLeaves(s: State, y: nat, up: bool)
    requires Quiet(s) && y < 8 && Code(s, (if up then 0x04 else 0x05) + 8 * y)
    ensures Leaves(s, After(s, 1), Counted(s.core, y, up), 1)
  {
    hide Yields, Counted, After, Quiet, Code, Leaves;
    CountYields(s.core, y, up, PC(s));
    StraightOn(s, (if up then 0x04 else 0x05) + 8 * y, Counted(s.core, y, up), 1);
  }

  lemma CountHeld(s: State, u: State, y: nat, up: bool)
    requires y < 8
    ensures Leaves(s, u, Counted(s.core, y, up), 1) ==>
              && Held(u.core, y) == Stepped(Held(s.core, y), up)
              && u.core.regs.f == IncDecFlags(s.core.regs.f, Held(s.core, y), up)
  {
    var v := Held(s.core, y);
    var w := With(s.core, y, Stepped(v, up));
    HeldWith(s.core, y, Stepped(v, up), y);
    HeldIgnores(w, y, IncDecFlags(s.core.regs.f, v, up), Refresh(s.core.regs.r), Word(PC(s) + 1));
    hide With, Held, Refresh, Word, Quiet, Unwait, IncDecFlags, Stepped;
  }

  lemma CountYields(c: Core, y: nat, up: bool, at: word)
    requires y < 8
    ensures Yields(c, (if up then 0x04 else 0x05) + 8 * y, at, Counted(c, y, up), 1)
  {
    CountTable(Fetched(c), y, up, at);
    FetchedOnce(c, y, Stepped(Held(c, y), up), y);
    hide Main, MainTarget, MainLength, With, Held, Plain, Refresh, Fetched, IncDecFlags, Stepped;
  }

  lemma CountTable(c: Core, y: nat, up: bool, at: word)
    requires y < 8
    ensures var op := (if up then 0x04 else 0x05) + 8 * y;
            && Plain(op) && Main(c, HL, op, at) == Counted(c, y, up)
            && MainTarget(c, HL, op, at) == Stay && MainLength(HL, op) == 1
  {
    var op := (if up then 0x04 else 0x05) + 8 * y;
    assert op / 0x40 == 0 && op / 8 % 8 == y && op % 8 == if up then 4 else 5;
    hide Get8, Set8, Stepped, IncDecFlags;
  }

  lemma CountSays(f: Flags, v: byte, up: bool)
    ensures var f', w := IncDecFlags(f, v, up), Stepped(v, up);
            && w == (if up then v + 1 else v - 1) % 0x100
            && (Holds(FlagByte(f'), 1) <==> w == 0) && (Holds(FlagByte(f'), 7) <==> w >= 0x80)
            && (Holds(FlagByte(f'), 5) <==> if up then v == 0x7F else v == 0x80)
            && (Holds(FlagByte(f'), 3) <==> Holds(FlagByte(f), 3))
  {
    var f' := IncDecFlags(f, v, up);
    CondHolds(f', 1); CondHolds(f', 7); CondHolds(f', 5); CondHolds(f', 3); CondHolds(f, 3);
    hide Holds, FlagByte, Bit;
  }

  /** DJNZ counts B down and jumps unless that makes it zero; flags stay. */
  lemma CountAndJump(s: State, d: byte)
    requires Quiet(s) && Code2(s, 0x10, d)
    ensures var r, u := s.core.regs, After(s, 1);
            var b, off := (r.bc / 0x100 - 1) % 0x100, if d < 0x80 then d else d - 0x100;
            var target := Word(PC(s) + 2 + off);
            && u.core == s.core.(regs := Ready(s).(bc := b * 0x100 + r.bc % 0x100,
                                                   wz := if b != 0 then target else r.wz,
                                                   pc := if b != 0 then target else Word(PC(s) + 2)))
            && u.ctl == Unwait(s).ctl && Quiet(u) && Spent(s, 1) == if b != 0 then 13 else 8
  {
    CountTables(Fetched(s.core), PC(s));
    hide Main, MainTarget, MainLength, MainTime, After, Spent, Quiet, Unwait, Plain, Refresh, Word;
    PlainStep(s, 0x10);
  }

  lemma CountTables(c: Core, at: word)
    ensures var d: int := c.mem[Word(at + 1)];
            var target := Word(at + 2 + if d < 0x80 then d else d - 0x100);
            var b: int := (c.regs.bc / 0x100 - 1) % 0x100;
            && Plain(0x10) && MainLength(HL, 0x10) == 2 && MainTime(HL, 0x10, true) == 13
            && MainTime(HL, 0x10, false) == 8
            && Main(c, HL, 0x10, at)
               == c.(regs := c.regs.(bc := b * 0x100 + c.regs.bc % 0x100, wz := if b != 0 then target else c.regs.wz))
            && MainTarget(c, HL, 0x10, at) == if b != 0 then Goto(target) else Stay
  {
    assert (c.regs.bc / 0x100 - 1) % 0x100 == 0 <==> c.regs.bc / 0x100 == 1;
    hide Word;
  }

  /** A DJNZ onto itself is a delay of B rounds, 256 for 0: 13 cycles each and 8 for the last. */
  lemma {:induction false} Delay(s: State, n: nat)
    requires Quiet(s) && Code2(s, 0x10, 0xFE) && n == (if Hi(s.core.regs.bc) == 0 then 0x100 else Hi(s.core.regs.bc))
    ensures Delayed(s, After(s, n)) && Spent(s, n) == 13 * n - 5
    decreases n
  {
    DelayRound(s);
    hide Quiet, After, Spent, Code2, Hi, Delayed, Around;
    if n > 1 {
      var u := After(s, 1);
      WaitsOn(s, u);
      Delay(u, n - 1);
      AfterAdd(s, 1, n - 1);
      DelayedOn(s, u, After(u, n - 1));
    }
  }

  /** The loop is behind, B is 0, and else nothing but R has changed that a program uses. */
  predicate Delayed(s: State, u: State) {
    && PC(u) == Word(PC(s) + 2) && Hi(u.core.regs.bc) == 0 && Lo(u.core.regs.bc) == Lo(s.core.regs.bc)
    && u.core.regs.f == s.core.regs.f && u.core.mem == s.core.mem && Quiet(u)
  }

  predicate Around(s: State, u: State) {
    && PC(u) == PC(s) && Lo(u.core.regs.bc) == Lo(s.core.regs.bc)
    && u.core.regs.f == s.core.regs.f && u.core.mem == s.core.mem && Quiet(u)
  }

  lemma WaitsOn(s: State, u: State)
    requires Around(s, u) && Code2(s, 0x10, 0xFE)
    ensures Quiet(u) && Code2(u, 0x10, 0xFE)
  {
    hide Quiet, Word;
  }

  lemma DelayedOn(s: State, u: State, v: State)
    requires Around(s, u) && Delayed(u, v)
    ensures Delayed(s, v)
  {
    hide Quiet, Word, Hi, Lo;
  }

  lemma DelayRound(s: State)
    requires Quiet(s) && Code2(s, 0x10, 0xFE)
    ensures var u := After(s, 1);
            var b := Hi(u.core.regs.bc);
            && b == (if Hi(s.core.regs.bc) == 0 then 0xFF else Hi(s.core.regs.bc) - 1)
            && Spent(s, 1) == (if b != 0 then 13 else 8)
            && if b == 0 then Delayed(s, u) else Around(s, u)
  {
    BackAround(s.core.regs.bc, PC(s));
    hide Quiet, Unwait, Refresh, Word, After, Spent;
    CountAndJump(s, 0xFE);
  }

  lemma BackAround(bc: word, pc: word)
    ensures Word(pc + 2 + 0xFE - 0x100) == pc
    ensures var b := (bc / 0x100 - 1) % 0x100;
            && (b * 0x100 + bc % 0x100) / 0x100 == b && (b * 0x100 + bc % 0x100) % 0x100 == bc % 0x100
            && (b == 0 <==> bc / 0x100 == 1)
  {
    var b := (bc / 0x100 - 1) % 0x100;
    var h: int, l: int := b, bc % 0x100;
    PairParts(h, l);
  }

  // ----- words

  /** BC, DE, HL or SP replaced. */
  function WithWord(c: Core, p: nat, w: word): Core
    requires p < 4
  {
    match p
    case 0 => c.(regs := c.regs.(bc := w)) case 1 => c.(regs := c.regs.(de := w))
    case 2 => c.(regs := c.regs.(hl := w)) case _ => c.(regs := c.regs.(sp := w))
  }

  function HeldWord(c: Core, p: nat): word
    requires p < 4
  {
    match p case 0 => c.regs.bc case 1 => c.regs.de case 2 => c.regs.hl case _ => c.regs.sp
  }

  /** LD rp,nn, in the order BC, DE, HL, SP; the low byte comes first. */
  lemma LoadWord(s: State, p: nat, nn: word)
    requires Quiet(s) && p < 4 && Code3(s, 0x01 + 0x10 * p, Lo(nn), Hi(nn))
    ensures Leaves(s, After(s, 1), WithWord(s.core, p, nn), 3)
  {
    ReadsOperand(s, nn);
    LoadWordYields(s.core, p, PC(s));
    hide Yields, Leaves, After, Quiet, WithWord, ReadWord, Lo, Hi, Word;
    StraightOn(s, 0x01 + 0x10 * p, WithWord(s.core, p, nn), 3);
  }

  lemma LoadWordYields(c: Core, p: nat, at: word)
    requires p < 4
    ensures Yields(c, 0x01 + 0x10 * p, at, WithWord(c, p, ReadWord(c.mem, Word(at + 1))), 3)
  {
    var op := 0x01 + 0x10 * p;
    assert op / 0x40 == 0 && op / 8 % 8 == 2 * p && op % 8 == 1;
    hide ReadWord, Word, Refresh;
  }

  /** INC rp and DEC rp count a word, round the corner, and touch no flag. */
  lemma CountWord(s: State, p: nat, up: bool)
    requires Quiet(s) && p < 4 && Code(s, (if up then 0x03 else 0x0B) + 0x10 * p)
    ensures Leaves(s, After(s, 1), WithWord(s.core, p, Word(HeldWord(s.core, p) + if up then 1 else -1)), 1)
  {
    CountWordYields(s.core, p, up, PC(s));
    hide Yields, Leaves, After, Quiet, WithWord, HeldWord, Word, Code;
    StraightOn(s, (if up then 0x03 else 0x0B) + 0x10 * p,
               WithWord(s.core, p, Word(HeldWord(s.core, p) + if up then 1 else -1)), 1);
  }

  lemma CountWordYields(c: Core, p: nat, up: bool, at: word)
    requires p < 4
    ensures Yields(c, (if up then 0x03 else 0x0B) + 0x10 * p, at,
                   WithWord(c, p, Word(HeldWord(c, p) + if up then 1 else -1)), 1)
  {
    var op := (if up then 0x03 else 0x0B) + 0x10 * p;
    assert op / 0x40 == 0 && op / 8 % 8 == 2 * p + (if up then 0 else 1) && op % 8 == 3;
    hide Word, Refresh;
  }

  /** ADD HL,rp: HL and carry together are the exact sum; S, Z and PV stay. */
  lemma AddWord(s: State, p: nat)
    requires Quiet(s) && p < 4 && Code(s, 0x09 + 0x10 * p)
    ensures var r, u := s.core.regs, After(s, 1);
            var r' := u.core.regs;
            && r'.hl + (if r'.f.c then 0x10000 else 0) == r.hl + HeldWord(s.core, p)
            && r'.f.s == r.f.s && r'.f.z == r.f.z && r'.f.pv == r.f.pv && !r'.f.n
            && Leaves(s, u, s.core.(regs := r.(hl := r'.hl, wz := r'.hl, f := r'.f)), 1)
  {
    var sum := Add16(s.core.regs, HL, HeldWord(s.core, p));
    AddWordYields(s.core, p, PC(s));
    AddSum(s.core.regs, HeldWord(s.core, p));
    hide Yields, After, Quiet, HeldWord, Code, Add16, Refresh, Word;
    StraightOn(s, 0x09 + 0x10 * p, s.core.(regs := sum), 1);
  }

  lemma AddSum(r: Regs, v: word)
    ensures var r' := Add16(r, HL, v);
            && r'.hl + (if r'.f.c then 0x10000 else 0) == r.hl + v
            && r'.f.s == r.f.s && r'.f.z == r.f.z && r'.f.pv == r.f.pv && !r'.f.n
            && r' == r.(hl := r'.hl, wz := r'.hl, f := r'.f)
  {
    hide Bit;
  }

  lemma AddWordYields(c: Core, p: nat, at: word)
    requires p < 4
    ensures Yields(c, 0x09 + 0x10 * p, at, c.(regs := Add16(c.regs, HL, HeldWord(c, p))), 1)
  {
    AddWordTable(Fetched(c), p, at);
    AddIgnores(c.regs, HeldWord(c, p), Fetched(c).regs.pc, Refresh(c.regs.r));
    hide Main, MainTarget, MainLength, Add16, Word, Refresh, Plain;
  }

  lemma AddWordTable(c: Core, p: nat, at: word)
    requires p < 4
    ensures var op := 0x09 + 0x10 * p;
            && Plain(op) && Main(c, HL, op, at) == c.(regs := Add16(c.regs, HL, HeldWord(c, p)))
            && MainTarget(c, HL, op, at) == Stay && MainLength(HL, op) == 1
  {
    var op := 0x09 + 0x10 * p;
    assert op / 0x40 == 0 && op / 8 % 8 == 2 * p + 1 && op % 8 == 1;
    hide Add16;
  }

  lemma AddIgnores(r: Regs, v: word, pc: word, refreshed: byte)
    ensures Add16(r.(pc := pc, r := refreshed), HL, v) == Add16(r, HL, v).(pc := pc, r := refreshed)
  {
    hide Word, Bit, Hi;
  }

  /** LD (nn),HL puts L at nn and H behind it; LD HL,(nn) takes them from there. LD (nn),A and
      LD A,(nn) move one byte. WZ keeps the address. */
  function Absolute(c: Core, y: nat, nn: word): Core
    requires y < 4
  {
    var m, r, behind := c.mem, c.regs.(wz := nn), Word(nn + 1);
    match y
    case 0 => c.(mem := m[nn := r.hl % 0x100][behind := r.hl / 0x100], regs := r)
    case 1 => c.(regs := r.(hl := Pair(m[behind], m[nn])))
    case 2 => c.(mem := m[nn := r.a], regs := r)
    case _ => c.(regs := r.(a := m[nn]))
  }

  lemma AbsoluteStep(s: State, y: nat, nn: word)
    requires Quiet(s) && y < 4 && Code3(s, 0x22 + 8 * y, Lo(nn), Hi(nn))
    ensures Leaves(s, After(s, 1), Absolute(s.core, y, nn), 3)
  {
    ReadsOperand(s, nn);
    AbsoluteYields(s.core, y, ReadWord(s.core.mem, Word(PC(s) + 1)), PC(s));
    hide Yields, Leaves, After, Quiet, Absolute, ReadWord, Lo, Hi, Word;
    StraightOn(s, 0x22 + 8 * y, Absolute(s.core, y, nn), 3);
  }

  lemma AbsoluteYields(c: Core, y: nat, nn: word, at: word)
    requires y < 4 && nn == ReadWord(c.mem, Word(at + 1))
    ensures Yields(c, 0x22 + 8 * y, at, Absolute(c, y, nn), 3)
  {
    var op := 0x22 + 8 * y;
    assert op / 0x40 == 0 && op / 8 % 8 == y + 4 && op % 8 == 2;
    ReadsAt(c.mem, nn);
    hide ReadWord, Word, Pair, Refresh;
  }

  lemma ReadsAt(m: Memory, a: word)
    ensures ReadWord(m, a) == Pair(m[Word(a + 1)], m[a])
  {
  }

  /** What LD (nn),HL stored, LD HL,(nn) loads. */
  lemma AbsoluteBack(c: Core, d: Core, nn: word)
    requires var m := Absolute(c, 0, nn).mem; d.mem[nn] == m[nn] && d.mem[Word(nn + 1)] == m[Word(nn + 1)]
    ensures Absolute(d, 1, nn).regs.hl == c.regs.hl
  {
    PairOf(c.regs.hl);
    NextApart(nn);
    hide Pair, Word;
  }

  lemma NextApart(nn: word)
    ensures Word(nn + 1) != nn
  {
  }

  /** LD (BC),A and LD (DE),A store A; LD A,(BC) and LD A,(DE) load it. */
  lemma ThroughPair(s: State, y: nat)
    requires Quiet(s) && y < 4 && Code(s, 0x02 + 8 * y)
    ensures var c, r := s.core, s.core.regs;
            var to := match y
              case 0 => c.(mem := c.mem[r.bc := r.a]) case 1 => c.(regs := r.(a := c.mem[r.bc]))
              case 2 => c.(mem := c.mem[r.de := r.a]) case _ => c.(regs := r.(a := c.mem[r.de]));
            Leaves(s, After(s, 1), to, 1)
  {
    var c, r := s.core, s.core.regs;
    var op := 0x02 + 8 * y;
    assert op / 0x40 == 0 && op / 8 % 8 == y && op % 8 == 2;
    hide Leaves, After, Quiet, Word, Refresh, ReadWord;
    StraightOn(s, op, match y
                      case 0 => c.(mem := c.mem[r.bc := r.a]) case 1 => c.(regs := r.(a := c.mem[r.bc]))
                      case 2 => c.(mem := c.mem[r.de := r.a]) case _ => c.(regs := r.(a := c.mem[r.de])), 1);
  }

  // ----- the stack

  /** The word PUSH and POP move: BC, DE, HL, or A above the F byte. */
  function Stackable(r: Regs, p: nat): word
    requires p < 4
  {
    match p case 0 => r.bc case 1 => r.de case 2 => r.hl case _ => Pair(r.a, FlagByte(r.f))
  }

  function Pushed(c: Core, w: word): Core {
    c.(mem := Stacked(c.mem, c.regs.sp, w), regs := c.regs.(sp := Word(c.regs.sp - 2)))
  }

  lemma PushStep(s: State, p: nat)
    requires Quiet(s) && p < 4 && Code(s, 0xC5 + 0x10 * p)
    ensures Leaves(s, After(s, 1), Pushed(s.core, Stackable(s.core.regs, p)), 1)
  {
    PushYields(s.core, p, PC(s));
    hide Yields, Leaves, After, Quiet, Pushed, Stackable, Code;
    StraightOn(s, 0xC5 + 0x10 * p, Pushed(s.core, Stackable(s.core.regs, p)), 1);
  }

  lemma PushYields(c: Core, p: nat, at: word)
    requires p < 4
    ensures Yields(c, 0xC5 + 0x10 * p, at, Pushed(c, Stackable(c.regs, p)), 1)
  {
    var op := 0xC5 + 0x10 * p;
    assert op / 0x40 == 3 && op / 8 % 8 == 2 * p && op % 8 == 5;
    PushStacks(Fetched(c), Stackable(c.regs, p));
    hide Word, Push, Stacked, FlagByte, Refresh;
  }

  /** POP takes the word on top, A and all eight flags included, and drops it. */
  function Popped(c: Core, p: nat): Core
    requires p < 4
  {
    var w, r := OnStack(c.mem, c.regs.sp), c.regs.(sp := Word(c.regs.sp + 2));
    c.(regs := match p case 0 => r.(bc := w) case 1 => r.(de := w) case 2 => r.(hl := w) case _ => SetAF(r, w))
  }

  lemma PopStep(s: State, p: nat)
    requires Quiet(s) && p < 4 && Code(s, 0xC1 + 0x10 * p)
    ensures Leaves(s, After(s, 1), Popped(s.core, p), 1)
  {
    PopYields(s.core, p, PC(s));
    hide Yields, Leaves, After, Quiet, Popped, Code;
    StraightOn(s, 0xC1 + 0x10 * p, Popped(s.core, p), 1);
  }

  lemma PopYields(c: Core, p: nat, at: word)
    requires p < 4
    ensures Yields(c, 0xC1 + 0x10 * p, at, Popped(c, p), 1)
  {
    PopTable(Fetched(c), p, at);
    hide Main, MainTarget, MainLength, Plain, Word, OnStack, Refresh, ByteFlags;
  }

  lemma PopTable(c: Core, p: nat, at: word)
    requires p < 4
    ensures var op := 0xC1 + 0x10 * p;
            && Plain(op) && Main(c, HL, op, at) == Popped(c, p)
            && MainTarget(c, HL, op, at) == Stay && MainLength(HL, op) == 1
  {
    var op := 0xC1 + 0x10 * p;
    assert op / 0x40 == 3 && op / 8 % 8 == 2 * p && op % 8 == 1;
    TopIsOnStack(c);
    hide Word, Top, OnStack, SetAF;
    match p {
      case 0 => assert op == 0xC1;
      case 1 => assert op == 0xD1;
      case 2 => assert op == 0xE1;
      case _ => assert op == 0xF1;
    }
  }

  lemma PopMeans(c: Core, p: nat)
    requires p < 4
    ensures Stackable(Popped(c, p).regs, p) == OnStack(c.mem, c.regs.sp)
    ensures Popped(c, p).mem == c.mem && Popped(c, p).regs.sp == Word(c.regs.sp + 2)
  {
    var w := OnStack(c.mem, c.regs.sp);
    FlagsRoundTrip(c.regs.f, Lo(w));
    PairOf(w);
    hide FlagByte, ByteFlags, Pair, Hi, Lo, OnStack, Word;
  }

  /** A POP with SP and the two bytes on the stack as a PUSH left them gets back the word pushed,
      into whichever pair it names, and SP is as before. */
  lemma PopGetsPushed(c: Core, d: Core, p: nat, q: nat)
    requires p < 4 && q < 4
    requires var e := Pushed(c, Stackable(c.regs, p));
             && d.regs.sp == e.regs.sp && d.mem[e.regs.sp] == e.mem[e.regs.sp]
             && d.mem[Word(e.regs.sp + 1)] == e.mem[Word(e.regs.sp + 1)]
    ensures var r := Popped(d, q).regs; Stackable(r, q) == Stackable(c.regs, p) && r.sp == c.regs.sp
  {
    var w, sp := Stackable(c.regs, p), c.regs.sp;
    Unstacks(c.mem, sp, w);
    SameTop(d.mem, Stacked(c.mem, sp, w), d.regs.sp);
    PopMeans(d, q);
    hide Stacked, Stackable, Popped, Word, OnStack;
  }

  lemma SameTop(m: Memory, n: Memory, sp: word)
    ensures m[sp] == n[sp] && m[Word(sp + 1)] == n[Word(sp + 1)] ==> OnStack(m, sp) == OnStack(n, sp)
  {
    hide Word;
  }

  // ----- exchanges and the rest

  /** EX AF,AF', EXX, EX DE,HL, LD SP,HL and JP (HL), by opcode. */
  lemma Exchanges(s: State)
    requires Quiet(s)
    ensures var c, r, u := s.core, s.core.regs, After(s, 1);
            && (Code(s, 0x08) ==> Leaves(s, u, c.(regs := r.(a := r.af2 / 0x100, f := ByteFlags(r.af2 % 0x100),
                                                            af2 := r.a * 0x100 + FlagByte(r.f))), 1))
            && (Code(s, 0xD9) ==> Leaves(s, u, c.(regs := r.(bc := r.bc2, de := r.de2, hl := r.hl2,
                                                            bc2 := r.bc, de2 := r.de, hl2 := r.hl)), 1))
            && (Code(s, 0xEB) ==> Leaves(s, u, c.(regs := r.(de := r.hl, hl := r.de)), 1))
            && (Code(s, 0xF9) ==> Leaves(s, u, c.(regs := r.(sp := r.hl)), 1))
            && (Code(s, 0xE9) ==> u.core == c.(regs := Ready(s).(pc := r.hl)) && Quiet(u))
  {
    hide Leaves, After, Quiet, Word, Refresh, FlagByte, ByteFlags, Spent, Unwait;
    var c, r := s.core, s.core.regs;
    if Code(s, 0x08) { StraightOn(s, 0x08, c.(regs := ExAFAF(r)), 1); }
    if Code(s, 0xD9) { StraightOn(s, 0xD9, c.(regs := Exx(r)), 1); }
    if Code(s, 0xEB) { StraightOn(s, 0xEB, c.(regs := ExDEHL(r)), 1); }
    if Code(s, 0xF9) { StraightOn(s, 0xF9, c.(regs := r.(sp := r.hl)), 1); }
    if Code(s, 0xE9) { PlainStep(s, 0xE9); }
  }

  /** EX (SP),HL swaps HL with the word on top of the stack and leaves SP. */
  lemma SwapsWithStack(s: State)
    requires Quiet(s) && Code(s, 0xE3)
    ensures var c, sp := s.core, s.core.regs.sp;
            var w := OnStack(c.mem, sp);
            Leaves(s, After(s, 1), c.(mem := c.mem[sp := c.regs.hl % 0x100][Word(sp + 1) := c.regs.hl / 0x100],
                                      regs := c.regs.(hl := w, wz := w)), 1)
  {
    var c, sp := s.core, s.core.regs.sp;
    var behind := Word(s.core.regs.sp + 1);
    TopIsOnStack(Fetched(c));
    hide Leaves, After, Quiet, Word, Refresh, OnStack, Top;
    StraightOn(s, 0xE3, c.(mem := c.mem[sp := c.regs.hl % 0x100][behind := c.regs.hl / 0x100],
                           regs := c.regs.(hl := OnStack(c.mem, sp), wz := OnStack(c.mem, sp))), 1);
  }

  /** CPL turns every bit of A over; SCF sets carry and CCF turns it over; all else but H, N and the
      undocumented flags stays. */
  lemma AccumulatorOnly(s: State, y: nat)
    requires Quiet(s) && 5 <= y < 8 && Code(s, 0x07 + 8 * y)
    ensures var r, u := s.core.regs, After(s, 1);
            var f, f' := r.f, u.core.regs.f;
            && Leaves(s, u, s.core.(regs := r.(a := u.core.regs.a, f := f')), 1)
            && u.core.regs.a == (if y == 5 then 0xFF - r.a else r.a)
            && f'.c == (if y == 5 then f.c else if y == 6 then true else !f.c)
            && f'.s == f.s && f'.z == f.z && f'.pv == f.pv
            && f'.h == (if y == 5 then true else if y == 6 then false else f.c) && f'.n == (y == 5)
  {
    var op := 0x07 + 8 * y;
    assert op / 0x40 == 0 && op / 8 % 8 == y && op % 8 == 7;
    hide Leaves, After, Quiet, Word, Refresh, Bit;
    var r := Z80.Accumulator(s.core.regs, y);
    StraightOn(s, op, s.core.(regs := r), 1);
    LeavesRegs(s, After(s, 1), r, 1);
  }

  lemma LeavesRegs(s: State, u: State, r: Regs, n: nat)
    requires Leaves(s, u, s.core.(regs := r), n)
    ensures u.core.regs.a == r.a && u.core.regs.f == r.f
  {
  }
}
