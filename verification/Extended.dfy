/** The ED-prefixed instructions, decimal sums and ports, as programs see them. */
module Extended {
  import opened Bytes
  import opened Operands
  import opened Registers
  import opened Z80
  import opened Invariants
  import opened Runs
  import opened Steps
  import opened Jumps
  import opened Logic
  import opened Loads
  import Arithmetic
  import Shifts

  function Twice(c: Core): Core { Fetched(Fetched(c)) }

  /** The opcode behind ED does not jump, ends `n` bytes behind the ED, leaves the control state
      alone, and turns core `c` into `to`, but for R and PC. */
  predicate Turns(c: Core, k: Control, op: byte, at: word, to: Core, n: nat) {
    var m := ED(Twice(c), k.iff2, op, at);
    && EDTarget(Twice(c), k.iff2, op, at) == Stay && EDLength(op) + 1 == n && EDControl(k, op) == k
    && m == to.(regs := to.regs.(r := Refresh(Refresh(c.regs.r)), pc := m.regs.pc))
  }

  /** In `u` a two-pass instruction of `n` bytes has run from `s` and left this core, but for R and PC. */
  predicate Ends(s: State, u: State, c: Core, n: nat) {
    && u.core == c.(regs := c.regs.(r := Refresh(Refresh(s.core.regs.r)), pc := Word(PC(s) + n)))
    && u.ctl == Unwait(s).ctl && (c.line == s.core.line ==> Quiet(u))
  }

  lemma EndsWith(s: State, op: byte, c: Core, n: nat)
    requires Quiet(s) && Code2(s, 0xED, op) && Turns(s.core, Unwait(s).ctl, op, Word(PC(s) + 1), c, n)
    ensures Ends(s, After(s, 2), c, n)
  {
    hide ED, EDTarget, EDLength, EDTime, EDControl, Fetched, After, Spent, Pass, Cost, Unwait, Inv, Word, Refresh;
    EDStep(s, op);
    WordPlus(PC(s) + 1, EDLength(op));
    if c.line == s.core.line { StillQuiet(s, After(s, 2), c); }
  }

  lemma StillQuiet(s: State, u: State, c: Core)
    requires Quiet(s) && u == After(s, 2) && u.ctl == Unwait(s).ctl && u.core.line == s.core.line
    ensures Quiet(u)
  {
    RunKeepsInv(s, 2);
    hide After, Inv;
  }

  /** The second quarter of the ED table, but for word moves, returns and IM. */
  lemma StaysPut(c: Core, k: Control, op: byte, at: word)
    requires k.prefix == 0 && op / 0x40 == 1 && op % 8 != 3 && op % 8 != 5 && op % 8 != 6
    ensures EDTarget(c, k.iff2, op, at) == Stay && EDLength(op) == 1 && EDControl(k, op) == k
  {
    hide ED;
  }

  /** NEG: A becomes 0 - A; carry tells that it was not 0. */
  lemma Negate(s: State)
    requires Quiet(s) && Code2(s, 0xED, 0x44)
    ensures var r, r' := s.core.regs, Negated(s.core.regs);
            && Ends(s, After(s, 2), s.core.(regs := r'), 2)
            && r' == r.(a := r'.a, f := r'.f) && (r.a + r'.a) % 0x100 == 0
            && r'.f.c == (r.a != 0) && r'.f.z == (r.a == 0) && r'.f.s == (r'.a >= 0x80) && r'.f.pv == (r.a == 0x80)
            && r'.f.n
  {
    NegatedIs(s.core.regs);
    var op: byte := 0x44;
    QuietPass(s);
    hide Turns, Ends, After, Quiet, Code2, Word, Unwait, Negated, ED;
    NegateTurns(s.core, Unwait(s).ctl, op, Word(PC(s) + 1));
    EndsWith(s, op, s.core.(regs := Negated(s.core.regs)), 2);
  }

  function Negated(r: Regs): Regs {
    var a := Byte(0 - r.a);
    r.(a := a, f := ResultFlags(a, r.a % 0x10 != 0, r.a == 0x80, true, r.a != 0))
  }

  lemma NegatedIs(r: Regs)
    ensures var r' := Negated(r);
            && r' == r.(a := r'.a, f := r'.f) && (r.a + r'.a) % 0x100 == 0
            && r'.f.c == (r.a != 0) && r'.f.z == (r.a == 0) && r'.f.s == (r'.a >= 0x80) && r'.f.pv == (r.a == 0x80)
            && r'.f.n
  {
    hide Bit;
  }

  lemma NegateTurns(c: Core, k: Control, op: byte, at: word)
    requires k.prefix == 0 && op == 0x44
    ensures Turns(c, k, op, at, c.(regs := Negated(c.regs)), 2)
  {
    NegateED(Twice(c), k.iff2, at);
    hide ED, Refresh, Word, ResultFlags, Byte;
  }

  lemma NegateED(c: Core, iff2: bool, at: word)
    ensures ED(c, iff2, 0x44, at) == c.(regs := Negated(c.regs))
  {
    hide ResultFlags;
  }

  /** ADC HL,rp and SBC HL,rp: HL and carry are together the exact sum or difference, the carry
      before included; Z looks at all sixteen bits, S at the top one, and PV tells whether the signed
      result fits. */
  lemma AddWithCarry(s: State, p: nat, sub: bool)
    requires Quiet(s) && p < 4 && Code2(s, 0xED, (if sub then 0x42 else 0x4A) + 0x10 * p)
    ensures var r, v, c := s.core.regs, HeldWord(s.core, p), if s.core.regs.f.c then 1 else 0;
            var r' := CarriedTo(r, v, sub);
            var carry := if r'.f.c then 0x10000 else 0;
            var exact := if sub then Signed16(r.hl) - Signed16(v) - c else Signed16(r.hl) + Signed16(v) + c;
            && Ends(s, After(s, 2), s.core.(regs := r'), 2)
            && r' == r.(hl := r'.hl, wz := r'.hl, f := r'.f)
            && (if sub then r'.hl - carry == r.hl - v - c else r'.hl + carry == r.hl + v + c)
            && r'.f.z == (r'.hl == 0) && r'.f.s == (r'.hl >= 0x8000) && r'.f.n == sub
            && (r'.f.pv <==> !(-0x8000 <= exact < 0x8000))
  {
    CarriedExactly(s.core.regs, HeldWord(s.core, p), sub);
    CarriedTurns(s.core, Unwait(s).ctl, p, sub, Word(PC(s) + 1));
    hide Turns, Ends, After, Quiet, Code2, Word, Unwait, HeldWord, CarriedTo, Signed16;
    var to := s.core.(regs := CarriedTo(s.core.regs, HeldWord(s.core, p), sub));
    EndsWith(s, (if sub then 0x42 else 0x4A) + 0x10 * p, to, 2);
  }

  /** The two's complement reading. */
  function Signed16(w: word): int { if w < 0x8000 then w else w - 0x10000 }

  function CarriedTo(r: Regs, v: word, sub: bool): Regs { if sub then Sbc16(r, v) else Adc16(r, v) }

  lemma CarriedExactly(r: Regs, v: word, sub: bool)
    ensures var r', c := CarriedTo(r, v, sub), if r.f.c then 1 else 0;
            var carry := if r'.f.c then 0x10000 else 0;
            var exact := if sub then Signed16(r.hl) - Signed16(v) - c else Signed16(r.hl) + Signed16(v) + c;
            && r' == r.(hl := r'.hl, wz := r'.hl, f := r'.f)
            && (if sub then r'.hl - carry == r.hl - v - c else r'.hl + carry == r.hl + v + c)
            && r'.f.z == (r'.hl == 0) && r'.f.s == (r'.hl >= 0x8000) && r'.f.n == sub
            && (r'.f.pv <==> !(-0x8000 <= exact < 0x8000))
  {
    var c: int := if r.f.c then 1 else 0;
    WordOf(r.hl + v + c);
    WordOf(r.hl - v - c);
    hide Bit, Word, Hi;
  }

  lemma WordOf(x: int)
    requires -0x10001 <= x <= 0x20000
    ensures -0x10000 <= x < 0x20000 ==>
              Word(x) == if x < 0 then x + 0x10000 else if x < 0x10000 then x else x - 0x10000
  {
  }

  lemma CarriedTurns(c: Core, k: Control, p: nat, sub: bool, at: word)
    requires k.prefix == 0 && p < 4
    ensures Turns(c, k, (if sub then 0x42 else 0x4A) + 0x10 * p, at,
                  c.(regs := CarriedTo(c.regs, HeldWord(c, p), sub)), 2)
  {
    var op := (if sub then 0x42 else 0x4A) + 0x10 * p;
    assert op / 0x40 == 1 && op / 8 % 8 == 2 * p + (if sub then 0 else 1) && op % 8 == 2;
    CarriedIgnores(c.regs, HeldWord(c, p), sub, Twice(c).regs.pc, Refresh(Refresh(c.regs.r)));
    hide Refresh, Word, Adc16, Sbc16;
  }

  lemma CarriedIgnores(r: Regs, v: word, sub: bool, pc: word, refreshed: byte)
    ensures CarriedTo(r.(pc := pc, r := refreshed), v, sub) == CarriedTo(r, v, sub).(pc := pc, r := refreshed)
  {
    hide Word, Bit, Hi;
  }

  /** LD (nn),rp and LD rp,(nn): low byte at nn, high byte behind it. */
  lemma MoveWord(s: State, p: nat, load: bool, nn: word)
    requires Quiet(s) && p < 4 && Code2(s, 0xED, (if load then 0x4B else 0x43) + 0x10 * p)
    requires s.core.mem[Word(PC(s) + 2)] == Lo(nn) && s.core.mem[Word(PC(s) + 3)] == Hi(nn)
    ensures Ends(s, After(s, 2), MovedWord(s.core, p, load, nn), 4)
  {
    hide Turns, Ends, After, Quiet, Code2, Word, Unwait, MovedWord, ED, Lo, Hi, ReadWord;
    OperandBehindED(s, nn);
    QuietPass(s);
    var op: byte := (if load then 0x4B else 0x43) + 0x10 * p;
    MoveWordTurns(s.core, Unwait(s).ctl, op, p, load, nn, Word(PC(s) + 1));
    EndsWith(s, op, MovedWord(s.core, p, load, nn), 4);
  }

  function MovedWord(c: Core, p: nat, load: bool, nn: word): Core
    requires p < 4
  {
    var w, behind, c1 := HeldWord(c, p), Word(nn + 1), c.(regs := c.regs.(wz := nn));
    if load then WithWord(c1, p, Pair(c.mem[behind], c.mem[nn]))
    else c1.(mem := c.mem[nn := w % 0x100][behind := w / 0x100])
  }

  lemma OperandBehindED(s: State, nn: word)
    requires s.core.mem[Word(PC(s) + 2)] == Lo(nn) && s.core.mem[Word(PC(s) + 3)] == Hi(nn)
    ensures ReadWord(s.core.mem, Word(Word(PC(s) + 1) + 1)) == nn
  {
    WordPlus(PC(s) + 1, 1);
    WordPlus(PC(s) + 2, 1);
    PairOf(nn);
    hide Word, Pair, Lo, Hi;
  }

  lemma MoveWordTurns(c: Core, k: Control, op: byte, p: nat, load: bool, nn: word, at: word)
    requires k.prefix == 0 && p < 4 && op == (if load then 0x4B else 0x43) + 0x10 * p
    requires nn == ReadWord(c.mem, Word(at + 1))
    ensures Turns(c, k, op, at, MovedWord(c, p, load, nn), 4)
  {
    hide ED, EDTarget, EDLength, EDControl, Refresh, Word, ReadWord, MovedWord;
    MoveWordTable(Twice(c), k, op, p, load, nn, at);
    MoveIgnores(c, Twice(c).regs.pc, Twice(c).regs.r, p, load, nn);
  }

  lemma MoveWordTable(c: Core, k: Control, op: byte, p: nat, load: bool, nn: word, at: word)
    requires k.prefix == 0 && p < 4 && op == (if load then 0x4B else 0x43) + 0x10 * p
    requires nn == ReadWord(c.mem, Word(at + 1))
    ensures ED(c, k.iff2, op, at) == MovedWord(c, p, load, nn)
    ensures EDTarget(c, k.iff2, op, at) == Stay && EDLength(op) == 3 && EDControl(k, op) == k
  {
    assert op / 0x40 == 1 && op / 8 % 8 == 2 * p + (if load then 1 else 0) && op % 8 == 3;
    ReadsAt(c.mem, nn);
    hide Word, ReadWord, Pair;
  }

  lemma MoveIgnores(c: Core, pc: word, refreshed: byte, p: nat, load: bool, nn: word)
    requires p < 4
    ensures var d, t := c.(regs := c.regs.(pc := pc, r := refreshed)), MovedWord(c, p, load, nn);
            MovedWord(d, p, load, nn) == t.(regs := t.regs.(pc := pc, r := refreshed))
  {
    hide Word, Pair;
  }

  // ----- digits

  function High(b: byte): nat { b / 0x10 }

  function Low(b: byte): nat { b % 0x10 }

  function Digits(high: nat, low: nat): byte
    requires high < 0x10 && low < 0x10
  {
    high * 0x10 + low
  }

  lemma DigitsApart(high: nat, low: nat, b: byte)
    requires high < 0x10 && low < 0x10
    ensures High(Digits(high, low)) == high && Low(Digits(high, low)) == low
    ensures High(b) < 0x10 && Low(b) < 0x10 && Digits(High(b), Low(b)) == b
  {
  }

  /** RLD and RRD turn three digits round: the low one of A and the two of the byte at HL. */
  function TurnedDigits(c: Core, left: bool): Core {
    var m, a := c.mem[c.regs.hl], c.regs.a;
    var a' := Digits(High(a), if left then High(m) else Low(m));
    var m' := if left then Digits(Low(m), Low(a)) else Digits(Low(a), High(m));
    c.(mem := c.mem[c.regs.hl := m'],
       regs := c.regs.(a := a', f := ResultFlags(a', false, EvenParity(a'), false, c.regs.f.c)))
  }

  lemma TurnDigits(s: State, left: bool)
    requires Quiet(s) && Code2(s, 0xED, if left then 0x6F else 0x67)
    ensures Ends(s, After(s, 2), TurnedDigits(s.core, left), 2)
  {
    QuietPass(s);
    var op: byte := if left then 0x6F else 0x67;
    hide Turns, Ends, After, Quiet, Code2, Word, Unwait, TurnedDigits, ED;
    TurnDigitsTurns(s.core, Unwait(s).ctl, op, left, Word(PC(s) + 1));
    EndsWith(s, op, TurnedDigits(s.core, left), 2);
  }

  lemma TurnDigitsTurns(c: Core, k: Control, op: byte, left: bool, at: word)
    requires k.prefix == 0 && op == if left then 0x6F else 0x67
    ensures Turns(c, k, op, at, TurnedDigits(c, left), 2)
  {
    hide ED, EDTarget, EDLength, EDControl, Refresh, Word, TurnedDigits;
    TurnDigitsED(Twice(c), k.iff2, op, left, at);
    StaysPut(Twice(c), k, op, at);
    TurnIgnores(c, Twice(c).regs.pc, Twice(c).regs.r, left);
  }

  lemma TurnIgnores(c: Core, pc: word, refreshed: byte, left: bool)
    ensures var d, t := c.(regs := c.regs.(pc := pc, r := refreshed)), TurnedDigits(c, left);
            TurnedDigits(d, left) == t.(regs := t.regs.(pc := pc, r := refreshed))
  {
    hide ResultFlags, EvenParity, High, Low, Digits;
  }

  lemma TurnDigitsED(c: Core, iff2: bool, op: byte, left: bool, at: word)
    requires op == if left then 0x6F else 0x67
    ensures ED(c, iff2, op, at) == TurnedDigits(c, left)
  {
    hide TurnedDigits, ED17;
    TurnDigitsRow(c, iff2, left);
    assert op / 0x40 == 1 && op / 8 % 8 == (if left then 5 else 4) && op % 8 == 7;
  }

  lemma TurnDigitsRow(c: Core, iff2: bool, left: bool)
    ensures ED17(c, iff2, if left then 5 else 4) == TurnedDigits(c, left)
  {
    if left { LeftRow(c, iff2); } else { RightRow(c, iff2); }
    hide ED17, TurnedDigits;
  }

  lemma LeftRow(c: Core, iff2: bool)
    ensures ED17(c, iff2, 5) == TurnedDigits(c, true)
  {
    hide NibbleRotate, ResultFlags, EvenParity, High, Low, Digits, ED17;
    var m, a := c.mem[c.regs.hl], c.regs.a;
    DigitsOf(m, a);
    HighDigit(a, 0);
    LeftRotates(c, iff2);
    NibbleIs(c, High(m), Digits(Low(m), Low(a)));
  }

  lemma LeftRotates(c: Core, iff2: bool)
    ensures var m, a := c.mem[c.regs.hl], c.regs.a;
            && High(m) < 0x10 && Low(m) < 0x10 && Low(a) < 0x10
            && ED17(c, iff2, 5) == NibbleRotate(c, High(m), Digits(Low(m), Low(a)))
  {
    hide NibbleRotate, High, Low, Digits;
    DigitsOf(c.mem[c.regs.hl], c.regs.a);
  }

  lemma RightRow(c: Core, iff2: bool)
    ensures ED17(c, iff2, 4) == TurnedDigits(c, false)
  {
    hide NibbleRotate, ResultFlags, EvenParity, High, Low, Digits, ED17;
    var m, a := c.mem[c.regs.hl], c.regs.a;
    DigitsOf(m, a);
    HighDigit(a, 0);
    RightRotates(c, iff2);
    NibbleIs(c, Low(m), Digits(Low(a), High(m)));
  }

  lemma RightRotates(c: Core, iff2: bool)
    ensures var m, a := c.mem[c.regs.hl], c.regs.a;
            && High(m) < 0x10 && Low(m) < 0x10 && Low(a) < 0x10
            && ED17(c, iff2, 4) == NibbleRotate(c, Low(m), Digits(Low(a), High(m)))
  {
    hide NibbleRotate, High, Low, Digits;
    DigitsOf(c.mem[c.regs.hl], c.regs.a);
  }

  lemma DigitsOf(m: byte, a: byte)
    ensures m / 0x10 == High(m) && m % 0x10 == Low(m) && High(m) < 0x10 && Low(m) < 0x10 && Low(a) < 0x10
    ensures 0x10 * (m % 0x10) + a % 0x10 == Digits(Low(m), Low(a))
    ensures m / 0x10 + 0x10 * (a % 0x10) == Digits(Low(a), High(m))
  {
  }

  lemma NibbleIs(c: Core, digit: nat, back: byte)
    requires digit < 0x10 && High(c.regs.a) < 0x10
    ensures var a := Digits(High(c.regs.a), digit);
            NibbleRotate(c, digit, back) == c.(mem := c.mem[c.regs.hl := back],
              regs := c.regs.(a := a, f := ResultFlags(a, false, EvenParity(a), false, c.regs.f.c)))
  {
    HighDigit(c.regs.a, digit);
    hide ResultFlags, EvenParity, High, Digits;
  }

  lemma HighDigit(a: byte, digit: nat)
    requires digit < 0x10
    ensures High(a) < 0x10 && 0x10 * (a / 0x10) + digit == Digits(High(a), digit)
  {
  }

  /** RRD undoes RLD, and three RLDs in a row undo each other: A and memory are as before. */
  lemma DigitsComeRound(c: Core)
    ensures var d := TurnedDigits(TurnedDigits(c, true), false); d.regs.a == c.regs.a && d.mem == c.mem
    ensures var t := TurnedDigits(TurnedDigits(TurnedDigits(c, true), true), true);
            t.regs.a == c.regs.a && t.mem == c.mem
  {
    var m, a := c.mem[c.regs.hl], c.regs.a;
    DigitsApart(High(a), High(m), a);
    DigitsApart(High(a), Low(m), m);
    DigitsApart(Low(m), Low(a), a);
    DigitsApart(Low(a), High(m), a);
    hide ResultFlags, EvenParity, High, Low, Digits;
    var one, two := TurnedDigits(c, true), TurnedDigits(TurnedDigits(c, true), true);
    assert one.regs.a == Digits(High(a), High(m)) && one.mem[c.regs.hl] == Digits(Low(m), Low(a));
    assert two.regs.a == Digits(High(a), Low(m)) && two.mem[c.regs.hl] == Digits(Low(a), High(m));
    assert TurnedDigits(one, false).mem == c.mem;
    assert TurnedDigits(two, true).mem == c.mem;
  }

  // ----- decimal sums

  /** ADC and DAA, or SBC and DAA, with any operand: on two-digit decimal numbers A and carry are
      together the exact sum or difference. */
  lemma DecimalProgram(s: State, sub: bool, form: Form)
    requires Does(s, if sub then 3 else 1, form) && s.core.mem[Behind(s, form)] == 0x27
    requires Arithmetic.Bcd(s.core.regs.a) && Arithmetic.Bcd(Source(s, form))
    ensures var r, r' := s.core.regs, After(s, 2).core.regs;
            var v, c, carry := Arithmetic.Decimal(Source(s, form)), Num(r.f.c), 100 * Num(r'.f.c);
            && Arithmetic.Bcd(r'.a) && After(s, 2).core.mem == s.core.mem
            && (if sub then Arithmetic.Decimal(r'.a) - carry == Arithmetic.Decimal(r.a) - v - c
                else Arithmetic.Decimal(r'.a) + carry == Arithmetic.Decimal(r.a) + v + c)
  {
    var y: nat := if sub then 3 else 1;
    var r, v := Ready(s), Source(s, form);
    hide Does, After, Quiet, Source, Behind, Refresh, Alu, Daa, Arithmetic.Bcd, Arithmetic.Decimal;
    if sub { Arithmetic.DecimalSubtract(r.f, r.a, v, r); } else { Arithmetic.DecimalAdd(r.f, r.a, v, r); }
    SumStep(s, y, form);
    AdjustStep(After(s, 1));
    RunsOn(s);
    DaaIgnoresPC(Alu(r, y, v), Behind(s, form));
  }

  lemma SumStep(s: State, y: nat, form: Form)
    requires Does(s, y, form)
    ensures var u := After(s, 1);
            && u.core == s.core.(regs := Alu(Ready(s), y, Source(s, form)).(pc := Behind(s, form)))
            && Quiet(u) && PC(u) == Behind(s, form)
  {
    AluStep(s, y, form);
    hide Does, After, Quiet, Source, Behind, Alu;
  }

  lemma RunsOn(s: State)
    ensures After(s, 2) == After(After(s, 1), 1)
  {
    OnePass(s);
    TwoPasses(s);
    OnePass(Pass(s));
    hide Pass, After;
  }

  lemma AdjustStep(u: State)
    requires Quiet(u) && Code(u, 0x27)
    ensures After(u, 1).core.mem == u.core.mem
    ensures After(u, 1).core.regs.a == Daa(u.core.regs).a && After(u, 1).core.regs.f == Daa(u.core.regs).f
  {
    hide Main, MainTarget, MainLength, MainTime, After, Spent, Quiet, Unwait, Daa, Word, Refresh;
    Shifts.AccumulatorTable(Fetched(u.core), 4, PC(u));
    DaaIs(Fetched(u.core).regs);
    DaaSame(u.core.regs, Fetched(u.core).regs.pc, Fetched(u.core).regs.r);
    PlainStep(u, 0x27);
  }

  lemma DaaIs(r: Regs)
    ensures Z80.Accumulator(r, 4) == Daa(r)
  {
    hide Daa;
  }

  lemma DaaSame(r: Regs, pc: word, refreshed: byte)
    ensures var d := Daa(r.(pc := pc, r := refreshed)); d.a == Daa(r).a && d.f == Daa(r).f
  {
    hide Bit, EvenParity, Byte;
  }

  lemma DaaIgnoresPC(r: Regs, pc: word)
    ensures Daa(r.(pc := pc)).a == Daa(r).a && Daa(r.(pc := pc)).f == Daa(r).f
  {
    DaaSame(r, pc, r.r);
    hide Daa;
  }

  // ----- I, R and interrupt modes

  /** LD I,A; LD R,A; LD A,I; LD A,R. The last two show IFF2 in PV, and S and Z of the value. */
  lemma SpecialLoads(s: State, y: nat)
    requires Quiet(s) && y < 4 && Code2(s, 0xED, 0x47 + 8 * y)
    ensures var r, u, twice := s.core.regs, After(s, 2), Refresh(Refresh(s.core.regs.r));
            && u == State(s.core.(regs := u.core.regs), Unwait(s).ctl) && PC(u) == Word(PC(s) + 2)
            && Moved(r, twice, s.ctl.iff2, y, u.core.regs)
  {
    WordPlus(PC(s) + 1, 1);
    QuietPass(s);
    var op: byte := 0x47 + 8 * y;
    hide After, Quiet, Word, Unwait, ED, EDTarget, EDLength, EDControl, Refresh, Code2, Moved, ED17;
    SpecialTable(Twice(s.core), Unwait(s).ctl, op, y, Word(PC(s) + 1));
    SpecialMoves(s.core, s.ctl.iff2, y, Word(PC(s) + 2));
    StraightED(s, op);
  }

  /** What the four leave of the registers `r`, R having been refreshed twice. */
  predicate Moved(r: Regs, twice: byte, iff2: bool, y: nat, r': Regs) {
    && (y == 0 ==> r' == r.(i := r.a, r := twice, pc := r'.pc))
    && (y == 1 ==> r' == r.(r := r.a, pc := r'.pc))
    && (y == 2 ==> r' == r.(a := r.i, f := r'.f, r := twice, pc := r'.pc))
    && (y == 3 ==> r' == r.(a := twice, f := r'.f, r := twice, pc := r'.pc))
    && (y >= 2 ==>
          && r'.f.pv == iff2 && r'.f.c == r.f.c && !r'.f.h && !r'.f.n
          && r'.f.z == (r'.a == 0) && r'.f.s == (r'.a >= 0x80))
  }

  lemma SpecialMoves(c: Core, iff2: bool, y: nat, pc: word)
    requires y < 4
    ensures var m := ED17(Twice(c), iff2, y);
            && m == c.(regs := m.regs)
            && Moved(c.regs, Refresh(Refresh(c.regs.r)), iff2, y, m.regs.(pc := pc))
  {
    hide Refresh, Word, Bit;
  }

  /** An ED-prefixed instruction of two bytes that does not jump. */
  lemma StraightED(s: State, op: byte)
    requires Quiet(s) && Code2(s, 0xED, op) && EDLength(op) == 1
    requires EDTarget(Twice(s.core), Unwait(s).ctl.iff2, op, Word(PC(s) + 1)) == Stay
    ensures var m := ED(Twice(s.core), Unwait(s).ctl.iff2, op, Word(PC(s) + 1));
            After(s, 2) == State(m.(regs := m.regs.(pc := Word(PC(s) + 2))), EDControl(Unwait(s).ctl, op))
  {
    WordPlus(PC(s) + 1, 1);
    hide After, Quiet, Word, Unwait, ED, EDTarget, EDLength, EDControl, EDTime, Fetched, Code2;
    EDStep(s, op);
  }

  lemma SpecialTable(c: Core, k: Control, op: byte, y: nat, at: word)
    requires y < 4 && k.prefix == 0 && op == 0x47 + 8 * y
    ensures EDTarget(c, k.iff2, op, at) == Stay && EDLength(op) == 1 && EDControl(k, op) == k
    ensures ED(c, k.iff2, op, at) == ED17(c, k.iff2, y)
  {
    assert op / 0x40 == 1 && op / 8 % 8 == y && op % 8 == 7;
    StaysPut(c, k, op, at);
    hide ED17;
  }

  /** IM 0, IM 1 and IM 2, whichever of their opcodes is used. */
  lemma SetsMode(s: State, y: nat)
    requires Quiet(s) && y < 8 && Code2(s, 0xED, 0x46 + 8 * y)
    ensures var u, twice := After(s, 2), Refresh(Refresh(s.core.regs.r));
            && u.ctl == Unwait(s).ctl.(im := if y % 4 == 2 then 1 else if y % 4 == 3 then 2 else 0)
            && u.core == s.core.(regs := s.core.regs.(r := twice, pc := Word(PC(s) + 2)))
  {
    QuietPass(s);
    var op: byte := 0x46 + 8 * y;
    hide After, Quiet, Word, Unwait, ED, EDTarget, EDLength, EDControl, Refresh, Code2;
    ModeTable(Twice(s.core), Unwait(s).ctl, op, y, Word(PC(s) + 1));
    StraightED(s, op);
  }

  lemma ModeTable(c: Core, k: Control, op: byte, y: nat, at: word)
    requires y < 8 && k.prefix == 0 && op == 0x46 + 8 * y
    ensures EDTarget(c, k.iff2, op, at) == Stay && EDLength(op) == 1 && ED(c, k.iff2, op, at) == c
    ensures EDControl(k, op) == k.(im := if y % 4 == 2 then 1 else if y % 4 == 3 then 2 else 0)
  {
    assert op / 0x40 == 1 && op / 8 % 8 == y && op % 8 == 6 && op / 8 % 4 == y % 4;
  }

  /** RETN and RETI return like RET, and change no interrupt flag. */
  lemma InterruptReturn(s: State, y: nat)
    requires Quiet(s) && y < 8 && Code2(s, 0xED, 0x45 + 8 * y)
    ensures var u, sp := After(s, 2), s.core.regs.sp;
            && u.ctl == Unwait(s).ctl
            && u.core == s.core.(regs := s.core.regs.(r := Refresh(Refresh(s.core.regs.r)), sp := Word(sp + 2),
                                                      pc := OnStack(s.core.mem, sp)))
  {
    QuietPass(s);
    hide After, Quiet, Word, Unwait, ED, EDTarget, EDLength, EDControl, EDTime, Refresh, Spent, OnStack;
    ReturnFromED(Twice(s.core), Unwait(s).ctl, y, Word(PC(s) + 1));
    EDStep(s, 0x45 + 8 * y);
  }

  lemma ReturnFromED(c: Core, k: Control, y: nat, at: word)
    requires y < 8 && k.prefix == 0
    ensures var op := 0x45 + 8 * y;
            && EDTarget(c, k.iff2, op, at) == Goto(OnStack(c.mem, c.regs.sp)) && EDControl(k, op) == k
            && ED(c, k.iff2, op, at) == c.(regs := c.regs.(sp := Word(c.regs.sp + 2)))
  {
    var op := 0x45 + 8 * y;
    assert op / 0x40 == 1 && op / 8 % 8 == y && op % 8 == 5;
    TopIsOnStack(c);
    hide Word, Top, OnStack;
  }
}
