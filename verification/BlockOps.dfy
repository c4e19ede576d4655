/** LDIR, LDDR, CPIR and CPDR run to completion. */
module BlockOps {
  import opened Bytes
  import opened Registers
  import opened Z80
  import opened Invariants
  import opened Runs
  import opened CpuInterrupts

  /** The address `k` steps on, upwards or downwards. */
  function Move(a: word, d: int, k: nat): word { if d == 1 then Word(a + k) else Word(a - k) }

  /** A counter of 0 stands for 65536. */
  function Count(bc: word): nat
    ensures 1 <= Count(bc) <= 0x10000
  {
    if bc == 0 then 0x10000 else bc
  }

  /** The second opcode byte: LDIR, LDDR for `z` 0, CPIR, CPDR for `z` 1. */
  function RepeatOp(d: int, z: nat): byte
    requires z < 2
  {
    (if d == 1 then 0xB0 else 0xB8) + z
  }

  /** Between instructions, no interrupt in the offing, at a repeating block instruction. */
  predicate Ready(s: State, d: int, z: nat)
    requires z < 2
  {
    && Inv(s) && s.ctl.prefix == 0 && !s.ctl.halted && !(s.ctl.iff2 && s.core.line)
    && (d == 1 || d == -1)
    && s.core.mem[PC(s)] == 0xED && s.core.mem[Word(PC(s) + 1)] == RepeatOp(d, z)
  }

  function Refreshes(r: byte, k: nat): byte { r / 0x80 * 0x80 + (r + k) % 0x80 }

  lemma RefreshTwice(r: byte)
    ensures Refresh(Refresh(r)) == Refreshes(r, 2)
  {
  }

  /** One round, two passes: the ED byte, then one step of the block. */
  lemma Round(s: State, d: int, z: nat)
    requires z < 2 && Ready(s, d, z)
    ensures var b := Block(s.core, d, z);
            var again := Repeats(b.regs, RepeatOp(d, z));
            && After(s, 2) == State(b.(regs := b.regs.(r := Refreshes(s.core.regs.r, 2),
                                    pc := if again then PC(s) else Word(PC(s) + 2))), Unwait(s).ctl)
            && Spent(s, 2) == if again then 21 else 16
  {
    hide Block, Pass, Cost, Inv, TargetOf, Time, Refresh, Refreshes;
    EDFetch(s);
    PassKeepsInv(s);
    var v := Pass(s);
    RefreshTwice(s.core.regs.r);
    Second(v, d, z);
    BlockKeepsPcAndR(s.core, Word(PC(v) + 1), Refresh(v.core.regs.r), d, z);
    assert After(s, 2) == After(v, 1) == After(Pass(v), 0);
    assert Spent(s, 2) == Cost(s) + Spent(v, 1) == Cost(s) + (Cost(v) + Spent(Pass(v), 0));
  }

  lemma Second(v: State, d: int, z: nat)
    requires z < 2 && Inv(v) && v.ctl.prefix == 0xED00 && v.core.mem[PC(v)] == RepeatOp(d, z)
    requires d == 1 || d == -1
    ensures var b := Block(Fetched(v.core), d, z);
            var again := Repeats(b.regs, RepeatOp(d, z));
            && Pass(v) == State(b.(regs := b.regs.(pc := if again then Word(PC(v) - 1) else Word(PC(v) + 1))),
                                v.ctl.(prefix := 0))
            && Cost(v) == if again then 17 else 12
  {
    hide Block;
    PrefixedPass(v);
  }

  /** The step reads neither PC nor R. */
  lemma BlockKeepsPcAndR(c: Core, pc: word, r: byte, d: int, z: nat)
    requires z < 2
    ensures var c1 := c.(regs := c.regs.(pc := pc, r := r));
            Block(c1, d, z) == Block(c, d, z).(regs := Block(c, d, z).regs.(pc := pc, r := r))
  {
  }

  // ----- LDIR and LDDR

  /** `k` sequential byte copies. */
  function Copied(m: Memory, from: word, to: word, d: int, k: nat): Memory {
    if k == 0 then m
    else
      var p := Copied(m, from, to, d, k - 1);
      p[Move(to, d, k - 1) := p[Move(from, d, k - 1)]]
  }

  /** What `k` copies leave in registers and memory. */
  function Copies(c: Core, d: int, k: nat): Core {
    if k == 0 then c else CopyOnce(Copies(c, d, k - 1), d)
  }

  /** The undocumented bits after a block copy: bits 1 and 3 of A plus the byte moved. */
  predicate Undocumented(f: Flags, sum: byte) { f.f5 == Bit(sum, 1) && f.f3 == Bit(sum, 3) }

  lemma {:induction false} CopiesForm(c: Core, d: int, k: nat)
    requires d == 1 || d == -1
    ensures var r, r' := c.regs, Copies(c, d, k).regs;
            && Copies(c, d, k) == c.(mem := Copied(c.mem, r.hl, r.de, d, k), regs := r')
            && r' == r.(hl := Move(r.hl, d, k), de := Move(r.de, d, k), bc := Word(r.bc - k), f := r'.f)
            && (k > 0 ==> r'.f.s == r.f.s && r'.f.z == r.f.z && r'.f.c == r.f.c
                          && !r'.f.h && !r'.f.n && r'.f.pv == (r'.bc != 0)
                          && Undocumented(r'.f, Byte(r.a + Copied(c.mem, r.hl, r.de, d, k)[Move(r.de, d, k - 1)])))
  {
    hide Word, Move, CopyRegs, Undocumented, Byte;
    if k > 0 {
      CopiesForm(c, d, k - 1);
      var p := Copies(c, d, k - 1);
      CopyRegsForm(p.regs, p.mem[p.regs.hl], d);
      MoveOnce(c.regs.hl, d, k - 1);
      MoveOnce(c.regs.de, d, k - 1);
      MoveOnce(c.regs.bc, -1, k - 1);
      MoveDown(c.regs.bc, k - 1);
      MoveDown(c.regs.bc, k);
    } else {
      MoveNone(c.regs.hl, d);
      MoveNone(c.regs.de, d);
      MoveNone(c.regs.bc, -1);
      MoveDown(c.regs.bc, k);
    }
  }

  lemma CopyRegsForm(r: Regs, v: byte, d: int)
    ensures var r' := CopyRegs(r, v, d);
            && r' == r.(hl := Word(r.hl + d), de := Word(r.de + d), bc := Word(r.bc - 1), f := r'.f)
            && r'.f.s == r.f.s && r'.f.z == r.f.z && r'.f.c == r.f.c
            && !r'.f.h && !r'.f.n && r'.f.pv == (r'.bc != 0) && Undocumented(r'.f, Byte(r.a + v))
  {
  }

  lemma MoveDown(a: word, k: nat)
    ensures Move(a, -1, k) == Word(a - k)
  {
  }

  lemma MoveNone(a: word, d: int)
    ensures Move(a, d, 0) == a
  {
  }

  lemma MoveOnce(a: word, d: int, k: nat)
    requires d == 1 || d == -1
    ensures Word(Move(a, d, k) + d) == Move(a, d, k + 1)
  {
    hide Word;
    WordPlus(a + k, 1);
    WordPlus(a - k, -1);
  }

  /** The instruction's own two bytes still read as they did after each copy but the last. */
  predicate Intact(s: State, d: int, n: nat) {
    forall k: nat :: k < n ==>
      var m := Copied(s.core.mem, s.core.regs.hl, s.core.regs.de, d, k);
      m[PC(s)] == s.core.mem[PC(s)] && m[Word(PC(s) + 1)] == s.core.mem[Word(PC(s) + 1)]
  }

  /** After `k` rounds. */
  function Midway(s: State, d: int, k: nat, pc: word): State {
    var c := Copies(s.core, d, k);
    State(c.(regs := c.regs.(r := Refreshes(s.core.regs.r, 2 * k), pc := pc)), if k == 0 then s.ctl else Unwait(s).ctl)
  }

  lemma MidwayReady(s: State, d: int, n: nat, k: nat)
    requires Ready(s, d, 0) && Intact(s, d, n) && k < n
    ensures var u := Midway(s, d, k, PC(s));
            Ready(u, d, 0) && PC(u) == PC(s) && Unwait(u).ctl == Unwait(s).ctl && (d == 1 || d == -1)
  {
    CopiesForm(s.core, d, k);
    hide CopyOnce, Move, Copies;
  }

  /** The round after `k` others. */
  lemma OneMore(s: State, d: int, n: nat, k: nat)
    requires Ready(s, d, 0) && n == Count(s.core.regs.bc) && Intact(s, d, n) && k < n
    ensures var u := Midway(s, d, k, PC(s));
            && After(u, 2) == Midway(s, d, k + 1, if k + 1 < n then PC(s) else Word(PC(s) + 2))
            && Spent(u, 2) == if k + 1 < n then 21 else 16
  {
    hide Pass, Cost, CopyOnce, After, Spent, Move, Ready, Intact;
    var u := Midway(s, d, k, PC(s));
    MidwayReady(s, d, n, k);
    Round(u, d, 0);
    var c := Copies(s.core, d, k);
    BlockKeepsPcAndR(c, PC(s), Refreshes(s.core.regs.r, 2 * k), d, 0);
    RefreshesAdd(s.core.regs.r, 2 * k, 2);
    CopiesForm(s.core, d, k + 1);
    CopiesRepeat(s, d, n, k + 1);
  }

  lemma RefreshesAdd(r: byte, j: nat, k: nat)
    ensures Refreshes(Refreshes(r, j), k) == Refreshes(r, j + k)
  {
  }

  lemma CopiesRepeat(s: State, d: int, n: nat, k: nat)
    requires (d == 1 || d == -1) && n == Count(s.core.regs.bc) && 0 < k <= n
    ensures Repeats(Copies(s.core, d, k).regs, RepeatOp(d, 0)) <==> k < n
  {
    hide Copies, Copied, Move, Repeats, RepeatOp;
    CopiesForm(s.core, d, k);
    RepeatsLdir(Copies(s.core, d, k).regs, d);
  }

  lemma RepeatsLdir(r: Regs, d: int)
    requires d == 1 || d == -1
    ensures Repeats(r, RepeatOp(d, 0)) <==> r.bc != 0
    ensures Repeats(r, RepeatOp(d, 1)) <==> r.bc != 0 && !r.f.z
  {
  }

  lemma {:induction false} Rounds(s: State, d: int, n: nat, k: nat)
    requires Ready(s, d, 0) && n == Count(s.core.regs.bc) && Intact(s, d, n) && k < n
    ensures After(s, 2 * k) == Midway(s, d, k, PC(s)) && Spent(s, 2 * k) == 21 * k
    decreases k
  {
    hide Pass, Cost, Copies, Intact, Ready;
    if k > 0 {
      Rounds(s, d, n, k - 1);
      OneMore(s, d, n, k - 1);
      AfterAdd(s, 2 * (k - 1), 2);
      assert 2 * k == 2 * (k - 1) + 2;
    } else {
      MidwayNone(s, d);
    }
  }

  lemma MidwayNone(s: State, d: int)
    ensures Midway(s, d, 0, PC(s)) == s
  {
  }

  /** LDIR and LDDR run to completion: `n` byte copies one after the other, in 21n - 5 cycles,
      so that a call of `cpu_execute` with exactly that budget returns 0. Registers, memory,
      devices and control state other than those named are as before. */
  lemma LdirRun(s: State, d: int)
    requires Ready(s, d, 0) && Intact(s, d, Count(s.core.regs.bc))
    ensures var n := Count(s.core.regs.bc);
            var r, u := s.core.regs, After(s, 2 * n);
            var m := Copied(s.core.mem, r.hl, r.de, d, n);
            && u.core == s.core.(mem := m, regs := u.core.regs)
            && u.ctl == Unwait(s).ctl
            && u.core.regs == r.(bc := 0, hl := Move(r.hl, d, n), de := Move(r.de, d, n), pc := Word(r.pc + 2),
                                 r := Refreshes(r.r, 2 * n), f := u.core.regs.f)
            && u.core.regs.f == r.f.(pv := false, h := false, n := false,
                               f5 := u.core.regs.f.f5, f3 := u.core.regs.f.f3)
            && Undocumented(u.core.regs.f, Byte(r.a + m[Move(r.de, d, n - 1)]))
            && Spent(s, 2 * n) == 21 * n - 5 && Exits(s, 21 * n - 5, 2 * n)
  {
    hide Pass, Cost, Copies, Intact, Ready, Move, Copied, Refreshes, Unwait, Inv, Undocumented, Byte, Exits;
    var n := Count(s.core.regs.bc);
    Rounds(s, d, n, n - 1);
    OneMore(s, d, n, n - 1);
    AfterAdd(s, 2 * (n - 1), 2);
    assert 2 * n == 2 * (n - 1) + 2;
    FromReady(s, d, 0);
    CopiesForm(s.core, d, n);
    ExactBudget(s, 2 * n);
  }

  lemma FromReady(s: State, d: int, z: nat)
    requires z < 2 && Ready(s, d, z)
    ensures (d == 1 || d == -1) && Inv(s) && Unwait(s).ctl.prefix == 0
  {
  }

  /** With exactly that budget, `cpu_execute` returns 0 right after the instruction. */
  lemma ExactBudget(s: State, k: nat)
    requires Inv(s) && After(s, k).ctl.prefix == 0
    ensures Exits(s, Spent(s, k), k)
  {
    hide Pass, Cost, Inv;
    forall m: nat | m < k
      ensures !Done(s, Spent(s, k), m)
    {
      AfterAdd(s, m, k - m);
      RunKeepsInv(s, m);
      SpentGrows(After(s, m), k - m);
    }
  }

  // ----- what sequential copying amounts to

  /** How far the destination lies ahead of the source, in the direction of copying. */
  function Lead(from: word, to: word, d: int): word { if d == 1 then Word(to - from) else Word(from - to) }

  /** Copying onto a destination `lead` bytes ahead repeats the first `lead` bytes. */
  function Origin(lead: word, i: nat): nat {
    if lead == 0 || i < lead then i else Origin(lead, i - lead)
  }

  lemma OriginOfOne(i: nat)
    ensures Origin(1, i) == 0
  {
  }

  lemma MoveApart(a: word, d: int, i: nat, j: nat)
    requires (d == 1 || d == -1) && i < j < 0x10000
    ensures Move(a, d, i) != Move(a, d, j)
  {
  }

  lemma MoveMeets(from: word, to: word, d: int, i: nat, j: nat)
    requires (d == 1 || d == -1) && i < 0x10000 && j < 0x10000
    ensures Move(from, d, i) == Move(to, d, j) <==> i == Lead(from, to, d) + j || i + 0x10000 == Lead(from, to, d) + j
  {
    hide Word;
    Wrapped(from + i); Wrapped(to + j); Wrapped(to - from);
    Wrapped(from - i); Wrapped(to - j); Wrapped(from - to);
  }

  lemma Wrapped(x: int)
    ensures -0x10000 <= x < 0 ==> Word(x) == x + 0x10000
    ensures 0 <= x < 0x10000 ==> Word(x) == x
    ensures 0x10000 <= x < 0x20000 ==> Word(x) == x - 0x10000
  {
  }

  /** The exact result of `n` sequential copies, wrap-around included: the destination holds the
      source repeated with period `Lead`, and nothing else changes. */
  lemma {:induction false} CopiedBytes(m: Memory, from: word, to: word, d: int, n: nat)
    requires (d == 1 || d == -1) && n <= 0x10000
    ensures var m' := Copied(m, from, to, d, n);
            && (forall i: nat :: i < n ==> m'[Move(to, d, i)] == m[Move(from, d, Origin(Lead(from, to, d), i))])
            && (forall a: word :: (forall i: nat :: i < n ==> a != Move(to, d, i)) ==> m'[a] == m[a])
  {
    hide Move, Lead, Origin;
    if n > 0 {
      CopiedBytes(m, from, to, d, n - 1);
      var p := Copied(m, from, to, d, n - 1);
      var i, lead := n - 1, Lead(from, to, d);
      NextByte(m, p, from, to, d, i);
      forall j: nat | j < i ensures Move(to, d, j) != Move(to, d, i) { MoveApart(to, d, j, i); }
    }
  }

  /** The byte that copy `i` reads. */
  lemma NextByte(m: Memory, p: Memory, from: word, to: word, d: int, i: nat)
    requires (d == 1 || d == -1) && i < 0x10000
    requires forall j: nat :: j < i ==> p[Move(to, d, j)] == m[Move(from, d, Origin(Lead(from, to, d), j))]
    requires forall a: word :: (forall j: nat :: j < i ==> a != Move(to, d, j)) ==> p[a] == m[a]
    ensures p[Move(from, d, i)] == m[Move(from, d, Origin(Lead(from, to, d), i))]
  {
    hide Move, Lead;
    var lead := Lead(from, to, d);
    if lead != 0 && lead <= i {
      MoveMeets(from, to, d, i, i - lead);
      assert p[Move(to, d, i - lead)] == m[Move(from, d, Origin(lead, i - lead))];
    } else {
      forall j: nat | j < i ensures Move(from, d, i) != Move(to, d, j) { MoveMeets(from, to, d, i, j); }
    }
  }

  /** The destination in `m'` holds what the source held in `m`. */
  predicate Moved(m: Memory, m': Memory, from: word, to: word, d: int, n: nat) {
    forall i: nat :: i < n ==> m'[Move(to, d, i)] == m[Move(from, d, i)]
  }

  /** The source repeats its first `lead` bytes. */
  predicate Periodic(m: Memory, from: word, d: int, lead: word, n: nat) {
    forall i: nat :: i < n ==> m[Move(from, d, i)] == m[Move(from, d, Origin(lead, i))]
  }

  /** LDIR moves a block correctly exactly when the source has period `Lead`. That is always so
      when the destination does not start inside the source (for LDDR: end inside it). */
  lemma IsMove(m: Memory, from: word, to: word, d: int, n: nat)
    requires (d == 1 || d == -1) && n <= 0x10000
    ensures Moved(m, Copied(m, from, to, d, n), from, to, d, n) <==> Periodic(m, from, d, Lead(from, to, d), n)
    ensures Lead(from, to, d) == 0 || Lead(from, to, d) >= n ==> Periodic(m, from, d, Lead(from, to, d), n)
  {
    hide Copied, Lead, Move;
    CopiedBytes(m, from, to, d, n);
    var m' := Copied(m, from, to, d, n);
    var lead := Lead(from, to, d);
    if Moved(m, m', from, to, d, n) {
      forall i: nat | i < n ensures m[Move(from, d, i)] == m[Move(from, d, Origin(lead, i))] {
        assert m'[Move(to, d, i)] == m[Move(from, d, Origin(lead, i))];
      }
    }
  }

  /** With the destination one byte ahead of the source, the first byte fills the block. */
  lemma IsFill(m: Memory, from: word, to: word, d: int, n: nat)
    requires (d == 1 || d == -1) && n <= 0x10000 && Lead(from, to, d) == 1
    ensures forall i: nat :: i < n ==> Copied(m, from, to, d, n)[Move(to, d, i)] == m[from]
  {
    hide Copied, Lead, Move;
    CopiedBytes(m, from, to, d, n);
    MoveNone(from, d);
    forall i: nat | i < n ensures Copied(m, from, to, d, n)[Move(to, d, i)] == m[from] { OriginOfOne(i); }
  }

  /** A destination that misses the instruction's own two bytes leaves them intact. */
  lemma MissesItself(s: State, d: int, n: nat)
    requires (d == 1 || d == -1) && n <= 0x10000
    requires forall i: nat :: i + 1 < n ==>
             Move(s.core.regs.de, d, i) != PC(s) && Move(s.core.regs.de, d, i) != Word(PC(s) + 1)
    ensures Intact(s, d, n)
  {
    hide Copied, Move;
    forall k: nat | k < n
      ensures var m := Copied(s.core.mem, s.core.regs.hl, s.core.regs.de, d, k);
              m[PC(s)] == s.core.mem[PC(s)] && m[Word(PC(s) + 1)] == s.core.mem[Word(PC(s) + 1)]
    {
      CopiedBytes(s.core.mem, s.core.regs.hl, s.core.regs.de, d, k);
    }
  }

  // ----- CPIR and CPDR

  function Compares(r: Regs, m: Memory, d: int, k: nat): Regs {
    if k == 0 then r
    else
      var p := Compares(r, m, d, k - 1);
      CompareOnce(p, m[p.hl], d)
  }

  /** Where the last of `k` comparisons starts from. */
  function BeforeLast(r: Regs, d: int, k: nat): Regs
    requires k > 0
  {
    r.(hl := Move(r.hl, d, k - 1), bc := Word(r.bc - (k - 1)))
  }

  /** Only the last comparison shows: carry aside, its flags depend on nothing earlier. */
  lemma {:induction false} ComparesForm(r: Regs, m: Memory, d: int, k: nat)
    requires (d == 1 || d == -1) && k > 0
    ensures Compares(r, m, d, k) == CompareOnce(BeforeLast(r, d, k), m[Move(r.hl, d, k - 1)], d)
    ensures var r' := Compares(r, m, d, k);
            && r' == r.(hl := Move(r.hl, d, k), bc := Word(r.bc - k), f := r'.f)
            && r'.f.c == r.f.c && r'.f.n && r'.f.pv == (r'.bc != 0)
            && r'.f.z == (m[Move(r.hl, d, k - 1)] == r.a)
  {
    hide Word, Move;
    MoveOnce(r.hl, d, k - 1);
    MoveOnce(r.bc, -1, k - 1);
    MoveDown(r.bc, k - 1);
    MoveDown(r.bc, k);
    if k > 1 {
      ComparesForm(r, m, d, k - 1);
      CompareForgets(Compares(r, m, d, k - 1), BeforeLast(r, d, k), m[Move(r.hl, d, k - 1)], d);
    } else {
      MoveNone(r.hl, d);
      MoveNone(r.bc, -1);
    }
    CompareForm(BeforeLast(r, d, k), m[Move(r.hl, d, k - 1)], d);
    hide CompareOnce;
  }

  lemma CompareForgets(p: Regs, r: Regs, v: byte, d: int)
    requires p == r.(f := p.f) && p.f.c == r.f.c
    ensures CompareOnce(p, v, d) == CompareOnce(r, v, d)
  {
  }

  lemma CompareForm(r: Regs, v: byte, d: int)
    ensures var r' := CompareOnce(r, v, d);
            && r' == r.(hl := Word(r.hl + d), bc := Word(r.bc - 1), f := r'.f)
            && r'.f.c == r.f.c && r'.f.n && r'.f.pv == (r'.bc != 0) && r'.f.z == (v == r.a)
  {
  }

  /** None of the first `k` bytes is `a`. */
  predicate Misses(m: Memory, a: byte, from: word, d: int, k: nat) {
    forall i: nat :: i < k ==> m[Move(from, d, i)] != a
  }

  /** The number of bytes examined: up to and including the first match, or all of them. */
  function Examined(m: Memory, a: byte, from: word, d: int, n: nat, k: nat): (e: nat)
    requires k < n && Misses(m, a, from, d, k)
    ensures k < e <= n && Misses(m, a, from, d, e - 1)
    ensures e < n ==> m[Move(from, d, e - 1)] == a
    decreases n - k
  {
    if m[Move(from, d, k)] == a || k + 1 == n then k + 1 else Examined(m, a, from, d, n, k + 1)
  }

  function Searching(s: State, d: int, k: nat, pc: word): State {
    var r := Compares(s.core.regs, s.core.mem, d, k);
    State(s.core.(regs := r.(r := Refreshes(s.core.regs.r, 2 * k), pc := pc)), if k == 0 then s.ctl else Unwait(s).ctl)
  }

  lemma NextCompare(s: State, d: int, n: nat, k: nat)
    requires Ready(s, d, 1) && n == Count(s.core.regs.bc) && k < n
    requires Misses(s.core.mem, s.core.regs.a, s.core.regs.hl, d, k)
    ensures var u := Searching(s, d, k, PC(s));
            var again := k + 1 < n && s.core.mem[Move(s.core.regs.hl, d, k)] != s.core.regs.a;
            && After(u, 2) == Searching(s, d, k + 1, if again then PC(s) else Word(PC(s) + 2))
            && Spent(u, 2) == if again then 21 else 16
  {
    hide Pass, Cost, CompareOnce, After, Spent, Move, Misses, Refreshes;
    var u := Searching(s, d, k, PC(s));
    FromReady(s, d, 1);
    SearchingForm(s, d, k);
    assert Ready(u, d, 1);
    Round(u, d, 1);
    CompareKeepsPcAndR(Compares(s.core.regs, s.core.mem, d, k), PC(s), Refreshes(s.core.regs.r, 2 * k),
                       s.core.mem[u.core.regs.hl], d);
    RefreshesAdd(s.core.regs.r, 2 * k, 2);
    ComparesForm(s.core.regs, s.core.mem, d, k + 1);
    RepeatsLdir(Compares(s.core.regs, s.core.mem, d, k + 1), d);
    hide Repeats, RepeatOp, Ready;
  }

  lemma CompareKeepsPcAndR(r: Regs, pc: word, i: byte, v: byte, d: int)
    ensures CompareOnce(r.(pc := pc, r := i), v, d) == CompareOnce(r, v, d).(pc := pc, r := i)
  {
  }

  lemma SearchingForm(s: State, d: int, k: nat)
    requires d == 1 || d == -1
    ensures var u := Searching(s, d, k, PC(s));
            u.core == s.core.(regs := u.core.regs) && u.core.regs.hl == Move(s.core.regs.hl, d, k) && PC(u) == PC(s)
    ensures Inv(s) && s.ctl.prefix == 0 && !s.ctl.halted ==>
              Inv(Searching(s, d, k, PC(s))) && Searching(s, d, k, PC(s)).ctl.prefix == 0
              && Searching(s, d, k, PC(s)).ctl.iff2 == s.ctl.iff2 && !Searching(s, d, k, PC(s)).ctl.halted
    ensures k == 0 ==> Searching(s, d, k, PC(s)) == s
    ensures Unwait(Searching(s, d, k, PC(s))).ctl == Unwait(s).ctl
  {
    hide Word, CompareOnce;
    if k > 0 { ComparesForm(s.core.regs, s.core.mem, d, k); } else { MoveNone(s.core.regs.hl, d); }
  }

  lemma {:induction false} CompareRounds(s: State, d: int, n: nat, k: nat)
    requires Ready(s, d, 1) && n == Count(s.core.regs.bc) && k < n
    requires Misses(s.core.mem, s.core.regs.a, s.core.regs.hl, d, k)
    ensures After(s, 2 * k) == Searching(s, d, k, PC(s)) && Spent(s, 2 * k) == 21 * k
    decreases k
  {
    hide Pass, Cost, Searching, Ready;
    if k > 0 {
      CompareRounds(s, d, n, k - 1);
      NextCompare(s, d, n, k - 1);
      AfterAdd(s, 2 * (k - 1), 2);
      assert 2 * k == 2 * (k - 1) + 2;
    } else {
      FromReady(s, d, 1);
      SearchingForm(s, d, 0);
    }
  }

  /** CPIR and CPDR run to completion: they stop at the first byte equal to A, or after BC bytes.
      HL is one past the last byte examined, BC counts what is left, Z tells whether it matched;
      memory, carry and everything else stay, and examining `k` bytes costs 21k - 5 cycles. */
  lemma CpirRun(s: State, d: int)
    requires Ready(s, d, 1)
    ensures var r := s.core.regs;
            var k := Examined(s.core.mem, r.a, r.hl, d, Count(r.bc), 0);
            var u := After(s, 2 * k);
            && u.ctl == Unwait(s).ctl
            && u.core == s.core.(regs := u.core.regs)
            && u.core.regs == r.(hl := Move(r.hl, d, k), bc := Word(r.bc - k), pc := Word(r.pc + 2),
                                 r := Refreshes(r.r, 2 * k), f := u.core.regs.f)
            && u.core.regs.f.z == (s.core.mem[Move(r.hl, d, k - 1)] == r.a)
            && (u.core.regs.f.z <==> !Misses(s.core.mem, r.a, r.hl, d, Count(r.bc)))
            && u.core.regs.f.pv == (u.core.regs.bc != 0) && u.core.regs.f.c == r.f.c && u.core.regs.f.n
            && Spent(s, 2 * k) == 21 * k - 5 && Exits(s, 21 * k - 5, 2 * k)
  {
    hide Pass, Cost, Searching, Ready, Move, Refreshes, Unwait, Inv, Exits, Compares, Examined;
    var r := s.core.regs;
    var n := Count(r.bc);
    var k := Examined(s.core.mem, r.a, r.hl, d, n, 0);
    CompareRounds(s, d, n, k - 1);
    NextCompare(s, d, n, k - 1);
    AfterAdd(s, 2 * (k - 1), 2);
    assert 2 * k == 2 * (k - 1) + 2;
    FromReady(s, d, 1);
    SearchEnd(s, d, k);
    Found(s.core.mem, r.a, r.hl, d, n);
    ExactBudget(s, 2 * k);
  }

  lemma SearchEnd(s: State, d: int, k: nat)
    requires (d == 1 || d == -1) && k > 0
    ensures var r, u := s.core.regs, Searching(s, d, k, Word(PC(s) + 2));
            && u.ctl == Unwait(s).ctl
            && u.core == s.core.(regs := u.core.regs)
            && u.core.regs == r.(hl := Move(r.hl, d, k), bc := Word(r.bc - k), pc := Word(r.pc + 2),
                                 r := Refreshes(r.r, 2 * k), f := u.core.regs.f)
            && u.core.regs.f.z == (s.core.mem[Move(r.hl, d, k - 1)] == r.a)
            && u.core.regs.f.pv == (u.core.regs.bc != 0) && u.core.regs.f.c == r.f.c && u.core.regs.f.n
  {
    ComparesForm(s.core.regs, s.core.mem, d, k);
    hide Compares, Move, Refreshes, Word, CompareOnce;
  }

  /** The last byte examined matches exactly when some byte within reach does. */
  lemma Found(m: Memory, a: byte, from: word, d: int, n: nat)
    requires n > 0
    ensures var e := Examined(m, a, from, d, n, 0);
            m[Move(from, d, e - 1)] == a <==> !Misses(m, a, from, d, n)
  {
    hide Move;
  }
}
