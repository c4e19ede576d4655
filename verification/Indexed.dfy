/** Under DD or FD an operand at HL is a byte near IX or IY instead: what such an instruction does
    there is what the plain one does at HL. */
module Indexed {
  import opened Bytes
  import opened Operands
  import opened Registers
  import opened Z80
  import opened Invariants
  import opened Runs
  import opened Steps

  /** Near the index register, by the signed byte at `d`. */
  function Near(c: Core, x: Index, d: word): word
    requires x != HL
  {
    Word((if x == IX then c.regs.ix else c.regs.iy) + Signed8(c.mem[d]))
  }

  /** The same, with HL (and WZ, which shows in the undocumented flags) aimed at `a`. */
  function Aimed(c: Core, a: word): Core { c.(regs := c.regs.(hl := a, wz := a)) }

  /** INC (HL), DEC (HL) and the ALU operations on (HL). */
  predicate Works(op: byte) { op == 0x34 || op == 0x35 || (0x80 <= op < 0xC0 && op % 8 == 6) }

  /** They work on the indexed byte as they would on the one at HL, and HL stays. */
  lemma WorksNear(c: Core, x: Index, op: byte, at: word)
    requires x != HL && Works(op)
    ensures var m := Main(Aimed(c, Near(c, x, Word(at + 1))), HL, op, at);
            Main(c, x, op, at) == m.(regs := m.regs.(hl := c.regs.hl))
    ensures MainTarget(c, x, op, at) == Stay && MainLength(x, op) == 2 && MainLength(HL, op) == 1 && Plain(op)
  {
    hide Main, MainTarget, MainLength, Word, Near;
    if op >= 0x80 { AluNear(c, x, op, at); } else { CountNear(c, x, op, at); }
  }

  lemma AluNear(c: Core, x: Index, op: byte, at: word)
    requires x != HL && 0x80 <= op < 0xC0 && op % 8 == 6
    ensures var m := Main(Aimed(c, Near(c, x, Word(at + 1))), HL, op, at);
            Main(c, x, op, at) == m.(regs := m.regs.(hl := c.regs.hl))
    ensures MainTarget(c, x, op, at) == Stay && MainLength(x, op) == 2 && MainLength(HL, op) == 1 && Plain(op)
  {
    var a := Near(c, x, Word(at + 1));
    var y := op / 8 % 8;
    assert op / 0x40 == 2;
    AluAimed(c.regs, y, c.mem[a], a);
    hide Alu, Word, Signed8, Main0, Main1, Main3, Target3;
  }

  lemma CountNear(c: Core, x: Index, op: byte, at: word)
    requires x != HL && 0x34 <= op <= 0x35
    ensures var m := Main(Aimed(c, Near(c, x, Word(at + 1))), HL, op, at);
            Main(c, x, op, at) == m.(regs := m.regs.(hl := c.regs.hl))
    ensures MainTarget(c, x, op, at) == Stay && MainLength(x, op) == 2 && MainLength(HL, op) == 1 && Plain(op)
  {
    CountIs(c, x, op, at);
    CountIs(Aimed(c, Near(c, x, Word(at + 1))), HL, op, at);
    hide Stepped, IncDecFlags, Word, Signed8, Main, MainTarget, MainLength, Plain;
  }

  lemma CountIs(c: Core, x: Index, op: byte, at: word)
    requires 0x34 <= op <= 0x35
    ensures Main(c, x, op, at) == IncDec(c, x, 6, op == 0x34, at) && MainTarget(c, x, op, at) == Stay
    ensures MainLength(x, op) == (if x == HL then 1 else 2) && Plain(op)
  {
    assert op / 0x40 == 0 && op / 8 % 8 == 6 && op % 8 == op - 0x30;
    hide IncDec;
  }

  lemma AluAimed(r: Regs, y: nat, v: byte, a: word)
    requires y < 8
    ensures Alu(r.(hl := a, wz := a), y, v) == Alu(r.(wz := a), y, v).(hl := a)
    ensures Alu(r.(wz := a), y, v).hl == r.hl
  {
    hide SumFlags, DifferenceFlags, ResultFlags, And8, Or8, Xor8;
  }

  /** LD r,(IX+d) and LD (IX+d),r: here H and L are H and L, not halves of the index register. */
  lemma LoadsNear(c: Core, x: Index, y: nat, at: word)
    requires x != HL && y < 8 && y != 6
    ensures var a := Near(c, x, Word(at + 1));
            var c1 := c.(regs := c.regs.(wz := a));
            && Main(c, x, 0x46 + 8 * y, at) == With(c1, y, c.mem[a])
            && Main(c, x, 0x70 + y, at) == c1.(mem := c.mem[a := Held(c, y)])
    ensures MainTarget(c, x, 0x46 + 8 * y, at) == Stay && MainTarget(c, x, 0x70 + y, at) == Stay
    ensures MainLength(x, 0x46 + 8 * y) == 2 && MainLength(x, 0x70 + y) == 2
  {
    LoadParts(y);
    hide Word, Signed8, Get8, Set8;
    GetIsHeld(c, x, y, Near(c, x, Word(at + 1)));
  }

  lemma LoadParts(y: nat)
    requires y < 8
    ensures (0x46 + 8 * y) / 0x40 == 1 && (0x46 + 8 * y) / 8 % 8 == y && (0x46 + 8 * y) % 8 == 6
    ensures (0x70 + y) / 0x40 == 1 && (0x70 + y) / 8 % 8 == 6 && (0x70 + y) % 8 == y
  {
  }

  lemma GetIsHeld(c: Core, x: Index, y: nat, a: word)
    requires y < 8 && y != 6
    ensures Get8(c.regs, HL, y) == Held(c, y)
  {
  }

  /** LD (IX+d),n has its displacement before the byte. */
  lemma StoresNear(c: Core, x: Index, at: word)
    requires x != HL
    ensures var a := Near(c, x, Word(at + 1));
            Main(c, x, 0x36, at) == c.(regs := c.regs.(wz := a), mem := c.mem[a := c.mem[Word(at + 2)]])
    ensures MainTarget(c, x, 0x36, at) == Stay && MainLength(x, 0x36) == 3
  {
    hide Word, Signed8;
  }

  /** Rotates, shifts, BIT, RES and SET behind DD CB d. */
  lemma BitsNear(c: Core, x: Index, op: byte, d: word)
    requires x != HL && op % 8 == 6
    ensures var m := CB(Aimed(c, Near(c, x, d)), HL, op, d);
            CB(c, x, op, d) == m.(regs := m.regs.(hl := c.regs.hl))
  {
    hide Word, Signed8, Modified, ModifiedFlags, BitFlags;
  }

  // ----- on the run

  function PrefixOf(x: Index): byte
    requires x != HL
  {
    if x == IX then 0xDD else 0xFD
  }

  /** `s` behind its first byte, HL and WZ aimed at `a`. */
  function Behind(s: State, a: word): State {
    State(Aimed(s.core, a).(regs := Aimed(s.core, a).regs.(pc := Word(PC(s) + 1), r := Refresh(s.core.regs.r))), s.ctl)
  }

  /** DD op d does near IX what op does at HL, FD op d near IY: HL stays, PC moves over the
      displacement as well, and prefix and displacement take twelve cycles (sixteen for INC and DEC,
      which write back). */
  lemma IndexedWorks(s: State, x: Index, op: byte)
    requires x != HL && Quiet(s) && Code2(s, PrefixOf(x), op) && Works(op)
    ensures var a := Near(s.core, x, Word(PC(s) + 2));
            var u := After(Behind(s, a), 1);
            && After(s, 2) == u.(core := u.core.(regs := u.core.regs.(hl := s.core.regs.hl, pc := Word(PC(s) + 3))))
            && Spent(s, 2) == Spent(Behind(s, a), 1) + if op < 0x80 then 16 else 12
  {
    var a := Near(s.core, x, Word(PC(s) + 2));
    var t := Behind(s, a);
    hide Main, MainTarget, MainLength, MainTime, After, Spent, Quiet, Fetched, Word, Plain, Works, Near, Unwait;
    hide Refresh, PrefixOf, Behind, Aimed, Code;
    BehindIsQuiet(s, a, op);
    WorksHere(Fetched(t.core), op, PC(t));
    IndexedSide(s, x, op);
    PlainStep(t, op);
  }

  lemma IndexedSide(s: State, x: Index, op: byte)
    requires x != HL && Quiet(s) && Code2(s, PrefixOf(x), op) && Works(op)
    ensures var t := Behind(s, Near(s.core, x, Word(PC(s) + 2)));
            var m := Main(Fetched(t.core), HL, op, PC(t));
            && After(s, 2) == State(m.(regs := m.regs.(hl := s.core.regs.hl, pc := Word(PC(s) + 3))), Unwait(s).ctl)
            && Spent(s, 2) == 4 + MainTime(HL, op, false) + if op < 0x80 then 12 else 8
  {
    var a := Near(s.core, x, Word(PC(s) + 2));
    hide Main, MainTarget, MainLength, MainTime, After, Spent, Quiet, Fetched, Word, Plain, Works, Near, Unwait;
    hide Refresh, PrefixOf, Behind, Aimed, Code, Code2;
    SameWork(s, x, op);
    IndexedOn(s, x, op);
    WorksTime(x, op);
  }

  lemma SameWork(s: State, x: Index, op: byte)
    requires x != HL && Works(op)
    ensures var t, c, at := Behind(s, Near(s.core, x, Word(PC(s) + 2))), Fetched(Fetched(s.core)), Word(PC(s) + 1);
            var m := Main(Fetched(t.core), HL, op, PC(t));
            && Main(c, x, op, at) == m.(regs := m.regs.(hl := s.core.regs.hl))
            && MainTarget(c, x, op, at) == Stay && MainLength(x, op) == 2 && Plain(op)
  {
    var a := Near(s.core, x, Word(PC(s) + 2));
    hide Main, MainTarget, MainLength, Fetched, Word, Plain, Works, Near, Refresh, Behind, Aimed;
    PlaceBehind(s, a);
    TwiceFetched(s, a);
    NearFetched(s, x);
    WorksNear(Fetched(Fetched(s.core)), x, op, Word(PC(s) + 1));
  }

  lemma IndexedOn(s: State, x: Index, op: byte)
    requires x != HL && Quiet(s) && Code2(s, PrefixOf(x), op) && Plain(op) && MainLength(x, op) == 2
    requires MainTarget(Fetched(Fetched(s.core)), x, op, Word(PC(s) + 1)) == Stay
    ensures var m := Main(Fetched(Fetched(s.core)), x, op, Word(PC(s) + 1));
            After(s, 2) == State(m.(regs := m.regs.(pc := Word(PC(s) + 3))), Unwait(s).ctl)
    ensures Spent(s, 2) == 4 + MainTime(x, op, false)
  {
    hide Main, MainTarget, MainLength, MainTime, After, Spent, Quiet, Fetched, Word, Plain, Unwait, PrefixOf, Code2;
    IndexedPass(s, x, op);
    WordPlus(PC(s) + 1, 2);
  }

  lemma PlaceBehind(s: State, a: word)
    ensures PC(Behind(s, a)) == Word(PC(s) + 1)
  {
  }

  lemma WorksHere(c: Core, op: byte, at: word)
    requires Works(op)
    ensures MainTarget(c, HL, op, at) == Stay
  {
    if op >= 0x80 { assert op / 0x40 == 2; } else { assert op / 0x40 == 0 && op / 8 % 8 == 6; }
  }

  lemma BehindIsQuiet(s: State, a: word, op: byte)
    requires Quiet(s) && s.core.mem[Word(PC(s) + 1)] == op
    ensures Quiet(Behind(s, a)) && Code(Behind(s, a), op) && Unwait(Behind(s, a)).ctl == Unwait(s).ctl
    ensures Behind(s, a).core.mem == s.core.mem && PC(Behind(s, a)) == Word(PC(s) + 1)
  {
  }

  lemma TwiceFetched(s: State, a: word)
    ensures Aimed(Fetched(Fetched(s.core)), a) == Fetched(Behind(s, a).core)
    ensures Fetched(Fetched(s.core)).regs.hl == s.core.regs.hl && Fetched(Fetched(s.core)).mem == s.core.mem
  {
    hide Word, Refresh;
  }

  lemma NearFetched(s: State, x: Index)
    requires x != HL
    ensures Near(Fetched(Fetched(s.core)), x, Word(Word(PC(s) + 1) + 1)) == Near(s.core, x, Word(PC(s) + 2))
  {
    WordPlus(PC(s) + 1, 1);
    hide Word, Refresh, Signed8;
  }

  lemma WorksTime(x: Index, op: byte)
    requires x != HL && Works(op)
    ensures MainTime(x, op, false) == MainTime(HL, op, false) + if op < 0x80 then 12 else 8
  {
    if op >= 0x80 { assert op / 0x40 == 2; } else { assert op / 0x40 == 0 && op / 8 % 8 == 6; }
  }

  /** An instruction of the main table behind DD or FD takes two passes. */
  lemma IndexedPass(s: State, x: Index, op: byte)
    requires x != HL && Quiet(s) && Code2(s, PrefixOf(x), op) && Plain(op)
    ensures var c, at := Fetched(Fetched(s.core)), Word(PC(s) + 1);
            var t, m := MainTarget(c, x, op, at), Main(c, x, op, at);
            && After(s, 2) == State(m.(regs := m.regs.(pc := Next(t, Word(at + MainLength(x, op))))), Unwait(s).ctl)
            && Spent(s, 2) == 4 + MainTime(x, op, t != Stay)
  {
    hide Main, MainTarget, MainLength, MainTime, Fetched, After, Spent, Pass, Cost, Unwait, Inv, Word, Plain, Quiet;
    hide PrefixOf;
    IndexedFirst(s, x);
    IndexedLast(Pass(s), x, op);
    TwoPasses(s);
  }

  lemma IndexedFirst(s: State, x: Index)
    requires x != HL && Quiet(s) && Code(s, PrefixOf(x))
    ensures var v := Pass(s);
            && v.core == Fetched(s.core) && v.core.mem == s.core.mem && Cost(s) == 4
            && v.ctl == Unwait(s).ctl.(prefix := 0x100 * PrefixOf(x)) && Unwait(s).ctl.prefix == 0
            && Inv(v) && !v.ctl.halted && PC(v) == Word(PC(s) + 1)
  {
    PrefixFetch(s, PrefixOf(x));
    PassKeepsInv(s);
    hide Pass, Cost, Refresh;
  }

  lemma IndexedLast(v: State, x: Index, op: byte)
    requires x != HL && Inv(v) && v.ctl.prefix == 0x100 * PrefixOf(x) && Code(v, op) && Plain(op)
    ensures var c, at := Fetched(v.core), PC(v);
            var t, m := MainTarget(c, x, op, at), Main(c, x, op, at);
            && Pass(v) == State(m.(regs := m.regs.(pc := Next(t, Word(at + MainLength(x, op))))), v.ctl.(prefix := 0))
            && Cost(v) == MainTime(x, op, t != Stay)
  {
    assert TableOf(v.ctl.prefix) == TableMain && IndexOf(v.ctl.prefix) == x;
    hide Main, MainTarget, MainLength, MainTime, Word, Fetched;
  }
}
