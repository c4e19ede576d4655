/** The byte operands of an instruction: seven registers, and the byte at HL. */
module Operands {
  import opened Bytes
  import opened Registers
  import opened Z80

  function Held(c: Core, z: nat): byte
    requires z < 8
  {
    if z == 6 then c.mem[c.regs.hl] else Get8(c.regs, HL, z)
  }

  /** The same but for the operand. */
  function With(c: Core, z: nat, v: byte): Core
    requires z < 8
  {
    if z == 6 then Poke(c, c.regs.hl, v) else c.(regs := Set8(c.regs, HL, z, v))
  }

  /** An operand is what was put there, and putting it there moves no other register. */
  lemma HeldWith(c: Core, z: nat, v: byte, w: nat)
    requires z < 8 && w < 8
    ensures Held(With(c, z, v), z) == v
    ensures w != z && w != 6 ==> Held(With(c, z, v), w) == Held(c, w)
  {
    PairParts(v, Lo(c.regs.bc));
    PairParts(Hi(c.regs.bc), v);
    PairParts(v, Lo(c.regs.de));
    PairParts(Hi(c.regs.de), v);
    PairParts(v, Lo(c.regs.hl));
    PairParts(Hi(c.regs.hl), v);
    hide Pair, Hi, Lo;
  }

  /** B and C make up BC, D and E DE, H and L HL, the first named the high byte; 7 is A. */
  lemma BytesMakeWords(c: Core)
    ensures c.regs.bc == Pair(Held(c, 0), Held(c, 1)) && c.regs.de == Pair(Held(c, 2), Held(c, 3))
    ensures c.regs.hl == Pair(Held(c, 4), Held(c, 5)) && c.regs.a == Held(c, 7)
  {
    PairOf(c.regs.bc);
    PairOf(c.regs.de);
    PairOf(c.regs.hl);
    hide Pair, Hi, Lo;
  }

  /** Everything but the operand is as it was. */
  lemma OnlyThat(c: Core, z: nat, v: byte)
    requires z < 8
    ensures z == 6 ==> With(c, z, v) == c.(mem := With(c, z, v).mem)
                       && forall a: word :: a != c.regs.hl ==> With(c, z, v).mem[a] == c.mem[a]
    ensures z != 6 ==> With(c, z, v) == c.(regs := With(c, z, v).regs)
                       && With(c, z, v).regs == c.regs.(a := With(c, z, v).regs.a, bc := With(c, z, v).regs.bc,
                                                        de := With(c, z, v).regs.de, hl := With(c, z, v).regs.hl)
  {
    hide Pair, Hi, Lo;
  }
}
