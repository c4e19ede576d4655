/** The register file (registers.h, registers.c): the flag byte, the flag macros, the
    register pairs and the three exchange instructions. */
module Registers {
  import opened Bytes

  /** The bits of F, most significant first. */
  datatype Flags = Flags(s: bool, z: bool, f5: bool, h: bool, f3: bool, pv: bool, n: bool, c: bool)

  function FlagByte(f: Flags): byte {
    0x80 * Num(f.s) + 0x40 * Num(f.z) + 0x20 * Num(f.f5) + 0x10 * Num(f.h)
    + 8 * Num(f.f3) + 4 * Num(f.pv) + 2 * Num(f.n) + Num(f.c)
  }

  function ByteFlags(b: byte): Flags {
    Flags(Bit(b, 7), Bit(b, 6), Bit(b, 5), Bit(b, 4), Bit(b, 3), Bit(b, 2), Bit(b, 1), Bit(b, 0))
  }

  /** The pairs BC, DE, HL, IX and IY are words whose bytes are also registers; AF is A and the flags. */
  datatype Regs = Regs(
    a: byte, f: Flags, bc: word, de: word, hl: word, sp: word, pc: word, ix: word, iy: word,
    i: byte, r: byte, wz: word, af2: word, bc2: word, de2: word, hl2: word)

  /** F and its bits determine each other. */
  lemma FlagsRoundTrip(f: Flags, b: byte)
    ensures ByteFlags(FlagByte(f)) == f && FlagByte(ByteFlags(b)) == b
  {
    BitsOf(f.c, f.n, f.pv, f.f3, f.h, f.f5, f.z, f.s);
    ByteIsItsBits(b);
    FlagByteIs(f);
    FlagByteIs(ByteFlags(b));
    hide Bit, FromBits, FlagByte;
  }

  lemma FlagByteIs(f: Flags)
    ensures FlagByte(f) == FromBits(f.c, f.n, f.pv, f.f3, f.h, f.f5, f.z, f.s)
  {
    hide Num;
  }

  function AF(r: Regs): word { Pair(r.a, FlagByte(r.f)) }

  function SetAF(r: Regs, w: word): Regs { r.(a := Hi(w), f := ByteFlags(Lo(w))) }

  function SetB(r: Regs, v: byte): Regs { r.(bc := Pair(v, Lo(r.bc))) }

  function ExAFAF(r: Regs): Regs { SetAF(r, r.af2).(af2 := AF(r)) }

  function ExDEHL(r: Regs): Regs { r.(de := r.hl, hl := r.de) }

  function Exx(r: Regs): Regs {
    r.(bc := r.bc2, de := r.de2, hl := r.hl2, bc2 := r.bc, de2 := r.de, hl2 := r.hl)
  }

  /** Each exchange undoes itself; for AF that goes through the flag byte. */
  lemma ExchangesUndo(r: Regs)
    ensures ExAFAF(ExAFAF(r)) == r && ExDEHL(ExDEHL(r)) == r && Exx(Exx(r)) == r
  {
    FlagsRoundTrip(r.f, Lo(r.af2));
    PairParts(r.a, FlagByte(r.f));
    hide FlagByte, ByteFlags;
  }

  /** Where the flags are in F: S is bit 7 and C is bit 0. */
  lemma FlagPlaces(f: Flags)
    ensures var b := FlagByte(f);
            && Bit(b, 7) == f.s && Bit(b, 6) == f.z && Bit(b, 5) == f.f5 && Bit(b, 4) == f.h
            && Bit(b, 3) == f.f3 && Bit(b, 2) == f.pv && Bit(b, 1) == f.n && Bit(b, 0) == f.c
  {
    BitsOf(f.c, f.n, f.pv, f.f3, f.h, f.f5, f.z, f.s);
  }

  // The macros of registers.h. Their arguments are C `int`s, possibly negative.

  predicate Carry8(x: int) { Bit(x, 8) }

  predicate Carry16(x: int) { Bit(x, 16) }

  predicate Sign8(x: int) { Bit(x, 7) }

  predicate Sign16(x: int) { Bit(x, 15) }

  predicate HalfAdd8(a: byte, b: byte, c: nat) { Bit(a % 0x10 + b % 0x10 + c, 4) }

  predicate HalfSub8(a: byte, b: byte, c: nat) { Bit(a % 0x10 - b % 0x10 - c, 4) }

  predicate HalfAdd16(a: word, b: word, c: nat) { Bit(a % 0x1000 + b % 0x1000 + c, 12) }

  predicate HalfSub16(a: word, b: word, c: nat) { Bit(a % 0x1000 - b % 0x1000 - c, 12) }

  predicate OverflowAdd8(a: byte, b: byte, r: byte) { Sign8(a) == Sign8(b) && Sign8(a) != Sign8(r) }

  predicate OverflowSub8(a: byte, b: byte, r: byte) { Sign8(a) != Sign8(b) && Sign8(a) != Sign8(r) }

  predicate OverflowAdd16(a: word, b: word, r: word) { Sign16(a) == Sign16(b) && Sign16(a) != Sign16(r) }

  predicate OverflowSub16(a: word, b: word, r: word) { Sign16(a) != Sign16(b) && Sign16(a) != Sign16(r) }
}
