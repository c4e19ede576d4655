/** Cycle counts against the tables of the Z80 CPU User Manual (UM0080). */
module Timing {
  import opened Bytes
  import opened Z80

  /** T states of the main table, conditional instructions not taken. */
  function Manual(op: byte): nat {
    match op
    case 0x01 | 0x11 | 0x21 | 0x31 => 10
    case 0x02 | 0x12 | 0x0A | 0x1A => 7
    case 0x03 | 0x13 | 0x23 | 0x33 | 0x0B | 0x1B | 0x2B | 0x3B => 6
    case 0x06 | 0x0E | 0x16 | 0x1E | 0x26 | 0x2E | 0x3E => 7
    case 0x09 | 0x19 | 0x29 | 0x39 | 0x34 | 0x35 => 11
    case 0x10 => 8
    case 0x18 => 12
    case 0x20 | 0x28 | 0x30 | 0x38 => 7
    case 0x22 | 0x2A => 16
    case 0x32 | 0x3A => 13
    case 0x36 => 10
    case 0x46 | 0x4E | 0x56 | 0x5E | 0x66 | 0x6E | 0x7E => 7
    case 0x70 | 0x71 | 0x72 | 0x73 | 0x74 | 0x75 | 0x77 => 7
    case 0x86 | 0x8E | 0x96 | 0x9E | 0xA6 | 0xAE | 0xB6 | 0xBE => 7
    case 0xC0 | 0xC8 | 0xD0 | 0xD8 | 0xE0 | 0xE8 | 0xF0 | 0xF8 => 5
    case 0xC1 | 0xD1 | 0xE1 | 0xF1 | 0xC9 => 10
    case 0xC2 | 0xCA | 0xD2 | 0xDA | 0xE2 | 0xEA | 0xF2 | 0xFA | 0xC3 => 10
    case 0xC4 | 0xCC | 0xD4 | 0xDC | 0xE4 | 0xEC | 0xF4 | 0xFC => 10
    case 0xC5 | 0xD5 | 0xE5 | 0xF5 => 11
    case 0xC6 | 0xCE | 0xD6 | 0xDE | 0xE6 | 0xEE | 0xF6 | 0xFE => 7
    case 0xC7 | 0xCF | 0xD7 | 0xDF | 0xE7 | 0xEF | 0xF7 | 0xFF => 11
    case 0xCD => 17
    case 0xD3 | 0xDB => 11
    case 0xE3 => 19
    case 0xF9 => 6
    case _ => 4
  }

  /** And taken. */
  function ManualTaken(op: byte): nat {
    match op
    case 0x10 => 13
    case 0x20 | 0x28 | 0x30 | 0x38 => 12
    case 0xC0 | 0xC8 | 0xD0 | 0xD8 | 0xE0 | 0xE8 | 0xF0 | 0xF8 => 11
    case 0xC4 | 0xCC | 0xD4 | 0xDC | 0xE4 | 0xEC | 0xF4 | 0xFC => 17
    case _ => Manual(op)
  }

  /** What the code charges differs from the manual by this much: INC (HL) and DEC (HL) one cycle too
      few, the immediate ALU operations three too few. */
  function MainOff(op: byte): int {
    match op
    case 0x34 | 0x35 => -1
    case 0xC6 | 0xCE | 0xD6 | 0xDE | 0xE6 | 0xEE | 0xF6 | 0xFE => -3
    case _ => 0
  }

  /** The main table; JR d always jumps. */
  lemma MainCycles(op: byte, jumps: bool)
    requires op == 0x18 ==> jumps
    ensures MainTime(HL, op, jumps) == (if jumps then ManualTaken(op) else Manual(op)) + MainOff(op)
  {
    if op < 0x40 { First(op, jumps); } else if op < 0xC0 { Middle(op, jumps); } else { Last(op, jumps); }
  }

  lemma First(op: byte, jumps: bool)
    requires op < 0x40 && (op == 0x18 ==> jumps)
    ensures MainTime(HL, op, jumps) == (if jumps then ManualTaken(op) else Manual(op)) + MainOff(op)
  {
    assert op / 0x40 == 0 && op == 8 * (op / 8 % 8) + op % 8;
  }

  lemma Middle(op: byte, jumps: bool)
    requires 0x40 <= op < 0xC0
    ensures MainTime(HL, op, jumps) == (if jumps then ManualTaken(op) else Manual(op)) + MainOff(op)
  {
    assert op == 0x40 * (op / 0x40) + 8 * (op / 8 % 8) + op % 8;
  }

  lemma Last(op: byte, jumps: bool)
    requires 0xC0 <= op
    ensures MainTime(HL, op, jumps) == (if jumps then ManualTaken(op) else Manual(op)) + MainOff(op)
  {
    assert op / 0x40 == 3 && op == 0xC0 + 8 * (op / 8 % 8) + op % 8;
  }

  /** CB op, both bytes: 8 cycles on a register; at HL 12 for BIT and 15 for the others, and there the
      code charges one too few. */
  lemma BitCycles(op: byte)
    ensures 4 + CBTime(HL, op) == if op % 8 != 6 then 8 else if 0x40 <= op < 0x80 then 12 - 1 else 15 - 1
  {
  }

  /** ED op, both bytes, a block instruction going round again or not. */
  function ManualED(op: byte, again: bool): nat {
    match op
    case 0x40 | 0x48 | 0x50 | 0x58 | 0x60 | 0x68 | 0x70 | 0x78 => 12
    case 0x41 | 0x49 | 0x51 | 0x59 | 0x61 | 0x69 | 0x71 | 0x79 => 12
    case 0x42 | 0x4A | 0x52 | 0x5A | 0x62 | 0x6A | 0x72 | 0x7A => 15
    case 0x43 | 0x4B | 0x53 | 0x5B | 0x63 | 0x6B | 0x73 | 0x7B => 20
    case 0x45 | 0x4D | 0x55 | 0x5D | 0x65 | 0x6D | 0x75 | 0x7D => 14
    case 0x47 | 0x4F | 0x57 | 0x5F => 9
    case 0x67 | 0x6F => 18
    case 0xA0 | 0xA1 | 0xA2 | 0xA3 | 0xA8 | 0xA9 | 0xAA | 0xAB => 16
    case 0xB0 | 0xB1 | 0xB2 | 0xB3 | 0xB8 | 0xB9 | 0xBA | 0xBB => if again then 21 else 16
    case _ => 8
  }

  /** The code charges RETN and RETI four cycles too many, and agrees everywhere else. */
  lemma ExtendedCycles(op: byte, again: bool)
    requires again ==> op >= 0xB0
    ensures 4 + EDTime(op, again) == ManualED(op, again) + if 0x40 <= op < 0x80 && op % 8 == 5 then 4 else 0
  {
    assert op == 0x40 * (op / 0x40) + 8 * (op / 8 % 8) + op % 8;
  }

  /** The operand near an index register, prefix and displacement included. */
  function ManualIndexed(op: byte): nat
    requires AtIndexed(op)
  {
    if op == 0x34 || op == 0x35 then 23 else 19
  }

  predicate AtIndexed(op: byte) {
    0x34 <= op <= 0x36 || (0x70 <= op < 0x78 && op != 0x76) || (0x40 <= op < 0xC0 && op % 8 == 6 && op != 0x76)
  }

  /** Reading is charged as it should be; LD (IX+d),r four cycles too few, LD (IX+d),n one too few,
      INC and DEC three too many. */
  lemma IndexedCycles(x: Index, op: byte)
    requires x != HL && AtIndexed(op)
    ensures 4 + MainTime(x, op, false) == ManualIndexed(op) +
              (if 0x70 <= op < 0x78 then -4 else if op == 0x36 then -1 else if op < 0x40 then 3 else 0)
  {
    assert op == 0x40 * (op / 0x40) + 8 * (op / 8 % 8) + op % 8;
  }

  /** DD CB d op and FD CB d op: BIT is charged three cycles too many, the others seven. */
  lemma IndexedBitCycles(x: Index, op: byte)
    requires x != HL && op % 8 == 6
    ensures 8 + CBTime(x, op) == if 0x40 <= op < 0x80 then 20 + 3 else 23 + 7
  {
  }
}
