/** The disassembler's cursor arithmetic (disassemble.c), and its agreement with the CPU on where
    each instruction ends. */
module Disassembler {
  import opened Bytes
  import opened Registers
  import opened Z80
  import opened Invariants
  import opened Runs
  import opened Renaming

  /** The length `parse_instruction` returns for the bytes at `at`. Under DD CB, FD CB, DD ED and
      FD ED the opcode is taken three bytes on, past a displacement that only DD CB has. */
  function ListedLength(m: Memory, at: word): nat {
    var p, op := PrefixAt(m, at), OpcodeAt(m, at);
    if Lo(p) == 0xCB then if Hi(p) == 0 then 2 else 2 + IndexedCBLength(op)
    else if Lo(p) == 0xED then if Hi(p) == 0 then 1 + EDLength(op) else 2 + EDLength(op)
    else if Hi(p) == 0 then MainLength(HL, op) else 1 + MainLength(IndexOf(p), op)
  }

  /** DJNZ, JR and JR cc. */
  predicate IsRelative(op: byte) { op / 0x40 == 0 && op % 8 == 0 && op / 8 % 8 >= 2 }

  /** The number printed for a relative jump at `at`: an `int`, not reduced to 16 bits. */
  function ListedTarget(m: Memory, at: word): int { Signed8(m[Word(at + 1)]) + Word(at + 2) }

  /** The address of the byte that selects the instruction, when no CB or ED prefix is involved. */
  function MainOpcodeAt(m: Memory, at: word): word {
    if m[at] == 0xDD || m[at] == 0xFD then Word(at + 1) else at
  }

  /** The prefixes read into one 16-bit number, the index prefix in its high byte. */
  function PrefixAt(m: Memory, at: word): word {
    var b0, b1 := m[at], m[Word(at + 1)];
    if b0 == 0xDD || b0 == 0xFD then Pair(b0, if b1 == 0xCB || b1 == 0xED then b1 else 0)
    else if b0 == 0xCB || b0 == 0xED then b0 else 0
  }

  /** The byte taken for the opcode. */
  function OpcodeAt(m: Memory, at: word): byte {
    var p := PrefixAt(m, at);
    if p == 0 then m[at] else if Hi(p) != 0 && Lo(p) != 0 then m[Word(at + 3)] else m[Word(at + 1)]
  }

  lemma PrefixShape(m: Memory, at: word)
    ensures var p := PrefixAt(m, at);
            && (p == 0 || p == 0xCB || p == 0xED || p == 0xDD00 || p == 0xFD00
                || p == 0xDDCB || p == 0xFDCB || p == 0xDDED || p == 0xFDED)
            && (Lo(p) == 0 ==> m[MainOpcodeAt(m, at)] == OpcodeAt(m, at)
                               && MainOpcodeAt(m, at) == if Hi(p) == 0 then at else Word(at + 1))
            && (Lo(p) != 0 ==> !IsRelative(m[MainOpcodeAt(m, at)]))
    ensures 1 <= ListedLength(m, at) <= 5
  {
    PrefixParts(m, at);
    PartsAre();
    ListedBounds(m, at);
    hide Hi, Lo, Pair, Word, ListedLength, PrefixAt;
  }

  lemma PrefixParts(m: Memory, at: word)
    ensures var p, b0, b1 := PrefixAt(m, at), m[at], m[Word(at + 1)];
            && Hi(p) == (if b0 == 0xDD || b0 == 0xFD then b0 else 0)
            && Lo(p) == (if b0 == 0xCB || b0 == 0xED then b0
                         else if (b0 == 0xDD || b0 == 0xFD) && (b1 == 0xCB || b1 == 0xED) then b1 else 0)
            && (p == 0 || p == 0xCB || p == 0xED || p == 0xDD00 || p == 0xFD00
                || p == 0xDDCB || p == 0xFDCB || p == 0xDDED || p == 0xFDED)
  {
    PairsAre();
    PartsAre();
    hide Hi, Lo, Pair, Word;
  }

  lemma PartsAre()
    ensures Hi(0) == Hi(0xCB) == Hi(0xED) == 0 && Hi(0xDD00) == Hi(0xDDCB) == Hi(0xDDED) == 0xDD
    ensures Hi(0xFD00) == Hi(0xFDCB) == Hi(0xFDED) == 0xFD && Lo(0) == Lo(0xDD00) == Lo(0xFD00) == 0
    ensures Lo(0xCB) == Lo(0xDDCB) == Lo(0xFDCB) == 0xCB && Lo(0xED) == Lo(0xDDED) == Lo(0xFDED) == 0xED
  {
  }

  lemma PairsAre()
    ensures Pair(0xDD, 0) == 0xDD00 && Pair(0xDD, 0xCB) == 0xDDCB && Pair(0xDD, 0xED) == 0xDDED
    ensures Pair(0xFD, 0) == 0xFD00 && Pair(0xFD, 0xCB) == 0xFDCB && Pair(0xFD, 0xED) == 0xFDED
  {
  }

  lemma ListedBounds(m: Memory, at: word)
    ensures 1 <= ListedLength(m, at) <= 5
  {
    var p, op := PrefixAt(m, at), OpcodeAt(m, at);
    TableLengths(HL, op);
    TableLengths(IndexOf(p), op);
    hide PrefixAt, OpcodeAt, MainLength, EDLength, IndexOf, Hi, Lo;
  }

  lemma TableLengths(x: Index, op: byte)
    ensures 1 <= MainLength(x, op) <= 3 && 1 <= EDLength(op) <= 3
  {
  }

  lemma CursorSteps(start: word, n: nat)
    requires n < 0x100
    ensures Word(Word(start + 1) + n - 1) == Word(start + n)
    ensures Word(Word(start + 2) + n - 1) == Word(start + n + 1)
    ensures Word(Word(start + n + 1) + 1) == Word(start + n + 2)
    ensures Word(Word(start + 2) - 1) == Word(start + 1)
    ensures Word(Word(start + 1) - 1) == start
    ensures Word(Word(start + n) - start) == n
    ensures Word(start) == start
  {
    WordPlus(start + 1, n - 1);
    WordPlus(start + 2, n - 1);
    WordPlus(start + n + 1, 1);
    WordPlus(start + 2, -1);
    WordPlus(start + 1, -1);
    var from: int := start;
    WordPlus(from + n, -from);
    WordIs(start);
    WordIs(n);
    hide Word;
  }

  lemma WordIs(w: word)
    ensures Word(w) == w
  {
  }

  /** The fields of `struct disassemble_memory` and `struct context` that steer the cursor, and the
      jump targets printed so far. */
  class Listing {
    const mem: Memory
    var current: word
    var prefix: word
    var targets: seq<int>

    constructor (mem: Memory, current: word)
      ensures this.mem == mem && this.current == current && targets == []
    {
      this.mem, this.current, this.prefix, this.targets := mem, current, 0, [];
    }

    method ParseN()
      modifies this`current
      ensures current == Word(old(current) + 1)
    {
      current := Word(current + 1);
    }

    method ParseNN() returns (total: word)
      modifies this`current
      ensures current == Word(old(current) + 2)
      ensures total == ReadWord(mem, old(current))
    {
      var first := mem[current];
      current := Word(current + 1);
      var second := mem[current];
      current := Word(current + 1);
      total := Pair(second, first);
    }

    method ParseDRelative()
      modifies this`current, this`targets
      ensures current == Word(old(current) + 1)
      ensures targets == old(targets) + [ListedTarget(mem, Word(old(current) - 1))]
    {
      var address := Word(current + 1);
      targets := targets + [Signed8(mem[current]) + address];
      current := Word(current + 1);
    }

    /** Reads a displacement exactly for an indexed memory operand. */
    method ParseR(part: nat)
      requires part < 8
      modifies this`current
      ensures current == if part == 6 && IndexOf(prefix) != HL then Word(old(current) + 1) else old(current)
    {
      if part == 6 {
        if prefix / 0x100 == 0xDD {
          current := Word(current + 1);
        } else if prefix / 0x100 == 0xFD {
          current := Word(current + 1);
        }
      }
    }

    /** The prefix is hidden from whichever operand is not the memory one. */
    method ParseRwR(write: nat, read: nat)
      requires write < 8 && read < 8
      modifies this`current, this`prefix
      ensures current ==
              if write == 6 || read == 6 then
                if IndexOf(old(prefix)) != HL then Word(old(current) + 1) else old(current)
              else old(current)
    {
      var oldPrefix := prefix;
      if write != 6 {
        prefix := prefix % 0x100;
      }
      ParseR(write);
      if write == 6 {
        prefix := prefix % 0x100;
      } else {
        prefix := oldPrefix;
      }
      ParseR(read);
    }

    /** Consumes the prefix bytes and the opcode, and steps back to the displacement when there
        are two of them. */
    method ParsePrefixes() returns (op: byte)
      modifies this`current, this`prefix
      ensures var at := old(current);
              && op == OpcodeAt(mem, at)
              && prefix == PrefixAt(mem, at)
              && current == if prefix == 0 then Word(at + 1) else Word(at + 2)
    {
      hide Word, Pair, Hi, Lo;
      var at: int := current;
      CursorSteps(at, 1);
      CursorSteps(at, 2);
      PairParts(0, 0);
      PairParts(mem[current], 0);
      PairParts(0, mem[current]);
      PairParts(mem[current], mem[Word(at + 1)]);
      prefix := 0;
      var data := mem[current];
      if data == 0xDD || data == 0xFD {
        prefix := Pair(mem[current], Lo(prefix));
        current := Word(current + 1);
        data := mem[current];
      }
      assert Lo(prefix) == 0 && Hi(prefix) == if mem[at] == 0xDD || mem[at] == 0xFD then mem[at] else 0;
      if data == 0xCB || data == 0xED {
        prefix := Pair(Hi(prefix), mem[current]);
        current := Word(current + 1);
        data := mem[current];
      }
      assert prefix == PrefixAt(mem, at);
      if Hi(prefix) != 0 && Lo(prefix) != 0 {
        data := mem[Word(current + 1)];
        current := Word(current - 1);
      }
      op := data;
      current := Word(current + 1);
    }

    /** Advances the cursor over one instruction and returns how far. */
    method ParseInstruction() returns (length: word)
      modifies this
      ensures current == Word(old(current) + ListedLength(mem, old(current)))
      ensures length == ListedLength(mem, old(current))
      ensures var at := MainOpcodeAt(mem, old(current));
              targets == if IsRelative(mem[at]) then old(targets) + [ListedTarget(mem, at)] else old(targets)
    {
      hide MainLength, EDLength, IsRelative, ListedTarget, Word, PrefixAt, OpcodeAt;
      var start: int := current;
      var op := ParsePrefixes();
      PrefixShape(mem, start);
      TableLengths(IndexOf(prefix), op);
      CursorSteps(start, ListedLength(mem, start));
      var twice := prefix / 0x100 != 0 && prefix % 0x100 != 0;
      if prefix % 0x100 == 0xCB {
        CursorSteps(start, IndexedCBLength(op));
        ParseR(op % 8);
      } else if prefix % 0x100 == 0xED {
        CursorSteps(start, EDLength(op));
        ParseED(op);
      } else {
        CursorSteps(start, MainLength(IndexOf(prefix), op));
        ParseMain(op);
      }
      if twice {
        current := Word(current + 1);
      }
      length := Word(current - start);
    }

    method ParseED(op: byte)
      modifies this`current
      ensures current == Word(old(current) + EDLength(op) - 1)
    {
      var y, z := op / 8 % 8, op % 8;
      if op / 0x40 == 1 {
        if z == 0 || z == 1 {
          if y != 6 { ParseR(y); }
        } else if z == 3 {
          var nn := ParseNN();
        }
      }
    }

    method ParseMain(op: byte)
      modifies this`current, this`prefix, this`targets
      ensures current == Word(old(current) + MainLength(IndexOf(old(prefix)), op) - 1)
      ensures targets ==
              if IsRelative(op) then old(targets) + [ListedTarget(mem, Word(old(current) - 1))] else old(targets)
    {
      var y, z := op / 8 % 8, op % 8;
      match op / 0x40 {
        case 0 => ParseMain0(op, y, z);
        case 1 =>
          if !(z == 6 && y == 6) { ParseRwR(y, z); }
        case 2 => ParseR(z);
        case _ => ParseMain3(y, z);
      }
    }

    method ParseMain0(ghost op: byte, y: nat, z: nat)
      requires op < 0x40 && y == op / 8 % 8 && z == op % 8
      modifies this`current, this`targets
      ensures current == Word(old(current) + MainLength(IndexOf(prefix), op) - 1)
      ensures targets ==
              if IsRelative(op) then old(targets) + [ListedTarget(mem, Word(old(current) - 1))] else old(targets)
    {
      match z {
        case 0 =>
          if y >= 2 { ParseDRelative(); }
        case 1 =>
          if y % 2 == 0 { var nn := ParseNN(); }
        case 2 =>
          if y >= 4 { var nn := ParseNN(); }
        case 4 => ParseR(y);
        case 5 => ParseR(y);
        case 6 =>
          ParseR(y);
          ParseN();
        case _ =>
      }
    }

    method ParseMain3(y: nat, z: nat)
      requires y < 8 && z < 8
      modifies this`current
      ensures current == Word(old(current) + MainLength(IndexOf(prefix), 0xC0 + 8 * y + z) - 1)
    {
      match z {
        case 2 => var nn := ParseNN();
        case 3 =>
          if y == 0 { var nn := ParseNN(); }
          else if y == 2 || y == 3 { ParseN(); }
        case 4 => var nn := ParseNN();
        case 5 =>
          if y == 1 { var nn := ParseNN(); }
        case 6 => ParseN();
        case _ =>
      }
    }
  }

  // ----- agreement with the CPU

  predicate IsIndexOp(b: byte) { b == 0xDD || b == 0xFD }

  /** The passes of the CPU loop an instruction takes: one for each prefix, and one more. */
  function Fetches(m: Memory, at: word): (k: nat)
    ensures 1 <= k <= 3
  {
    if IsIndexOp(m[at]) then if m[Word(at + 1)] == 0xCB || m[Word(at + 1)] == 0xED then 3 else 2
    else if m[at] == 0xCB || m[at] == 0xED then 2
    else 1
  }

  /** The CPU is about to fetch the first byte of an instruction. */
  predicate AtInstruction(s: State) { Inv(s) && s.ctl.prefix == 0 && !s.ctl.halted && !Accepts(s) }

  /** A pass that fetches a prefix byte. */
  lemma PrefixPass(s: State, op: byte)
    requires Inv(s) && !s.ctl.halted && !Accepts(s) && TableOf(s.ctl.prefix) == TableMain
    requires s.core.mem[PC(s)] == op && IsPrefixOp(op)
    ensures var v := Pass(s);
            && Inv(v) && !v.ctl.halted && v.ctl.prefix != 0 && !Accepts(v)
            && v.ctl.prefix == (if op == 0xCB then s.ctl.prefix + 0xCB else Pair(op, 0))
            && v.core.mem == s.core.mem && PC(v) == Word(PC(s) + 1)
  {
    PrefixFetch(s, op);
    PassKeepsInv(s);
    hide Pass, Cost;
  }

  /** The pass that completes an instruction. */
  lemma LastPass(v: State)
    requires Inv(v) && !v.ctl.halted && !Accepts(v)
    requires TableOf(v.ctl.prefix) == TableMain ==> !IsPrefixOp(v.core.mem[PC(v)])
    ensures Pass(v).ctl.prefix == 0
  {
    ControlPrefix(Unwait(v));
    hide Effect, ControlOf, Opcode;
    assert Opcode(Unwait(v)) == Opcode(v);
  }

  /** The state in which the CPU fetches the opcode proper. */
  function OpcodeState(s: State): State { After(s, Fetches(s.core.mem, PC(s)) - 1) }

  lemma ReachesOpcode(s: State)
    requires AtInstruction(s)
    requires IsIndexOp(s.core.mem[PC(s)]) ==> !IsIndexOp(s.core.mem[Word(PC(s) + 1)])
    ensures var k, v, at := Fetches(s.core.mem, PC(s)), OpcodeState(s), PC(s);
            var b0, b1 := s.core.mem[at], s.core.mem[Word(at + 1)];
            && After(s, k).ctl.prefix == 0
            && (forall i: nat :: 0 < i < k ==> After(s, i).ctl.prefix != 0)
            && v.core.mem == s.core.mem && PC(v) == Word(at + (k - 1))
            && v.ctl.prefix == (if k == 1 then 0 else if k == 2 then if b0 == 0xCB then 0xCB else Pair(b0, 0)
                                else if b1 == 0xCB then Pair(b0, 0xCB) else 0xED00)
            && AfterOneMore(s, k)
  {
    hide Pass, Inv, Accepts, Cost;
    var at: int := PC(s);
    var b0, b1 := s.core.mem[at], s.core.mem[Word(at + 1)];
    WordPlus(at + 1, 1);
    if !IsPrefixOp(b0) {
      LastPass(s);
      assert After(s, 1) == After(Pass(s), 0);
    } else {
      PrefixPass(s, b0);
      var v1 := Pass(s);
      assert After(s, 1) == After(v1, 0) == v1 && After(s, 2) == After(v1, 1) == After(Pass(v1), 0);
      if Fetches(s.core.mem, at) == 2 {
        LastPass(v1);
      } else {
        PrefixPass(v1, b1);
        var v2 := Pass(v1);
        LastPass(v2);
        assert After(s, 3) == After(v1, 2) == After(v2, 1) == After(Pass(v2), 0);
      }
    }
  }

  predicate AfterOneMore(s: State, k: nat)
    requires k > 0
  {
    After(s, k) == Pass(After(s, k - 1))
  }

  /** The two decoders agree on where an instruction ends, for every memory and PC. The end is
      the PC after the bytes the CPU read, before any jump or block repeat. DD or FD before ED is
      the one exception: the disassembler then looks a byte too far for the opcode, and agrees
      exactly when that byte and the true opcode are both LD rp,(nn) forms or both not. */
  lemma DecodersAgree(s: State)
    requires AtInstruction(s)
    requires IsIndexOp(s.core.mem[PC(s)]) ==> !IsIndexOp(s.core.mem[Word(PC(s) + 1)])
    ensures var m, at := s.core.mem, PC(s);
            && After(s, Fetches(m, at)).ctl.prefix == 0
            && (forall i: nat :: 0 < i < Fetches(m, at) ==> After(s, i).ctl.prefix != 0)
            && (NextPC(OpcodeState(s)) == Word(at + ListedLength(m, at)) <==>
                (IsIndexOp(m[at]) && m[Word(at + 1)] == 0xED ==>
                   EDLength(m[Word(at + 2)]) == EDLength(m[Word(at + 3)])))
  {
    hide Inv, Accepts, After, NextPC, Length, OpcodeState, Fetches, ListedLength, Word, EDLength, AfterOneMore;
    ReachesOpcode(s);
    var m, at := s.core.mem, PC(s);
    var k, v := Fetches(m, at), OpcodeState(s);
    LengthsMeet(v, at, k);
    NextPCFrom(v, at, k - 1);
    Apart(at, k - 1 + Length(v), ListedLength(m, at));
  }

  lemma NextPCFrom(v: State, at: word, n: nat)
    requires PC(v) == Word(at + n)
    ensures NextPC(v) == Word(at + n + Length(v))
  {
    WordPlus(at + 0 + n, Length(v));
    hide Length;
  }

  lemma Apart(at: word, m: nat, n: nat)
    requires m < 0x10000 && n < 0x10000
    ensures Word(at + m) == Word(at + n) <==> m == n
  {
  }

  lemma LengthsMeet(v: State, at: word, k: nat)
    requires var m := v.core.mem;
             var b0, b1 := m[at], m[Word(at + 1)];
             && (IsIndexOp(b0) ==> !IsIndexOp(b1))
             && k == Fetches(m, at) && PC(v) == Word(at + (k - 1))
             && v.ctl.prefix == (if k == 1 then 0 else if k == 2 then if b0 == 0xCB then 0xCB else Pair(b0, 0)
                                 else if b1 == 0xCB then Pair(b0, 0xCB) else 0xED00)
    ensures var m := v.core.mem;
            && (k - 1 + Length(v) == ListedLength(m, at) <==>
                (IsIndexOp(m[at]) && m[Word(at + 1)] == 0xED ==>
                   EDLength(m[Word(at + 2)]) == EDLength(m[Word(at + 3)])))
            && ListedLength(m, at) <= 5 && Length(v) <= 3
  {
    hide MainLength, EDLength, Word;
    TableLengths(IndexOf(v.ctl.prefix), Opcode(v));
    TableLengths(HL, v.core.mem[Word(at + 3)]);
    TableLengths(IndexOf(PrefixAt(v.core.mem, at)), OpcodeAt(v.core.mem, at));
    CursorSteps(at, 1);
  }

  /** A second index prefix is always a disagreement: the disassembler calls it an instruction of
      two bytes, while the CPU has read those two bytes and still has a prefix pending. */
  lemma StackedPrefixDisagrees(s: State)
    requires AtInstruction(s)
    requires IsIndexOp(s.core.mem[PC(s)]) && IsIndexOp(s.core.mem[Word(PC(s) + 1)])
    ensures ListedLength(s.core.mem, PC(s)) == 2
    ensures PC(After(s, 2)) == Word(PC(s) + 2) && Indexed(After(s, 2))
  {
    hide Pass, Inv, Accepts;
    var at: int := PC(s);
    PrefixPass(s, s.core.mem[at]);
    PrefixPass(Pass(s), s.core.mem[Word(at + 1)]);
    assert After(s, 2) == After(Pass(s), 1) == After(Pass(Pass(s)), 0);
    WordPlus(at + 1, 1);
  }

  /** The target printed for DJNZ, JR and JR cc is the CPU's, modulo 2^16. */
  lemma TargetsAgree(s: State)
    requires AtInstruction(s)
    requires IsIndexOp(s.core.mem[PC(s)]) ==> !IsIndexOp(s.core.mem[Word(PC(s) + 1)])
    requires IsRelative(s.core.mem[MainOpcodeAt(s.core.mem, PC(s))])
    ensures var v, m := OpcodeState(s), s.core.mem;
            TargetOf(v) == if Taken(v.core.regs, Opcode(v) / 8 % 8)
                           then Goto(Word(ListedTarget(m, MainOpcodeAt(m, PC(s))))) else Stay
  {
    hide Inv, Accepts, After, OpcodeState, Taken, MainTarget, TargetOf, RelativeTarget, ListedTarget,
      IsRelative, Fetches, Fetched;
    ReachesOpcode(s);
    var v := OpcodeState(s);
    var at := MainOpcodeAt(s.core.mem, PC(s));
    AtMainOpcode(s.core.mem, PC(s));
    MainTable(v);
    RelativeJump(Fetched(v.core), IndexOf(v.ctl.prefix), Opcode(v), at);
    TakenAfterFetch(v.core, Opcode(v) / 8 % 8);
  }

  lemma TakenAfterFetch(c: Core, y: nat)
    requires y < 8
    ensures Taken(Fetched(c).regs, y) == Taken(c.regs, y) && Fetched(c).mem == c.mem
  {
  }

  lemma AtMainOpcode(m: Memory, at: word)
    requires IsRelative(m[MainOpcodeAt(m, at)])
    ensures MainOpcodeAt(m, at) == Word(at + (Fetches(m, at) - 1)) && Fetches(m, at) <= 2
    ensures m[at] == 0xDD || m[at] == 0xFD <==> Fetches(m, at) == 2
  {
  }

  lemma RelativeJump(c: Core, x: Index, op: byte, at: word)
    requires IsRelative(op)
    ensures MainTarget(c, x, op, at) ==
      if Taken(c.regs, op / 8 % 8) then Goto(Word(ListedTarget(c.mem, at))) else Stay
  {
    var d: int := Signed8(c.mem[Word(at + 1)]);
    WordPlus(at + 2, d);
    hide Taken;
  }
}
