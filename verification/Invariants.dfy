/** What every pass of the CPU loop keeps, and what it costs. */
module Invariants {
  import opened Bytes
  import opened Registers
  import opened Z80

  /** The values the 16-bit `prefix` field can hold between passes. */
  predicate LegalPrefix(p: word) {
    p == 0 || p == 0xCB || p == 0xED00 || p == 0xDD00 || p == 0xFD00 || p == 0xDDCB || p == 0xFDCB
  }

  predicate Inv(s: State) {
    && LegalPrefix(s.ctl.prefix)
    && (s.ctl.halted ==> s.ctl.prefix == 0)
    && s.ctl.iff1 == s.ctl.iff2
  }

  /** DD or FD was fetched and its instruction is still to come. */
  predicate Indexed(s: State) { s.ctl.prefix == 0xDD00 || s.ctl.prefix == 0xFD00 }

  lemma ControlKeepsInv(s: State)
    requires Inv(s) && !s.ctl.halted
    ensures Inv(State(s.core, ControlOf(s)))
  {
  }

  lemma PassKeepsInv(s: State)
    requires Inv(s)
    ensures Inv(Pass(s))
  {
    hide Effect;
    if !s.ctl.halted { ControlKeepsInv(Unwait(s)); }
  }

  lemma ControlPrefix(s: State)
    requires Inv(s) && !s.ctl.halted
    ensures ControlOf(s).prefix ==
      if TableOf(s.ctl.prefix) != TableMain then 0
      else if Opcode(s) == 0xCB then s.ctl.prefix + 0xCB
      else if Opcode(s) == 0xDD then 0xDD00
      else if Opcode(s) == 0xED then 0xED00
      else if Opcode(s) == 0xFD then 0xFD00
      else 0
  {
  }

  lemma TimeBounds(s: State)
    requires Inv(s)
    ensures 4 <= Time(s) <= 22
    ensures TableOf(s.ctl.prefix) == TableMain && IsPrefixOp(Opcode(s)) ==> Time(s) == 4
    ensures s.ctl.prefix == 0 ==> Time(s) <= 19
    ensures s.ctl.prefix == 0xCB ==> Time(s) <= 10
    ensures s.ctl.prefix == 0xED00 ==> Time(s) <= 17
  {
    MainTimeBounds(IndexOf(s.ctl.prefix), Opcode(s), TargetOf(s) != Stay);
  }

  lemma MainTimeBounds(x: Index, op: byte, jumps: bool)
    ensures 4 <= MainTime(x, op, jumps) <= if x == HL then 19 else 22
    ensures IsPrefixOp(op) ==> MainTime(x, op, jumps) == 4
  {
  }

  lemma CostBounds(s: State)
    requires Inv(s)
    ensures 1 <= Cost(s) <= 22
    ensures s.ctl.prefix == 0 ==> Cost(s) <= 19
  {
    TimeBounds(s);
  }
}
