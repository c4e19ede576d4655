/** When `cpu_execute` takes an interrupt, and what it comes back to. */
module CpuInterrupts {
  import opened Bytes
  import opened Registers
  import opened Z80
  import opened Invariants
  import opened Runs

  /** The pass started in `s` carries out the main-table opcode `op`. */
  predicate Executes(s: State, op: byte) {
    !Accepts(s) && !s.ctl.halted && TableOf(s.ctl.prefix) == TableMain && s.core.mem[PC(s)] == op
  }

  lemma ExecutesControl(s: State, op: byte)
    requires Executes(s, op)
    ensures Pass(s).ctl == MainControl(Unwait(s).ctl, op)
  {
    hide Effect, MainControl, EDControl;
  }

  /** Interrupts are never taken with a prefix pending, or with IFF1 and IFF2 clear; taking one
      in mode 1 or 2 clears both, so no second one follows until an EI. */
  lemma AcceptedOnlyBetweenInstructions(s: State, n: nat)
    requires Inv(s) && Accepts(After(s, n))
    ensures var u := After(s, n);
            && u.ctl.prefix == 0 && u.ctl.iff1 && u.ctl.iff2 && !u.ctl.iffWait
            && (u.ctl.im == 1 || u.ctl.im == 2 ==>
                  !After(s, n + 1).ctl.iff1 && !After(s, n + 1).ctl.iff2 && !Accepts(After(s, n + 1)))
  {
    RunKeepsInv(s, n);
    AfterAdd(s, n, 1);
    var u := After(s, n);
    assert Accept(u).ctl.iff2 ==> u.ctl.im != 1 && u.ctl.im != 2;
    assert After(u, 1) == Accept(u) by { hide Accept; }
  }

  lemma EiWaits(s: State)
    requires Inv(s) && Executes(s, 0xFB)
    ensures !Accepts(After(s, 1)) && !After(s, 1).ctl.halted && After(s, 1).ctl.prefix == 0
  {
    ExecutesControl(s, 0xFB);
    hide Pass, Cost;
    assert After(s, 1) == After(Pass(s), 0);
  }

  lemma AcceptsUnprefixed(s: State, n: nat)
    requires Inv(s) && Accepts(After(s, n))
    ensures After(s, n).ctl.prefix == 0
  {
    RunKeepsInv(s, n);
    hide Pass;
  }

  /** After EI, one whole instruction is fetched and completed before an interrupt is taken. */
  lemma {:induction false} EiDelay(s: State, n: nat) returns (done: nat)
    requires Inv(s) && Executes(s, 0xFB) && 0 < n && Accepts(After(s, n))
    ensures 1 < done <= n
    ensures !Accepts(After(s, 1)) && !After(s, 1).ctl.halted && After(s, 1).ctl.prefix == 0
    ensures forall k: nat :: 1 < k < done ==> After(s, k).ctl.prefix != 0
    ensures After(s, done).ctl.prefix == 0
  {
    EiWaits(s);
    hide Pass, Cost, Accepts, Executes, Inv, After;
    assert n != 1;
    AcceptsUnprefixed(s, n);
    done := 2;
    while After(s, done).ctl.prefix != 0
      invariant 1 < done <= n
      invariant forall k: nat :: 1 < k < done ==> After(s, k).ctl.prefix != 0
      decreases n - done
    {
      done := done + 1;
    }
  }

  lemma PushThenTop(c: Core, w: word)
    ensures Top(Push(c, w)) == w
    ensures Word(Push(c, w).regs.sp + 2) == c.regs.sp
  {
  }

  /** The word an accepted interrupt pushes is the PC it found, and popping it restores SP:
      a handler that leaves its stack as it found it returns to where it interrupted. */
  lemma ReturnsWhereInterrupted(s: State)
    requires Accepts(s) && (s.ctl.im == 1 || s.ctl.im == 2)
    ensures var u := Pass(s);
            && Top(u.core) == PC(s) && Drop(u.core.regs).sp == s.core.regs.sp
            && PC(u) == (if s.ctl.im == 1 then 0x38 else Pair(s.core.regs.i, s.ctl.bus))
            && u.core.regs == s.core.regs.(sp := Word(s.core.regs.sp - 2), pc := PC(u))
            && !u.ctl.halted
  {
    PushThenTop(s.core, PC(s));
  }

  /** The ED byte of an instruction is fetched. */
  lemma EDFetch(s: State)
    requires Inv(s) && Executes(s, 0xED)
    ensures var v := Pass(s);
            && v.core == s.core.(regs := s.core.regs.(pc := Word(PC(s) + 1), r := Refresh(s.core.regs.r)))
            && v.ctl == Unwait(s).ctl.(prefix := 0xED00)
            && Cost(s) == 4
  {
    PrefixFetch(s, 0xED);
    hide Pass, Cost;
  }

  /** A block instruction that is to go round again leaves PC on its own first byte, so the
      address an interrupt pushes restarts it. */
  lemma InterruptedBlock(s: State)
    requires Inv(s) && Executes(s, 0xED)
    requires IsBlock(s.core.mem[Word(PC(s) + 1)]) && TargetOf(Pass(s)) != Stay
    ensures var u := Pass(Pass(s));
            && PC(u) == PC(s) && u.ctl.prefix == 0
            && (Accepts(u) && (u.ctl.im == 1 || u.ctl.im == 2) ==> Top(Pass(u).core) == PC(s))
  {
    BackToStart(PC(s));
    hide Pass, Exec, Inv, TargetOf, ControlOf, Accepts, Cost, Unwait, Top, Word;
    EDFetch(s);
    PassKeepsInv(s);
    var v := Pass(s);
    PrefixedPass(v);
    BlockLanding(v);
    var u := Pass(v);
    if Accepts(u) && (u.ctl.im == 1 || u.ctl.im == 2) { ReturnsWhereInterrupted(u); }
  }

  lemma BackToStart(a: word)
    ensures Word(Word(a + 1) - 1) == a
  {
  }

  lemma BlockLanding(v: State)
    requires v.ctl.prefix == 0xED00 && IsBlock(v.core.mem[PC(v)]) && TargetOf(v) != Stay
    ensures PC(Exec(v)) == Word(PC(v) - 1) && ControlOf(v).prefix == 0
  {
    hide Effect, ED;
  }

  /** HALT waits with PC behind it, four cycles a pass, and an interrupt resumes there. */
  lemma {:induction false} InterruptedHalt(s: State, n: nat)
    requires Inv(s) && Executes(s, 0x76)
    requires forall k: nat :: 0 < k <= n ==> !Accepts(After(s, k))
    ensures var u := After(s, n + 1);
            && PC(u) == Word(PC(s) + 1) && u.ctl.halted && Spent(s, n + 1) == 4 + 4 * n
            && (Accepts(u) && (u.ctl.im == 1 || u.ctl.im == 2) ==>
                  Top(Pass(u).core) == Word(PC(s) + 1) && !Pass(u).ctl.halted)
    decreases n
  {
    ExecutesControl(s, 0x76);
    assert PC(Pass(s)) == Word(PC(s) + 1) && Cost(s) == 4 by { HaltFetch(s); }
    Waiting(Pass(s), n) by {
      forall k: nat | k < n ensures !Accepts(After(Pass(s), k)) { assert !Accepts(After(s, k + 1)); }
    }
    var u := After(s, n + 1);
    if Accepts(u) && (u.ctl.im == 1 || u.ctl.im == 2) { ReturnsWhereInterrupted(u); }
    hide Pass, Cost;
  }

  lemma HaltFetch(s: State)
    requires Executes(s, 0x76)
    ensures PC(Pass(s)) == Word(PC(s) + 1) && Cost(s) == 4
  {
    hide Effect;
  }

  lemma {:induction false} Waiting(s: State, n: nat)
    requires s.ctl.halted && forall k: nat :: k < n ==> !Accepts(After(s, k))
    ensures PC(After(s, n)) == PC(s) && After(s, n).ctl.halted && Spent(s, n) == 4 * n
    decreases n
  {
    if n > 0 {
      assert !Accepts(After(s, 0));
      assert Pass(s) == Unwait(s) && Cost(s) == 4;
      forall k: nat | k < n - 1 ensures !Accepts(After(Pass(s), k)) { assert !Accepts(After(s, k + 1)); }
      Waiting(Pass(s), n - 1);
      hide Pass, Cost;
    }
  }

  /** Interrupt mode 0 is not emulated: while the line is up the CPU executes nothing at all. */
  lemma {:induction false} Mode0Stalls(s: State, n: nat)
    requires Accepts(s) && s.ctl.im == 0
    ensures After(s, n) == if n == 0 then s else s.(ctl := s.ctl.(halted := false))
    ensures Spent(s, n) == n
    decreases n
  {
    if n > 0 {
      assert Pass(s) == s.(ctl := s.ctl.(halted := false)) && Cost(s) == 1;
      Mode0Stalls(Pass(s), n - 1);
      hide Pass, Cost;
    }
  }
}
