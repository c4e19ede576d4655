/** Whole runs of `cpu_execute`: slicing the budget, termination and overshoot. */
module Runs {
  import opened Bytes
  import opened Registers
  import opened Z80
  import opened Invariants

  /** The state after `n` passes of the loop. How far a budget reaches does not affect it. */
  function After(s: State, n: nat): State
    decreases n
  {
    if n == 0 then s else After(Pass(s), n - 1)
  }

  /** The cycles `n` passes cost. */
  function Spent(s: State, n: nat): nat
    decreases n
  {
    if n == 0 then 0 else Cost(s) + Spent(Pass(s), n - 1)
  }

  /** The loop condition fails: the budget is used up and no prefix is pending. */
  predicate Done(s: State, cycles: int, n: nat) {
    Spent(s, n) >= cycles && After(s, n).ctl.prefix == 0
  }

  /** `cpu_execute(cycles)` started in `s` leaves the loop after exactly `n` passes. */
  ghost predicate Exits(s: State, cycles: int, n: nat) {
    Done(s, cycles, n) && forall m: nat :: m < n ==> !Done(s, cycles, m)
  }

  lemma {:induction false} AfterAdd(s: State, m: nat, n: nat)
    ensures After(s, m + n) == After(After(s, m), n)
    ensures Spent(s, m + n) == Spent(s, m) + Spent(After(s, m), n)
    decreases m
  {
    hide Pass, Cost;
    if m > 0 { AfterAdd(Pass(s), m - 1, n); }
  }

  lemma {:induction false} RunKeepsInv(s: State, n: nat)
    requires Inv(s)
    ensures Inv(After(s, n))
    decreases n
  {
    hide Pass, Cost, Inv;
    if n > 0 {
      PassKeepsInv(s);
      RunKeepsInv(Pass(s), n - 1);
    }
  }

  lemma {:induction false} SpentGrows(s: State, n: nat)
    requires Inv(s)
    ensures n <= Spent(s, n)
    decreases n
  {
    hide Pass, Cost, Inv;
    if n > 0 {
      PassKeepsInv(s);
      CostBounds(s);
      SpentGrows(Pass(s), n - 1);
    }
  }

  /** Time slicing is invisible: running `a` cycles and then what is left of `b` more goes
      through the same passes as running `a + b` at once, and leaves the same remainder. */
  lemma TimeSlicing(s: State, a: int, b: nat, n1: nat, n2: nat)
    requires Exits(s, a, n1)
    ensures var s1 := After(s, n1);
            var left := a - Spent(s, n1);
            && (Exits(s, a + b, n1 + n2) <==> Exits(s1, b + left, n2))
            && After(s, n1 + n2) == After(s1, n2)
            && (a + b) - Spent(s, n1 + n2) == (b + left) - Spent(s1, n2)
  {
    hide Pass, Cost;
    var s1 := After(s, n1);
    var total, rest := a + b, b + (a - Spent(s, n1));
    AfterAdd(s, n1, n2);
    forall m: nat, k: nat | k == n1 + m
      ensures Done(s, total, k) <==> Done(s1, rest, m)
    {
      AfterAdd(s, n1, m);
    }
    if Exits(s1, rest, n2) {
      forall k: nat | k < n1 + n2
        ensures !Done(s, total, k)
      {
        assert k < n1 ==> !Done(s, a, k);
        if k >= n1 { assert !Done(s1, rest, k - n1); }
      }
    }
    if Exits(s, total, n1 + n2) {
      forall m: nat | m < n2
        ensures !Done(s1, rest, m)
      {
        assert !Done(s, total, n1 + m);
      }
    }
  }

  /** The number of passes is determined, and a longer budget never stops earlier. */
  lemma ExitsOnce(s: State, a: int, b: nat, m: nat, n: nat)
    requires Exits(s, a, m) && Exits(s, a + b, n)
    ensures m <= n
    ensures b == 0 ==> m == n
  {
    hide After, Spent;
    assert Done(s, a, n);
  }

  /** Every call ends with no prefix pending and a result that is not positive. */
  lemma ExitState(s: State, cycles: int, n: nat)
    requires Exits(s, cycles, n)
    ensures After(s, n).ctl.prefix == 0 && cycles - Spent(s, n) <= 0
    ensures cycles <= 0 && s.ctl.prefix == 0 ==> n == 0
  {
    assert cycles <= 0 && s.ctl.prefix == 0 ==> Done(s, cycles, 0);
  }

  // ----- termination

  /** Every byte of memory is an index prefix and one is pending: no instruction ever completes. */
  predicate Stuck(s: State) {
    Indexed(s) && forall a: word :: s.core.mem[a] == 0xDD || s.core.mem[a] == 0xFD
  }

  /** With a prefix pending, a pass always carries out an opcode. */
  lemma PrefixedPass(s: State)
    requires Inv(s) && s.ctl.prefix != 0
    ensures Pass(s) == Exec(s) && Exec(s).ctl == ControlOf(s)
  {
    hide Effect, ControlOf;
  }

  /** Fetching one more byte while an index prefix is pending. */
  lemma IndexStep(s: State)
    requires Inv(s) && Indexed(s)
    ensures var op := s.core.mem[PC(s)];
            && (op == 0xDD || op == 0xFD ==>
                  Indexed(Pass(s)) && Pass(s).core.mem == s.core.mem && PC(Pass(s)) == Word(PC(s) + 1))
            && (op == 0xCB || op == 0xED ==> !Indexed(Pass(s)) && Pass(s).ctl.prefix != 0)
            && (!IsPrefixOp(op) ==> Pass(s).ctl.prefix == 0)
  {
    ControlPrefix(s);
    PrefixedPass(s);
    hide ControlOf, Pass;
    var op := s.core.mem[PC(s)];
    if op == 0xDD || op == 0xFD { PrefixFetch(s, op); }
  }

  /** A prefix byte changes nothing but PC, R and the prefix. */
  lemma PrefixFetch(s: State, op: byte)
    requires Inv(s) && !Accepts(s) && !s.ctl.halted
    requires TableOf(s.ctl.prefix) == TableMain && s.core.mem[PC(s)] == op && IsPrefixOp(op)
    ensures Pass(s) == State(s.core.(regs := s.core.regs.(pc := Word(PC(s) + 1), r := Refresh(s.core.regs.r))),
                             MainControl(Unwait(s).ctl, op))
    ensures Cost(s) == 4
  {
    PrefixEffect(Fetched(s.core), IndexOf(s.ctl.prefix), op, PC(s));
    hide Main, MainTarget, MainLength;
  }

  lemma PrefixEffect(c: Core, x: Index, op: byte, at: word)
    requires IsPrefixOp(op)
    ensures Main(c, x, op, at) == c
    ensures MainTarget(c, x, op, at) == Stay
    ensures MainLength(x, op) == 1
    ensures MainTime(x, op, false) == 4
  {
    PrefixTables(c, x, op, at);
    hide Main0, Main1, Main2, Time0, Taken, Push, Alu, Main31, MainTarget, MainLength, MainTime;
  }

  lemma PrefixTables(c: Core, x: Index, op: byte, at: word)
    requires IsPrefixOp(op)
    ensures MainTarget(c, x, op, at) == Stay
    ensures MainLength(x, op) == 1
    ensures MainTime(x, op, false) == 4
  {
    hide Time0, Taken;
  }

  lemma {:induction false} StuckForever(s: State, n: nat)
    requires Inv(s) && Stuck(s)
    ensures Stuck(After(s, n))
    decreases n
  {
    hide Pass, Cost, Inv;
    if n > 0 {
      assert Stuck(Pass(s)) by { IndexStep(s); }
      PassKeepsInv(s);
      StuckForever(Pass(s), n - 1);
    }
  }

  /** Follows the prefix run at PC to its end, `j` bytes on. */
  lemma {:induction false} LeavesPrefixRun(s: State, j: nat) returns (k: nat)
    requires Inv(s) && Indexed(s)
    requires var b := s.core.mem[Word(PC(s) + j)]; b != 0xDD && b != 0xFD
    ensures After(s, k).ctl.prefix == 0
    decreases j
  {
    hide Pass, Inv;
    IndexStep(s);
    PassKeepsInv(s);
    var op := s.core.mem[PC(s)];
    if op == 0xDD || op == 0xFD {
      assert j > 0;
      assert Word(Word(PC(s) + 1) + (j - 1)) == Word(PC(s) + j);
      k := LeavesPrefixRun(Pass(s), j - 1);
    } else {
      k := 0;
      if Pass(s).ctl.prefix != 0 { k := Completes(Pass(s)); }
    }
    k := k + 1;
  }

  /** A pending CB, ED or DDCB prefix is resolved by the next pass. */
  lemma Completes(s: State) returns (k: nat)
    requires Inv(s) && !Indexed(s)
    ensures After(s, k).ctl.prefix == 0
  {
    hide Pass, Exec, ControlOf;
    if s.ctl.prefix == 0 { return 0; }
    ControlPrefix(s);
    PrefixedPass(s);
    return 1;
  }

  lemma Resolves(s: State) returns (k: nat)
    requires Inv(s) && !Stuck(s)
    ensures After(s, k).ctl.prefix == 0
  {
    hide Pass, Inv;
    if Indexed(s) {
      var a: word :| s.core.mem[a] != 0xDD && s.core.mem[a] != 0xFD;
      var j := Word(a - PC(s));
      assert Word(PC(s) + j) == a;
      k := LeavesPrefixRun(s, j);
    } else {
      k := Completes(s);
    }
  }

  lemma {:induction false} FirstExit(s: State, cycles: int, n: nat) returns (k: nat)
    requires Done(s, cycles, n)
    ensures Exits(s, cycles, k) && k <= n
    decreases n
  {
    hide Pass, Cost, Done;
    if m: nat :| m < n && Done(s, cycles, m) {
      k := FirstExit(s, cycles, m);
    } else {
      k := n;
    }
  }

  /** Pass `k` of the call finds the machine stuck. */
  ghost predicate GetsStuck(s: State, cycles: int, k: nat) {
    Stuck(After(s, k)) && forall m: nat :: m < k ==> !Done(s, cycles, m)
  }

  /** `cpu_execute` returns unless it runs into a memory that is one endless prefix run. */
  lemma Termination(s: State, cycles: int)
    requires Inv(s)
    ensures (exists n: nat :: Exits(s, cycles, n)) <==> !exists k: nat :: GetsStuck(s, cycles, k)
  {
    hide Pass, Cost, Inv, Stuck;
    if k: nat :| GetsStuck(s, cycles, k) {
      forall n: nat ensures !Exits(s, cycles, n) { StuckNeverDone(s, cycles, k, n); }
    } else {
      var enough := if cycles > 0 then cycles else 0;
      var e := After(s, enough);
      RunKeepsInv(s, enough);
      SpentGrows(s, enough);
      if Stuck(e) {
        assert !GetsStuck(s, cycles, enough);
        var m: nat :| m < enough && Done(s, cycles, m);
        var n := FirstExit(s, cycles, m);
      } else {
        var j := Resolves(e);
        AfterAdd(s, enough, j);
        var n := FirstExit(s, cycles, enough + j);
      }
    }
  }

  lemma StuckNeverDone(s: State, cycles: int, k: nat, n: nat)
    requires Inv(s) && GetsStuck(s, cycles, k)
    ensures !Done(s, cycles, n)
  {
    hide Pass, Cost, Inv;
    if n >= k {
      RunKeepsInv(s, k);
      StuckForever(After(s, k), n - k);
      AfterAdd(s, k, n - k);
    }
  }

  // ----- overshoot

  /** No second index prefix follows the one pending. */
  predicate Unstacked(s: State) {
    Indexed(s) ==> s.core.mem[PC(s)] != 0xDD && s.core.mem[PC(s)] != 0xFD
  }

  /** The least budget with which an unstacked run can still be inside the loop. */
  function Least(s: State): int {
    if s.ctl.prefix == 0 then 1 else if Indexed(s) || s.ctl.prefix == 0xCB then -3 else -7
  }

  lemma LeastStep(s: State, budget: int)
    requires Inv(s) && Unstacked(s) && budget >= Least(s)
    ensures budget - Cost(s) >= -29
    ensures Pass(s).ctl.prefix != 0 ==> budget - Cost(s) >= Least(Pass(s))
  {
    TimeBounds(s);
    CostBounds(s);
    if !s.ctl.halted && !Accepts(s) {
      ControlPrefix(Unwait(s));
      assert Pass(s).ctl == ControlOf(Unwait(s)) by { hide Effect, ControlOf; }
      assert Opcode(Unwait(s)) == Opcode(s);
    }
    hide Pass, Time, ControlOf, MainTime, EDTime, CBTime, Opcode;
  }

  lemma {:induction false} OvershootFrom(s: State, budget: int, n: nat)
    requires Inv(s) && budget >= Least(s) && Exits(s, budget, n)
    requires forall k: nat :: k < n ==> Unstacked(After(s, k))
    ensures -29 <= budget - Spent(s, n) <= 0
    decreases n
  {
    hide Pass, Cost, Inv, Unstacked;
    assert n > 0;
    var rest := budget - Cost(s);
    assert Unstacked(After(s, 0));
    LeastStep(s, budget);
    PassKeepsInv(s);
    if n > 1 {
      assert !Done(s, budget, 1);
      assert rest >= Least(Pass(s));
      forall k: nat | k < n - 1 ensures Unstacked(After(Pass(s), k)) && !Done(Pass(s), rest, k) {
        assert Unstacked(After(s, k + 1)) && !Done(s, budget, k + 1);
      }
      OvershootFrom(Pass(s), rest, n - 1);
    }
  }

  /** A positive budget is overshot by at most 29 cycles, one less than DD CB d op costs. */
  lemma Overshoot(s: State, cycles: int, n: nat)
    requires Inv(s) && s.ctl.prefix == 0 && cycles > 0 && Exits(s, cycles, n)
    requires forall k: nat :: k < n ==> Unstacked(After(s, k))
    ensures -29 <= cycles - Spent(s, n) <= 0
  {
    OvershootFrom(s, cycles, n);
  }

  /** Whatever prefixes pile up, the overshoot is less than the cost of the last instruction:
      the one that began in pass `m`, while the budget still lasted. */
  lemma {:induction false} LastInstruction(s: State, cycles: int, n: nat) returns (m: nat)
    requires s.ctl.prefix == 0 && cycles > 0 && Exits(s, cycles, n)
    ensures m < n && After(s, m).ctl.prefix == 0 && Spent(s, m) < cycles
    ensures forall k: nat :: m < k < n ==> After(s, k).ctl.prefix != 0
    ensures Spent(s, n) - cycles < Spent(After(s, m), n - m)
  {
    hide Pass, Cost;
    assert Spent(s, 0) == 0;
    m := n - 1;
    while After(s, m).ctl.prefix != 0
      invariant m < n
      decreases m
      invariant forall k: nat :: m < k < n ==> After(s, k).ctl.prefix != 0
    {
      m := m - 1;
    }
    assert !Done(s, cycles, m);
    AfterAdd(s, m, n - m);
  }
}
