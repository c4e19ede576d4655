/** `runloop_tick_cycles`: plan the timer ticks of a window, sort them, and interleave them with a
    CPU that overshoots. */
module RunLoop {
  import opened Timers

  datatype Tick = Tick(index: nat, after: int)

  // ----- what is planned

  /** start, start + period, ... as far as `cycles`. */
  function Times(start: int, period: int, cycles: int): seq<int>
    requires period >= 1
    decreases cycles - start
  {
    if start > cycles then [] else [start] + Times(start + period, period, cycles)
  }

  function TicksAt(i: nat, times: seq<int>): seq<Tick> {
    if times == [] then [] else [Tick(i, times[0])] + TicksAt(i, times[1..])
  }

  predicate Ticks(t: Timer, cycles: int) { t.inUse && t.untilTick < cycles }

  function PlanOf(i: nat, t: Timer, cycles: int): seq<Tick>
    requires t.inUse ==> t.period >= 1
  {
    if Ticks(t, cycles) then TicksAt(i, Times(t.untilTick, t.period, cycles)) else []
  }

  /** A timer that ticked starts a full period afresh; any other in use just counts down. */
  function TimerAfter(t: Timer, cycles: int): Timer {
    if Ticks(t, cycles) then t.(untilTick := t.period)
    else if t.inUse then t.(untilTick := t.untilTick - cycles)
    else t
  }

  predicate Periodic(ts: seq<Timer>) { forall i :: 0 <= i < |ts| && ts[i].inUse ==> ts[i].period >= 1 }

  predicate NotOverdue(ts: seq<Timer>) { forall i :: 0 <= i < |ts| && ts[i].inUse ==> ts[i].untilTick >= 0 }

  /** The plan for the first `n` slots. */
  function Plan(ts: seq<Timer>, n: nat, cycles: int): seq<Tick>
    requires n <= |ts| && Periodic(ts)
  {
    if n == 0 then [] else Plan(ts, n - 1, cycles) + PlanOf(n - 1, ts[n - 1], cycles)
  }

  /** The times of one timer are exactly the instants start + k * period up to `cycles`. */
  lemma {:induction false} TimesExact(start: int, period: int, cycles: int)
    requires period >= 1
    ensures var ts := Times(start, period, cycles);
            && (forall k :: 0 <= k < |ts| ==> ts[k] == start + k * period && ts[k] <= cycles)
            && start + |ts| * period > cycles
    decreases cycles - start
  {
    if start <= cycles {
      TimesExact(start + period, period, cycles);
      var ts, rest := Times(start, period, cycles), Times(start + period, period, cycles);
      forall k | 0 <= k < |ts| ensures ts[k] == start + k * period && ts[k] <= cycles {
        if k > 0 {
          assert ts[k] == rest[k - 1];
          Distribute(k - 1, period);
        }
      }
      Distribute(|rest|, period);
    }
  }

  lemma Distribute(k: int, p: int)
    ensures (k + 1) * p == k * p + p
  {
  }

  lemma {:induction false} TicksAtForm(i: nat, times: seq<int>)
    ensures |TicksAt(i, times)| == |times|
    ensures forall k :: 0 <= k < |times| ==> TicksAt(i, times)[k] == Tick(i, times[k])
  {
    if times != [] { TicksAtForm(i, times[1..]); }
  }

  /** A timer with its first tick before the window ends ticks at every whole number of periods on
      from it within the window, the end included. */
  ghost predicate Due(t: Timer, cycles: int, after: int) {
    Ticks(t, cycles) && after <= cycles && exists k: nat :: after == t.untilTick + k * t.period
  }

  /** Every slot's ticks are planned, and only those. */
  lemma {:induction false} PlanExact(ts: seq<Timer>, n: nat, cycles: int, i: nat, after: int)
    requires n <= |ts| && Periodic(ts)
    ensures Tick(i, after) in Plan(ts, n, cycles) <==> i < n && Due(ts[i], cycles, after)
  {
    hide Due, PlanOf;
    if n > 0 {
      PlanExact(ts, n - 1, cycles, i, after);
      PlanOfExact(n - 1, ts[n - 1], cycles, i, after);
    }
  }

  lemma PlanOfExact(j: nat, t: Timer, cycles: int, i: nat, after: int)
    requires t.inUse ==> t.period >= 1
    ensures Tick(i, after) in PlanOf(j, t, cycles) <==>
            i == j && Due(t, cycles, after)
  {
    if Ticks(t, cycles) {
      var times := Times(t.untilTick, t.period, cycles);
      TimesExact(t.untilTick, t.period, cycles);
      TicksAtForm(j, times);
      if Tick(i, after) in PlanOf(j, t, cycles) {
        var k :| 0 <= k < |times| && TicksAt(j, times)[k] == Tick(i, after);
        assert after == t.untilTick + k * t.period;
      }
      if k: nat :| i == j && after <= cycles && after == t.untilTick + k * t.period {
        if k >= |times| { Monotone(|times|, k, t.period); }
        assert TicksAt(j, times)[k] == Tick(i, after);
      }
    }
  }

  lemma Monotone(a: nat, b: nat, p: int)
    requires a <= b && p >= 1
    ensures a * p <= b * p
  {
  }

  // ----- from window to window

  /** The timers after windows of these many cycles. */
  function Later(ts: seq<Timer>, windows: seq<nat>): (r: seq<Timer>)
    requires Periodic(ts)
    ensures |r| == |ts| && Periodic(r)
    decreases |windows|
  {
    if windows == [] then ts
    else
      var before := Later(ts, windows[..|windows| - 1]);
      seq(|ts|, i requires 0 <= i < |ts| => TimerAfter(before[i], windows[|windows| - 1]))
  }

  function Total(windows: seq<nat>): nat {
    if windows == [] then 0 else Total(windows[..|windows| - 1]) + windows[|windows| - 1]
  }

  /** Nothing is lost of a countdown: as long as the windows do not outlast it, what is left and
      what has passed add up to what it was. A free slot stays as it is. */
  lemma {:induction false} CountsDown(ts: seq<Timer>, windows: seq<nat>, i: nat)
    requires Periodic(ts) && i < |ts|
    ensures var t, r := ts[i], Later(ts, windows)[i];
            && (t.inUse && Total(windows) <= t.untilTick ==>
                  r == t.(untilTick := r.untilTick) && r.untilTick + Total(windows) == t.untilTick)
            && (!t.inUse ==> r == t)
    decreases |windows|
  {
    if windows != [] {
      CountsDown(ts, windows[..|windows| - 1], i);
    }
  }

  /** Over any windows, a timer first ticks in the one in which the cycles so far pass its
      countdown, at exactly the remaining distance, and starts its period afresh when that window
      ends. The windows before it plan no tick for the timer, and none ever does for a free slot. */
  lemma FirstTick(ts: seq<Timer>, windows: seq<nat>, cycles: nat, i: nat)
    requires Periodic(ts) && i < |ts|
    ensures var t, passed, plan := ts[i], Total(windows), Plan(Later(ts, windows), |ts|, cycles);
            && (t.inUse && passed + cycles <= t.untilTick ==> forall after: int :: Tick(i, after) !in plan)
            && (t.inUse && passed <= t.untilTick < passed + cycles ==>
                  && Tick(i, t.untilTick - passed) in plan
                  && (forall after: int :: Tick(i, after) in plan ==> after >= t.untilTick - passed)
                  && Later(ts, windows + [cycles])[i] == t.(untilTick := t.period))
            && (!t.inUse ==> forall after: int :: Tick(i, after) !in plan)
  {
    var t, passed, before := ts[i], Total(windows), Later(ts, windows);
    CountsDown(ts, windows, i);
    assert (windows + [cycles])[..|windows|] == windows;
    forall after: int
      ensures Tick(i, after) in Plan(before, |ts|, cycles) <==> Due(before[i], cycles, after)
      ensures Due(before[i], cycles, after) ==> after >= before[i].untilTick
    {
      PlanExact(before, |ts|, cycles, i, after);
      if Due(before[i], cycles, after) {
        var k: nat :| after == before[i].untilTick + k * before[i].period;
        Monotone(0, k, before[i].period);
      }
    }
    if t.inUse && passed <= t.untilTick < passed + cycles {
      DueAtOnce(before[i], cycles);
    }
    hide Due, Plan;
  }

  lemma DueAtOnce(t: Timer, cycles: int)
    requires Ticks(t, cycles)
    ensures Due(t, cycles, t.untilTick)
  {
    assert t.untilTick == t.untilTick + 0 * t.period;
  }

  /** Between windows the table is all that counts: going on after some windows is going on from
      the table they leave. So `FirstTick` also tells of every later tick. */
  lemma {:induction false} LaterOn(ts: seq<Timer>, a: seq<nat>, b: seq<nat>)
    requires Periodic(ts)
    ensures Later(ts, a + b) == Later(Later(ts, a), b) && Total(a + b) == Total(a) + Total(b)
    decreases |b|
  {
    if b == [] {
      assert a + b == a;
    } else {
      LaterOn(ts, a, b[..|b| - 1]);
      assert (a + b)[..|a + b| - 1] == a + b[..|b| - 1];
    }
  }

  // ----- sorting

  predicate Ascending(ticks: seq<Tick>) {
    forall i, j :: 0 <= i < j < |ticks| ==> ticks[i].after <= ticks[j].after
  }

  function Insert(t: Tick, sorted: seq<Tick>): seq<Tick> {
    if sorted == [] || t.after <= sorted[0].after then [t] + sorted else [sorted[0]] + Insert(t, sorted[1..])
  }

  lemma {:induction false} InsertKeeps(t: Tick, sorted: seq<Tick>)
    ensures multiset(Insert(t, sorted)) == multiset(sorted) + multiset{t}
    ensures |Insert(t, sorted)| == |sorted| + 1
  {
    if sorted != [] && t.after > sorted[0].after {
      InsertKeeps(t, sorted[1..]);
      assert sorted == [sorted[0]] + sorted[1..];
    }
  }

  lemma {:induction false} InsertSorts(t: Tick, sorted: seq<Tick>)
    requires Ascending(sorted)
    ensures Ascending(Insert(t, sorted))
    ensures sorted != [] && t.after > sorted[0].after ==> Insert(t, sorted)[0] == sorted[0]
    ensures sorted == [] || t.after <= sorted[0].after ==> Insert(t, sorted)[0] == t
  {
    if sorted != [] && t.after > sorted[0].after {
      var rest := sorted[1..];
      InsertSorts(t, rest);
      assert sorted[0].after <= Insert(t, rest)[0].after;
    }
  }

  /** `qsort` with `runloop_compare`: all that is known of its result is what is ensured here. */
  method QSort(ticks: seq<Tick>) returns (sorted: seq<Tick>)
    ensures Ascending(sorted) && multiset(sorted) == multiset(ticks) && |sorted| == |ticks|
  {
    sorted := [];
    for i := 0 to |ticks|
      invariant Ascending(sorted) && multiset(sorted) == multiset(ticks[..i]) && |sorted| == i
    {
      InsertSorts(ticks[i], sorted);
      InsertKeeps(ticks[i], sorted);
      assert ticks[..i + 1] == ticks[..i] + [ticks[i]];
      sorted := Insert(ticks[i], sorted);
    }
    assert ticks[..|ticks|] == ticks;
  }

  // ----- one window

  /** A tick that was delivered, and the cycles run by then. */
  datatype Fired = Fired(tick: Tick, at: int)

  /** What `cpu_execute(cycles)` runs: nothing for no budget, otherwise all of it and an overshoot. */
  function Ran(cycles: int, overshoot: nat): nat { if cycles <= 0 then 0 else cycles + overshoot }

  /** Ticks come in plan order, each at most once, none early and none more than `k` late; those
      missed lie within `k` of the end of the window. */
  predicate Delivered(plan: seq<Tick>, fired: seq<Fired>, cycles: int, k: nat) {
    && |fired| <= |plan|
    && (forall i :: 0 <= i < |fired| ==> fired[i].tick == plan[i] && plan[i].after <= fired[i].at <= plan[i].after + k)
    && (forall i, j :: 0 <= i < j < |fired| ==> fired[i].at <= fired[j].at)
    && (forall i :: |fired| <= i < |plan| ==> cycles <= plan[i].after + k)
  }

  class Loop {
    const table: TimerTable
    var slots: seq<Tick>
    var spare: int

    /** `runloop_init` allocates forty slots. */
    constructor (table: TimerTable)
      ensures this.table == table && |slots| == 40
    {
      this.table, this.slots, this.spare := table, seq(40, _ => Tick(0, 0)), 0;
    }

    /** The planning loop; `junk` is what a reallocation leaves in the new slots. */
    method PlanWindow(cycles: int, junk: Tick) returns (n: nat)
      requires Periodic(table.timers) && |slots| > 0
      modifies this, table
      ensures n < |slots| && slots[..n] == Plan(old(table.timers), |old(table.timers)|, cycles)
      ensures |table.timers| == |old(table.timers)|
      ensures forall i :: 0 <= i < |table.timers| ==> table.timers[i] == TimerAfter(old(table.timers)[i], cycles)
    {
      hide Times, TicksAt;
      ghost var ts := table.timers;
      n := 0;
      for i := 0 to |table.timers|
        invariant |table.timers| == |ts| && n < |slots| && slots[..n] == Plan(ts, i, cycles)
        invariant forall j :: 0 <= j < i ==> table.timers[j] == TimerAfter(ts[j], cycles)
        invariant forall j :: i <= j < |ts| ==> table.timers[j] == ts[j]
      {
        var timer := table.timers[i];
        if timer.inUse {
          if timer.untilTick < cycles {
            n := PlanTimer(i, cycles, n, junk);
          } else {
            table.timers := table.timers[i := timer.(untilTick := timer.untilTick - cycles)];
          }
        }
      }
    }

    method Append(t: Tick, at: nat, junk: Tick) returns (n: nat)
      requires at < |slots|
      modifies this`slots
      ensures n == at + 1 < |slots| && slots[..n] == old(slots)[..at] + [t]
    {
      slots := slots[at := t];
      n := at + 1;
      if n == |slots| {
        slots := slots + seq(10, _ => junk);
      }
    }

    /** The inner loop, for a timer that ticks in the window. */
    method PlanTimer(i: nat, cycles: int, from: nat, junk: Tick) returns (n: nat)
      requires i < |table.timers| && table.timers[i].period >= 1 && Ticks(table.timers[i], cycles)
      requires from < |slots|
      modifies this`slots, table
      ensures n < |slots| && slots[..n] == old(slots)[..from] + PlanOf(i, old(table.timers)[i], cycles)
      ensures table.timers == old(table.timers)[i := TimerAfter(old(table.timers)[i], cycles)]
    {
      ghost var timer := table.timers[i];
      ghost var start := timer.untilTick;
      n := from;
      var left := cycles;
      var again := true;
      while again
        invariant n < |slots| && |table.timers| == |old(table.timers)|
        invariant again || table.timers[i].untilTick == timer.period
        invariant table.timers == old(table.timers)[i := timer.(untilTick := table.timers[i].untilTick)]
        invariant start == table.timers[i].untilTick + (cycles - left)
        invariant again <==> start <= cycles
        invariant slots[..n] + TicksAt(i, Times(start, timer.period, cycles))
                  == old(slots)[..from] + PlanOf(i, timer, cycles)
        decreases cycles - start + timer.period
      {
        ghost var here, before := start, slots[..n];
        n := Append(Tick(i, table.timers[i].untilTick + (cycles - left)), n, junk);
        left := left - table.timers[i].untilTick;
        table.timers := table.timers[i := table.timers[i].(untilTick := table.timers[i].period)];
        start := start + timer.period;
        TakeOne(i, before, here, timer.period, cycles);
        again := table.timers[i].untilTick <= left;
      }
      assert TicksAt(i, Times(start, timer.period, cycles)) == [];
    }

    /** A slot read past the allocation holds `junk`. */
    function SlotAt(i: nat, junk: Tick): Tick
      reads this
    {
      if i < |slots| then slots[i] else junk
    }

    /** The dispatch loop: `over` is how far each call of `cpu_execute` overshoots, at most `k`.
        Slots from `n` on hold ticks of earlier windows or junk; the loop looks at two of them. */
    method Dispatch(cycles: int, n: nat, over: nat -> nat, ghost k: nat, junk: Tick)
        returns (fired: seq<Fired>, total: int)
      requires n < |slots| && Ascending(slots[..n])
      requires forall i :: 0 <= i < n ==> 0 <= slots[i].after <= cycles
      requires forall c :: over(c) <= k
      modifies this`spare
      ensures Delivered(slots[..n], fired, cycles, k)
      ensures total + spare == cycles && (cycles > 0 ==> spare <= 0)
    {
      fired, total := [], 0;
      var left := cycles;
      var next := if n > 0 then slots[0].after else cycles;
      var tick, calls := 0, 0;
      while left > 0
        invariant total + left == cycles && total >= 0
        invariant |fired| == if tick <= n then tick else n
        invariant tick == 0 && n > 0 ==> total == 0
        invariant 0 < tick <= n ==> total == fired[tick - 1].at
        invariant left > 0 ==> tick <= n + 1
        invariant left > 0 ==> next == if tick == n + 1 || n == 0 then left else slots[tick].after - total
        invariant forall i :: 0 <= i < |fired| ==>
                  fired[i].tick == slots[i] && slots[i].after <= fired[i].at <= slots[i].after + k
        invariant forall i :: 0 <= i < |fired| ==> fired[i].at <= total
        invariant forall i, j :: 0 <= i < j < |fired| ==> fired[i].at <= fired[j].at
        decreases n + 2 - tick, if left > 0 then 1 else 0
      {
        var ran := Ran(next, over(calls));
        calls := calls + 1;
        total := total + ran;
        left := left - ran;
        if total >= SlotAt(tick, junk).after {
          tick := tick + 1;
          if tick <= n {
            fired := fired + [Fired(slots[tick - 1], total)];
            next := slots[tick].after - total;
          } else {
            next := left;
          }
        }
      }
      spare := left;
      assert forall i :: 0 <= i < n ==> slots[..n][i] == slots[i];
    }

    /** `runloop_tick_cycles`. The plan is sorted, and every tick is delivered or missed as
        `Delivered` says; all cycles run and the spare ones add up to the request. */
    method TickCycles(cycles: int, over: nat -> nat, ghost k: nat, junk: Tick)
        returns (ghost plan: seq<Tick>, fired: seq<Fired>, total: int)
      requires Periodic(table.timers) && NotOverdue(table.timers) && |slots| > 0
      requires forall c :: over(c) <= k
      modifies this, table
      ensures Ascending(plan)
      ensures multiset(plan) == multiset(Plan(old(table.timers), |old(table.timers)|, cycles))
      ensures Delivered(plan, fired, cycles, k)
      ensures total + spare == cycles && (cycles > 0 ==> spare <= 0)
      ensures |table.timers| == |old(table.timers)| && |slots| > 0
      ensures forall i :: 0 <= i < |table.timers| ==> table.timers[i] == TimerAfter(old(table.timers)[i], cycles)
      ensures Periodic(table.timers) && NotOverdue(table.timers)
    {
      ghost var ts := table.timers;
      var n := PlanWindow(cycles, junk);
      ghost var planned := slots[..n];
      var sorted := QSort(slots[..n]);
      slots := sorted + slots[n..];
      plan := slots[..n];
      assert plan == sorted;
      forall i | 0 <= i < n ensures 0 <= slots[i].after <= cycles {
        assert plan[i] in multiset(plan);
        assert plan[i] in planned;
        NotOverduePlan(ts, |ts|, cycles, plan[i].index, plan[i].after);
      }
      fired, total := Dispatch(cycles, n, over, k, junk);
    }
  }

  lemma NotOverduePlan(ts: seq<Timer>, n: nat, cycles: int, i: nat, after: int)
    requires n <= |ts| && Periodic(ts) && NotOverdue(ts) && Tick(i, after) in Plan(ts, n, cycles)
    ensures 0 <= after <= cycles
  {
    PlanExact(ts, n, cycles, i, after);
    var k: nat :| after == ts[i].untilTick + k * ts[i].period;
    Monotone(0, k, ts[i].period);
  }

  lemma TakeOne(i: nat, before: seq<Tick>, start: int, period: int, cycles: int)
    requires period >= 1 && start <= cycles
    ensures before + TicksAt(i, Times(start, period, cycles))
            == (before + [Tick(i, start)]) + TicksAt(i, Times(start + period, period, cycles))
  {
    var times, rest := Times(start, period, cycles), Times(start + period, period, cycles);
    assert times[1..] == rest;
    assert TicksAt(i, times) == [Tick(i, start)] + TicksAt(i, rest);
  }
}
