/** The table of hardware timers (asic.c): slots are reused, and the table grows by ten. */
module Timers {

  /** What a timer calls when it ticks. */
  datatype Handler = NoHandler | FirstTimer | SecondTimer | Device(id: nat)

  /** A slot: TIMER_IN_USE, `cycles_until_tick`, and clock rate / frequency as whole cycles. */
  datatype Timer = Timer(inUse: bool, untilTick: int, period: int, onTick: Handler)

  const FREE := Timer(false, 0, 0, NoHandler)

  /** The slot a new timer goes into. */
  function FirstFree(ts: seq<Timer>): (i: nat)
    ensures i <= |ts|
    ensures i < |ts| ==> !ts[i].inUse
    ensures forall j :: 0 <= j < i ==> ts[j].inUse
  {
    if ts == [] || !ts[0].inUse then 0 else 1 + FirstFree(ts[1..])
  }

  function Grown(ts: seq<Timer>): seq<Timer> { ts + seq(10, _ => FREE) }

  function WithRoom(ts: seq<Timer>): seq<Timer> { if FirstFree(ts) < |ts| then ts else Grown(ts) }

  function Added(ts: seq<Timer>, period: int, handler: Handler): seq<Timer> {
    WithRoom(ts)[FirstFree(ts) := Timer(true, period, period, handler)]
  }

  function Removed(ts: seq<Timer>, i: nat): seq<Timer>
    requires i < |ts|
  {
    ts[i := ts[i].(inUse := false)]
  }

  lemma FirstFreeIs(ts: seq<Timer>, i: nat)
    requires i <= |ts| && (i < |ts| ==> !ts[i].inUse)
    requires forall j :: 0 <= j < i ==> ts[j].inUse
    ensures FirstFree(ts) == i
  {
  }

  class TimerTable {
    var timers: seq<Timer>

    /** `asic_init` makes room for twenty. */
    constructor ()
      ensures timers == seq(20, _ => FREE)
    {
      timers := seq(20, _ => FREE);
    }

    method Add(period: int, handler: Handler) returns (i: nat)
      requires |timers| > 0
      modifies this
      ensures i == FirstFree(old(timers)) && timers == Added(old(timers), period, handler)
    {
      ghost var before := timers;
      i := 0;
      while i < |timers| && timers[i].inUse
        invariant |before| > 0 && i <= |timers|
        invariant if i < |before| then timers == before else i == |before| && timers == Grown(before)
        invariant forall j :: 0 <= j < i ==> before[j].inUse
        decreases |before| - i
      {
        if i == |timers| - 1 {
          timers := timers + seq(10, _ => FREE);
        }
        i := i + 1;
      }
      FirstFreeIs(before, i);
      timers := timers[i := Timer(true, period, period, handler)];
    }

    method Remove(i: nat)
      requires i < |timers|
      modifies this
      ensures timers == Removed(old(timers), i)
    {
      timers := timers[i := timers[i].(inUse := false)];
    }
  }

  /** Adding never disturbs a timer in use, and hands out a slot nobody is using. */
  lemma AddKeepsOthers(ts: seq<Timer>, period: int, handler: Handler)
    ensures var i, ts' := FirstFree(ts), Added(ts, period, handler);
            && i < |ts'| && ts'[i] == Timer(true, period, period, handler)
            && |ts| <= |ts'| <= |ts| + 10
            && (forall j :: 0 <= j < |ts| && ts[j].inUse ==> j != i && ts'[j] == ts[j])
            && (forall j :: 0 <= j < |ts'| && j != i && ts'[j].inUse ==> j < |ts| && ts[j] == ts'[j])
  {
  }
}
