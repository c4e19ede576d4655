/** The interrupt controller (interrupts.c): causes pending and enabled, the CPU's interrupt line,
    and the two timers it owns in the shared timer table. */
module InterruptController {
  import opened Bytes
  import opened Timers

  datatype Cause = OnKey | FirstTimerTicked | SecondTimerTicked | LinkActivity | Crystal1 | Crystal2 | Crystal3

  /** The bit of a cause in the port bytes; bit 3 is something else. */
  function BitOf(c: Cause): (k: nat)
    ensures k <= 7
  {
    match c
    case OnKey => 0
    case FirstTimerTicked => 1
    case SecondTimerTicked => 2
    case LinkActivity => 4
    case Crystal1 => 5
    case Crystal2 => 6
    case Crystal3 => 7
  }

  function Picked(flag: byte): set<Cause> { set c: Cause | Bit(flag, BitOf(c)) }

  /** A timer id is -1 while there is no timer. */
  datatype State = State(
    pending: set<Cause>, enabled: set<Cause>, keyPressed: bool, lowPower: bool, line: bool,
    firstId: int, secondId: int, timers: seq<Timer>)

  /** `SetEnabled` is the direct call the crystal timers make; `Mask` is port 3, `Keep` port 2. A
      period of 0 stands for a frequency of 0. The last two are other devices' timers. */
  datatype Op =
    | Raise(flag: byte) | SetEnabled(flag: byte, on: bool) | Acknowledge(flag: byte)
    | Mask(value: byte) | Keep(value: byte) | PressOn | ReleaseOn
    | SetFirst(period: nat) | SetSecond(period: nat)
    | OtherAdds(period: nat, id: nat) | OtherRemoves(i: nat)

  // ----- what each operation does

  /** The line is only ever lowered by this check. */
  function Checked(s: State): State { if s.pending == {} then s.(line := false) else s }

  function Raised(s: State, flag: byte): State {
    var hits := Picked(flag) * s.enabled;
    s.(pending := s.pending + hits, line := s.line || hits != {})
  }

  function Retimed(s: State, id: int, period: nat, handler: Handler): (r: (int, seq<Timer>))
    requires id == -1 || 0 <= id < |s.timers|
  {
    var ts := if id == -1 then s.timers else Removed(s.timers, id);
    var slot: int := FirstFree(ts);
    if period == 0 then (-1, ts) else (slot, Added(ts, period, handler))
  }

  function Apply(s: State, op: Op): State
    requires Owned(s)
  {
    match op
    case Raise(flag) => Raised(s, flag)
    case SetEnabled(flag, on) =>
      s.(enabled := if on then s.enabled + Picked(flag) else s.enabled - Picked(flag))
    case Acknowledge(flag) => Checked(s.(pending := s.pending - Picked(flag)))
    case Mask(v) =>
      Checked(s.(enabled := Picked(v), lowPower := Bit(v, 3), pending := s.pending * Picked(v)))
    case Keep(v) => Checked(s.(pending := s.pending * Picked(v)))
    case PressOn => Raised(s.(keyPressed := false), 1)
    case ReleaseOn => s.(keyPressed := true)
    case SetFirst(period) =>
      var r := Retimed(s, s.firstId, period, FirstTimer);
      s.(firstId := r.0, timers := r.1)
    case SetSecond(period) =>
      var r := Retimed(s, s.secondId, period, SecondTimer);
      s.(secondId := r.0, timers := r.1)
    case OtherAdds(period, id) => s.(timers := Added(s.timers, period, Device(id)))
    case OtherRemoves(i) => if i < |s.timers| then s.(timers := Removed(s.timers, i)) else s
  }

  // ----- invariants

  predicate Names(ts: seq<Timer>, id: int, handler: Handler) {
    0 <= id < |ts| && ts[id].inUse && ts[id].onTick == handler
  }

  /** Ids that are not -1 name slots in use that tick for their own timer. */
  predicate Owned(s: State) {
    && |s.timers| > 0
    && (s.firstId != -1 ==> Names(s.timers, s.firstId, FirstTimer))
    && (s.secondId != -1 ==> Names(s.timers, s.secondId, SecondTimer))
  }

  /** The interrupt line is up exactly when some cause is pending. */
  predicate LineFollows(s: State) { s.line <==> s.pending != {} }

  predicate PendingEnabled(s: State) { s.pending <= s.enabled }

  /** Nobody else removes the controller's timers. */
  predicate Polite(s: State, op: Op) {
    op.OtherRemoves? ==> op.i != s.firstId && op.i != s.secondId
  }

  lemma ApplyKeeps(s: State, op: Op)
    requires Owned(s) && LineFollows(s) && Polite(s, op)
    ensures Owned(Apply(s, op)) && LineFollows(Apply(s, op))
  {
    match op
    case SetFirst(p) => RetimeKeeps(s, s.firstId, p, FirstTimer, s.secondId, SecondTimer);
    case SetSecond(p) => RetimeKeeps(s, s.secondId, p, SecondTimer, s.firstId, FirstTimer);
    case OtherAdds(p, id) => AddKeepsOthers(s.timers, p, Device(id));
    case _ =>
  }

  /** Re-speeding one timer gives it a slot of its own and leaves the other's alone. */
  lemma RetimeKeeps(s: State, id: int, period: nat, handler: Handler, other: int, otherHandler: Handler)
    requires |s.timers| > 0 && handler != otherHandler
    requires id == -1 || Names(s.timers, id, handler)
    requires other == -1 || Names(s.timers, other, otherHandler)
    ensures var r := Retimed(s, id, period, handler);
            && |r.1| > 0 && (r.0 == -1 <==> period == 0) && (r.0 != -1 ==> Names(r.1, r.0, handler))
            && (other != -1 ==> Names(r.1, other, otherHandler))
  {
    var ts := if id == -1 then s.timers else Removed(s.timers, id);
    AddKeepsOthers(ts, period, handler);
    hide Added, FirstFree;
  }

  /** Only the direct enable call can leave a cause pending that is not enabled, and it does so
      exactly when it disables a pending cause. */
  lemma PendingStaysEnabled(s: State, op: Op)
    requires Owned(s) && PendingEnabled(s)
    ensures PendingEnabled(Apply(s, op)) <==>
            !(op.SetEnabled? && !op.on && s.pending * Picked(op.flag) != {})
  {
    hide Bit;
    if op.SetEnabled? && !op.on {
      var enabled := Apply(s, op).enabled;
      if c :| c in s.pending && c !in enabled {
        assert c in s.pending * Picked(op.flag);
      } else {
        assert forall c :: c !in s.pending * Picked(op.flag);
      }
    }
  }

  // ----- runs

  /** Along the history nobody else removes the controller's timers. */
  predicate Courteous(s: State, ops: seq<Op>)
    requires Owned(s) && LineFollows(s)
    decreases |ops|
  {
    |ops| > 0 ==> Polite(s, ops[0]) && (ApplyKeeps(s, ops[0]); Courteous(Apply(s, ops[0]), ops[1..]))
  }

  function Finally(s: State, ops: seq<Op>): State
    requires Owned(s) && LineFollows(s) && Courteous(s, ops)
    decreases |ops|
  {
    if ops == [] then s else ApplyKeeps(s, ops[0]); Finally(Apply(s, ops[0]), ops[1..])
  }

  /** For every history: the line is up iff a cause is pending; the two ids, when not -1, name
      different slots in use; and while enables change only through port 3, whatever is pending
      is enabled. */
  lemma {:induction false} EveryHistory(s: State, ops: seq<Op>)
    requires Owned(s) && LineFollows(s) && Courteous(s, ops)
    ensures var r := Finally(s, ops);
            && (r.line <==> r.pending != {})
            && (r.firstId != -1 ==> 0 <= r.firstId < |r.timers| && r.timers[r.firstId].inUse)
            && (r.secondId != -1 ==> 0 <= r.secondId < |r.timers| && r.timers[r.secondId].inUse)
            && (r.firstId != -1 ==> r.firstId != r.secondId)
            && (PendingEnabled(s) && (forall o :: o in ops ==> !o.SetEnabled?) ==> PendingEnabled(r))
    decreases |ops|
  {
    hide Apply, Polite;
    if ops != [] {
      ApplyKeeps(s, ops[0]);
      EveryHistory(Apply(s, ops[0]), ops[1..]);
      if PendingEnabled(s) {
        PendingStaysEnabled(s, ops[0]);
      }
    }
  }

  // ----- the port bytes

  function Packed(c: set<Cause>, bit3: bool): byte {
    FromBits(OnKey in c, FirstTimerTicked in c, SecondTimerTicked in c, bit3,
             LinkActivity in c, Crystal1 in c, Crystal2 in c, Crystal3 in c)
  }

  /** A mask is what its port byte says. */
  lemma PickedPacked(c: set<Cause>, bit3: bool)
    ensures Picked(Packed(c, bit3)) == c && Bit(Packed(c, bit3), 3) == bit3
  {
    var v := Packed(c, bit3);
    BitsOf(OnKey in c, FirstTimerTicked in c, SecondTimerTicked in c, bit3,
           LinkActivity in c, Crystal1 in c, Crystal2 in c, Crystal3 in c);
    hide Bit, FromBits;
    forall k: Cause ensures k in Picked(v) <==> k in c {
      match k case OnKey => case _ =>
    }
  }

  /** A port byte is what its bits say. */
  lemma PackedPicked(v: byte)
    ensures Packed(Picked(v), Bit(v, 3)) == v
  {
    ByteIsItsBits(v);
    hide Bit, FromBits;
  }

  /** Reading port 3 gives back the byte last written to it. */
  lemma MaskReadsBack(s: State, v: byte)
    requires Owned(s)
    ensures var r := Apply(s, Mask(v)); Packed(r.enabled, r.lowPower) == v
  {
    hide Packed, Bit;
    PackedPicked(v);
  }

  // ----- what the ports show

  /** Port 4 shows what is pending, port 3 what is enabled. */
  function PortFour(s: State): byte { Packed(s.pending, s.keyPressed) }

  function PortThree(s: State): byte { Packed(s.enabled, s.lowPower) }

  /** One bit of the two ports. */
  datatype Latch = Latch(enabled: bool, pending: bool)

  /** The bits that are causes. */
  type CauseBit = k: nat | k < 8 && k != 3

  function LatchOf(s: State, k: CauseBit): Latch { Latch(Bit(PortThree(s), k), Bit(PortFour(s), k)) }

  /** A latch of its own for every bit: it is set by a cause while enabled, or by the ON key if it
      is bit 0, and cleared by an acknowledgement, by a 0 written to port 2, or by disabling it
      through port 3. */
  function Latched(l: Latch, op: Op, k: CauseBit): Latch {
    match op
    case Raise(v) => l.(pending := l.pending || (Bit(v, k) && l.enabled))
    case SetEnabled(v, on) => if Bit(v, k) then l.(enabled := on) else l
    case Acknowledge(v) => l.(pending := l.pending && !Bit(v, k))
    case Mask(v) => Latch(Bit(v, k), l.pending && Bit(v, k))
    case Keep(v) => l.(pending := l.pending && Bit(v, k))
    case PressOn => l.(pending := l.pending || (k == 0 && l.enabled))
    case _ => l
  }

  function AllLatched(l: Latch, ops: seq<Op>, k: CauseBit): Latch
    decreases |ops|
  {
    if ops == [] then l else AllLatched(Latched(l, ops[0], k), ops[1..], k)
  }

  /** The bits of the two ports, cause by cause. */
  lemma LatchIs(s: State, k: CauseBit, c: Cause)
    requires k == BitOf(c)
    ensures LatchOf(s, k) == Latch(c in s.enabled, c in s.pending)
  {
    PickedPacked(s.pending, s.keyPressed);
    PickedPacked(s.enabled, s.lowPower);
    hide Bit, Packed;
    assert (c in Picked(PortThree(s))) == Bit(PortThree(s), k);
    assert (c in Picked(PortFour(s))) == Bit(PortFour(s), k);
  }

  lemma CauseOf(k: CauseBit) returns (c: Cause)
    ensures BitOf(c) == k
  {
    c := match k
      case 0 => OnKey case 1 => FirstTimerTicked case 2 => SecondTimerTicked case 4 => LinkActivity
      case 5 => Crystal1 case 6 => Crystal2 case _ => Crystal3;
  }

  lemma LatchStep(s: State, op: Op, k: CauseBit)
    requires Owned(s)
    ensures LatchOf(Apply(s, op), k) == Latched(LatchOf(s, k), op, k)
  {
    var c := CauseOf(k);
    LatchIs(s, k, c);
    LatchIs(Apply(s, op), k, c);
    OnlyBitZero(k);
    hide LatchOf, Bit, Retimed;
  }

  lemma OnlyBitZero(k: nat)
    requires k < 8
    ensures Bit(1, k) == (k == 0) && Bit(2, k) == (k == 1) && Bit(4, k) == (k == 2)
  {
    assert Bit(1, 0) && !Bit(1, 1) && !Bit(1, 2) && !Bit(1, 3) && !Bit(1, 4) && !Bit(1, 5) && !Bit(1, 6) && !Bit(1, 7);
    assert !Bit(2, 0) && Bit(2, 1) && !Bit(2, 2) && !Bit(2, 3) && !Bit(2, 4) && !Bit(2, 5) && !Bit(2, 6) && !Bit(2, 7);
    assert !Bit(4, 0) && !Bit(4, 1) && Bit(4, 2) && !Bit(4, 3) && !Bit(4, 4) && !Bit(4, 5) && !Bit(4, 6) && !Bit(4, 7);
  }

  /** For every history, the seven bits of the two ports are seven latches that know nothing of each
      other, and the interrupt line is up exactly when one of them is pending. */
  lemma {:induction false} SevenLatches(s: State, ops: seq<Op>)
    requires Owned(s) && LineFollows(s) && Courteous(s, ops)
    ensures var r := Finally(s, ops);
            && (forall k: CauseBit :: LatchOf(r, k) == AllLatched(LatchOf(s, k), ops, k))
            && (r.line <==> exists k: CauseBit :: AllLatched(LatchOf(s, k), ops, k).pending)
    decreases |ops|
  {
    hide Apply, Polite, Latched, LatchOf, LineFollows;
    if ops == [] {
      LineLatched(s);
    } else {
      var next := Apply(s, ops[0]);
      ApplyKeeps(s, ops[0]);
      forall k: CauseBit
        ensures AllLatched(LatchOf(next, k), ops[1..], k) == AllLatched(LatchOf(s, k), ops, k)
      {
        LatchStep(s, ops[0], k);
      }
      SevenLatches(next, ops[1..]);
    }
  }

  lemma LineLatched(s: State)
    requires LineFollows(s)
    ensures s.line <==> exists k: CauseBit :: LatchOf(s, k).pending
  {
    hide LatchOf;
    if c :| c in s.pending {
      var k: CauseBit := BitOf(c);
      LatchIs(s, k, c);
    }
    if k: CauseBit :| LatchOf(s, k).pending {
      var c := CauseOf(k);
      LatchIs(s, k, c);
    }
  }

  // ----- cause by cause

  lemma OneOfSeven(c: Cause)
    ensures c == OnKey || c == FirstTimerTicked || c == SecondTimerTicked || c == LinkActivity
            || c == Crystal1 || c == Crystal2 || c == Crystal3
  {
  }

  /** A mask is taken apart cause by cause: setting, clearing and overwriting. */
  lemma Joined(a: set<Cause>, x: set<Cause>)
    ensures a + x * {OnKey} + x * {FirstTimerTicked} + x * {SecondTimerTicked} + x * {LinkActivity}
            + x * {Crystal1} + x * {Crystal2} + x * {Crystal3} == a + x
    ensures x != {} <==> OnKey in x || FirstTimerTicked in x || SecondTimerTicked in x || LinkActivity in x
                         || Crystal1 in x || Crystal2 in x || Crystal3 in x
  {
    forall c
      ensures c in x ==> c in x * {OnKey} || c in x * {FirstTimerTicked} || c in x * {SecondTimerTicked}
                         || c in x * {LinkActivity}
                         || c in x * {Crystal1} || c in x * {Crystal2} || c in x * {Crystal3}
    {
      OneOfSeven(c);
    }
  }

  lemma Dropped(a: set<Cause>, x: set<Cause>)
    ensures a - x * {OnKey} - x * {FirstTimerTicked} - x * {SecondTimerTicked} - x * {LinkActivity}
            - x * {Crystal1} - x * {Crystal2} - x * {Crystal3} == a - x
  {
    forall c
      ensures c in x ==> c in x * {OnKey} || c in x * {FirstTimerTicked} || c in x * {SecondTimerTicked}
                         || c in x * {LinkActivity}
                         || c in x * {Crystal1} || c in x * {Crystal2} || c in x * {Crystal3}
    {
      OneOfSeven(c);
    }
  }

  lemma Overwritten(e: set<Cause>, x: set<Cause>)
    ensures e - {OnKey} + x * {OnKey} - {FirstTimerTicked} + x * {FirstTimerTicked}
            - {SecondTimerTicked} + x * {SecondTimerTicked} - {LinkActivity} + x * {LinkActivity}
            - {Crystal1} + x * {Crystal1} - {Crystal2} + x * {Crystal2} - {Crystal3} + x * {Crystal3} == x
  {
    var r := e - {OnKey} + x * {OnKey} - {FirstTimerTicked} + x * {FirstTimerTicked}
            - {SecondTimerTicked} + x * {SecondTimerTicked} - {LinkActivity} + x * {LinkActivity}
            - {Crystal1} + x * {Crystal1} - {Crystal2} + x * {Crystal2} - {Crystal3} + x * {Crystal3};
    forall c ensures c in r <==> c in x {
      OneOfSeven(c);
    }
  }

  lemma Masked(p: set<Cause>, x: set<Cause>)
    ensures p - ({OnKey} - x) - ({FirstTimerTicked} - x) - ({SecondTimerTicked} - x) - ({LinkActivity} - x)
            - ({Crystal1} - x) - ({Crystal2} - x) - ({Crystal3} - x) == p * x
  {
    var r := p - ({OnKey} - x) - ({FirstTimerTicked} - x) - ({SecondTimerTicked} - x) - ({LinkActivity} - x)
            - ({Crystal1} - x) - ({Crystal2} - x) - ({Crystal3} - x);
    forall c ensures c in r <==> c in p * x {
      OneOfSeven(c);
    }
  }

  class Controller {
    var pending: set<Cause>
    var enabled: set<Cause>
    var keyPressed: bool
    var lowPower: bool
    var line: bool
    var firstId: int
    var secondId: int
    const table: TimerTable

    function Abs(): State
      reads this, table
    {
      State(pending, enabled, keyPressed, lowPower, line, firstId, secondId, table.timers)
    }

    /** Nothing enabled or pending, no timers yet, and the ON key up. */
    constructor (timerTable: TimerTable)
      requires |timerTable.timers| > 0
      ensures table == timerTable && Abs() == State({}, {}, true, false, false, -1, -1, table.timers)
      ensures Owned(Abs()) && LineFollows(Abs()) && PendingEnabled(Abs())
    {
      pending, enabled, keyPressed, lowPower, line := {}, {}, true, false, false;
      firstId, secondId, table := -1, -1, timerTable;
    }

    method CheckState()
      modifies this
      ensures Abs() == Checked(old(Abs()))
    {
      if pending == {} {
        line := false;
      }
    }

    /** One of the seven tests of `Interrupt`. */
    method Latch(flag: byte, c: Cause) returns (hit: bool)
      modifies this`pending
      ensures hit == (c in Picked(flag) * enabled) && pending == old(pending) + Picked(flag) * enabled * {c}
    {
      hit := Bit(flag, BitOf(c)) && c in enabled;
      if hit {
        pending := pending + {c};
      }
    }

    method Interrupt(flag: byte)
      requires Owned(Abs())
      modifies this
      ensures Abs() == Apply(old(Abs()), Raise(flag))
    {
      hide Picked, Owned, Retimed;
      var shouldInterrupt := Latch(flag, OnKey);
      var hit1 := Latch(flag, FirstTimerTicked);
      shouldInterrupt := shouldInterrupt || hit1;
      var hit2 := Latch(flag, SecondTimerTicked);
      shouldInterrupt := shouldInterrupt || hit2;
      var hit3 := Latch(flag, LinkActivity);
      shouldInterrupt := shouldInterrupt || hit3;
      var hit4 := Latch(flag, Crystal1);
      shouldInterrupt := shouldInterrupt || hit4;
      var hit5 := Latch(flag, Crystal2);
      shouldInterrupt := shouldInterrupt || hit5;
      var hit6 := Latch(flag, Crystal3);
      shouldInterrupt := shouldInterrupt || hit6;
      Joined(old(pending), Picked(flag) * enabled);
      if shouldInterrupt {
        line := true;
      }
    }

    method SetOne(flag: byte, c: Cause, on: bool)
      modifies this`enabled
      ensures enabled == if on then old(enabled) + Picked(flag) * {c} else old(enabled) - Picked(flag) * {c}
    {
      if Bit(flag, BitOf(c)) {
        enabled := if on then enabled + {c} else enabled - {c};
      }
    }

    method SetInterruptEnabled(flag: byte, on: bool)
      requires Owned(Abs())
      modifies this
      ensures Abs() == Apply(old(Abs()), SetEnabled(flag, on))
    {
      hide Picked, Owned, Retimed;
      SetOne(flag, OnKey, on);
      SetOne(flag, FirstTimerTicked, on);
      SetOne(flag, SecondTimerTicked, on);
      SetOne(flag, LinkActivity, on);
      SetOne(flag, Crystal1, on);
      SetOne(flag, Crystal2, on);
      SetOne(flag, Crystal3, on);
      Joined(old(enabled), Picked(flag));
      Dropped(old(enabled), Picked(flag));
    }

    method ClearOne(flag: byte, c: Cause)
      modifies this`pending
      ensures pending == old(pending) - Picked(flag) * {c}
    {
      if Bit(flag, BitOf(c)) {
        pending := pending - {c};
      }
    }

    method AcknowledgeInterrupt(flag: byte)
      requires Owned(Abs())
      modifies this
      ensures Abs() == Apply(old(Abs()), Acknowledge(flag))
    {
      hide Picked, Owned, Retimed;
      ClearOne(flag, OnKey);
      ClearOne(flag, FirstTimerTicked);
      ClearOne(flag, SecondTimerTicked);
      ClearOne(flag, LinkActivity);
      ClearOne(flag, Crystal1);
      ClearOne(flag, Crystal2);
      ClearOne(flag, Crystal3);
      Dropped(old(pending), Picked(flag));
      CheckState();
    }

    method DepressOnKey()
      requires Owned(Abs())
      modifies this
      ensures Abs() == Apply(old(Abs()), PressOn)
    {
      keyPressed := false;
      Interrupt(1);
    }

    method ReleaseOnKey()
      requires Owned(Abs())
      modifies this
      ensures Abs() == Apply(old(Abs()), ReleaseOn)
    {
      keyPressed := true;
    }

    method ReadMask() returns (v: byte)
      ensures Picked(v) == enabled && Bit(v, 3) == lowPower
    {
      v := Packed(enabled, lowPower);
      PickedPacked(enabled, lowPower);
    }

    method MaskOne(v: byte, c: Cause)
      modifies this`pending, this`enabled
      ensures enabled == old(enabled) - {c} + Picked(v) * {c} && pending == old(pending) - ({c} - Picked(v))
    {
      enabled := if Bit(v, BitOf(c)) then enabled + {c} else enabled - {c};
      if c !in enabled {
        pending := pending - {c};
      }
    }

    method WriteMask(v: byte)
      requires Owned(Abs())
      modifies this
      ensures Abs() == Apply(old(Abs()), Mask(v))
    {
      hide Picked, Owned, Retimed;
      MaskOne(v, OnKey);
      MaskOne(v, FirstTimerTicked);
      MaskOne(v, SecondTimerTicked);
      lowPower := Bit(v, 3);
      MaskOne(v, LinkActivity);
      MaskOne(v, Crystal1);
      MaskOne(v, Crystal2);
      MaskOne(v, Crystal3);
      Overwritten(old(enabled), Picked(v));
      Masked(old(pending), Picked(v));
      assert enabled == Picked(v) && pending == old(pending) * Picked(v);
      CheckState();
    }

    method ReadInterruptingDevice() returns (v: byte)
      ensures Picked(v) == pending && Bit(v, 3) == keyPressed
    {
      v := Packed(pending, keyPressed);
      PickedPacked(pending, keyPressed);
    }

    method WriteAcknowledged(v: byte)
      requires Owned(Abs())
      modifies this
      ensures Abs() == Apply(old(Abs()), Keep(v))
    {
      hide Bit, Owned, Retimed;
      pending := set c | c in pending && Bit(v, BitOf(c));
      assert pending == old(pending) * Picked(v);
      CheckState();
    }

    method FirstTimerTick()
      requires Owned(Abs())
      modifies this
      ensures Abs() == Apply(old(Abs()), Raise(2))
    {
      Interrupt(2);
    }

    method SecondTimerTick()
      requires Owned(Abs())
      modifies this
      ensures Abs() == Apply(old(Abs()), Raise(4))
    {
      Interrupt(4);
    }

    method SetFirstTimerFrequency(period: nat)
      requires Owned(Abs())
      modifies this, table
      ensures Abs() == Apply(old(Abs()), SetFirst(period))
    {
      hide Added, FirstFree;
      if firstId != -1 {
        table.Remove(firstId);
        firstId := -1;
      }
      if period != 0 {
        firstId := table.Add(period, FirstTimer);
      }
    }

    method SetSecondTimerFrequency(period: nat)
      requires Owned(Abs())
      modifies this, table
      ensures Abs() == Apply(old(Abs()), SetSecond(period))
    {
      hide Added, FirstFree;
      if secondId != -1 {
        table.Remove(secondId);
        secondId := -1;
      }
      if period != 0 {
        secondId := table.Add(period, SecondTimer);
      }
    }

    /** Port 4: bits 1 and 2 pick the speed of both timers. The periods are the eight the calculator
        model gives, four a timer. */
    method WriteTimerSpeed(v: byte, firstPeriods: seq<nat>, secondPeriods: seq<nat>)
      requires Owned(Abs()) && LineFollows(Abs()) && |firstPeriods| == |secondPeriods| == 4
      modifies this, table
      ensures var speed := v / 2 % 4;
              var first := Apply(old(Abs()), SetFirst(firstPeriods[speed]));
              Owned(first) && Abs() == Apply(first, SetSecond(secondPeriods[speed]))
    {
      var speed := v / 2 % 4;
      ApplyKeeps(Abs(), SetFirst(firstPeriods[speed]));
      hide Apply;
      SetFirstTimerFrequency(firstPeriods[speed]);
      SetSecondTimerFrequency(secondPeriods[speed]);
    }
  }
}
