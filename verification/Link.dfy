/** The link assist (link.c): one-byte mailboxes between the host and the calculator. */
module Link {
  import opened Bytes
  import opened Wrappers

  /** `assist`: the calculator model has a link assist. The status bits that are never set are
      left out; `line` is the CPU's interrupt line. */
  datatype State = State(
    assist: bool, mask: byte, rxReady: bool, intRxReady: bool, txReady: bool, intTxReady: bool, txActive: bool,
    rxBuffer: byte, txBuffer: byte, line: bool)

  /** The host sends and takes bytes; the calculator reads and writes ports 0A, 0D and 08. */
  datatype Op = HostSends(b: byte) | HostTakes | ReadRx | WriteTx(b: byte) | WriteEnable(mask: byte)

  const RESET := State(true, 0, false, false, true, true, false, 0, 0, false)

  predicate MaskRx(mask: byte) { Bit(mask, 0) }

  predicate MaskTx(mask: byte) { Bit(mask, 1) }

  predicate Disabled(mask: byte) { Bit(mask, 7) }

  function Apply(s: State, op: Op): State {
    match op
    case HostSends(b) =>
      if s.rxReady then s
      else s.(rxReady := true, intRxReady := true, rxBuffer := b,
              line := s.line || (!Disabled(s.mask) && MaskRx(s.mask)))
    case HostTakes =>
      if !s.txActive then s
      else s.(txActive := false, txReady := true, intTxReady := true,
              line := s.line || (!Disabled(s.mask) && MaskTx(s.mask)))
    case ReadRx =>
      if !s.assist || !s.rxReady then s
      else s.(rxReady := false, intRxReady := false, rxBuffer := 0, line := s.line && !s.intTxReady)
    case WriteTx(b) =>
      if !s.txReady then s
      else s.(txReady := false, intTxReady := false, txActive := true, txBuffer := b)
    case WriteEnable(m) =>
      if !s.assist then s
      else s.(mask := m, line := (MaskTx(m) && s.intTxReady) || (MaskRx(m) && s.intRxReady))
  }

  /** What the caller of an operation learns: a byte it is given, or whether its byte was taken.
      `ReadRx` answers 0 and `WriteTx` nothing where this says `None`. */
  function Reply(s: State, op: Op): Option<byte> {
    match op
    case HostSends(b) => if s.rxReady then None else Some(b)
    case HostTakes => if s.txActive then Some(s.txBuffer) else None
    case ReadRx => if s.assist && s.rxReady then Some(s.rxBuffer) else None
    case WriteTx(b) => if s.txReady then Some(b) else None
    case WriteEnable(_) => None
  }

  function After(s: State, ops: seq<Op>): State {
    if ops == [] then s else Apply(After(s, ops[..|ops| - 1]), ops[|ops| - 1])
  }

  datatype Kind = Sent | Taken | Received | Written | Other

  function KindOf(op: Op): Kind {
    match op
    case HostSends(_) => Sent
    case HostTakes => Taken
    case ReadRx => Received
    case WriteTx(_) => Written
    case WriteEnable(_) => Other
  }

  /** The bytes that went through the operations of one kind, in order. */
  function Passed(s: State, ops: seq<Op>, kind: Kind): seq<byte> {
    if ops == [] then []
    else
      var before, op := ops[..|ops| - 1], ops[|ops| - 1];
      var reply := Reply(After(s, before), op);
      var earlier := Passed(s, before, kind);
      if KindOf(op) == kind && reply.Some? then earlier + [reply.value] else earlier
  }

  function InFlight(full: bool, b: byte): seq<byte> { if full then [b] else [] }

  /** The interrupt bits mirror the ready bits, and the transmitter is ready unless it is active. */
  predicate Consistent(s: State) {
    s.txReady == !s.txActive && s.intTxReady == s.txReady && s.intRxReady == s.rxReady
  }

  lemma {:induction false} StaysConsistent(s: State, ops: seq<Op>)
    requires Consistent(s)
    ensures Consistent(After(s, ops))
  {
    if ops != [] {
      StaysConsistent(s, ops[..|ops| - 1]);
    }
  }

  lemma {:induction false} IntoCalculator(s: State, ops: seq<Op>)
    ensures var r := After(s, ops);
            InFlight(s.rxReady, s.rxBuffer) + Passed(s, ops, Sent)
            == Passed(s, ops, Received) + InFlight(r.rxReady, r.rxBuffer)
  {
    hide MaskRx, MaskTx, Disabled;
    if ops != [] {
      var before, op := ops[..|ops| - 1], ops[|ops| - 1];
      IntoCalculator(s, before);
      var mid := After(s, before);
      var first, sent := InFlight(s.rxReady, s.rxBuffer), Passed(s, before, Sent);
      assert Passed(s, ops, Received) + [] == Passed(s, ops, Received);
      if op.HostSends? && !mid.rxReady {
        assert first + (sent + [op.b]) == first + sent + [op.b];
        assert Passed(s, before, Received) + [] == Passed(s, before, Received);
      }
    }
  }

  lemma {:induction false} IntoHost(s: State, ops: seq<Op>)
    requires Consistent(s)
    ensures var r := After(s, ops);
            InFlight(s.txActive, s.txBuffer) + Passed(s, ops, Written)
            == Passed(s, ops, Taken) + InFlight(r.txActive, r.txBuffer)
  {
    hide MaskRx, MaskTx, Disabled;
    if ops != [] {
      var before, op := ops[..|ops| - 1], ops[|ops| - 1];
      IntoHost(s, before);
      StaysConsistent(s, before);
      var mid := After(s, before);
      var first, written := InFlight(s.txActive, s.txBuffer), Passed(s, before, Written);
      assert Passed(s, ops, Taken) + [] == Passed(s, ops, Taken);
      if op.WriteTx? && mid.txReady {
        assert first + (written + [op.b]) == first + written + [op.b];
        assert Passed(s, before, Taken) + [] == Passed(s, before, Taken);
      }
    }
  }

  /** For every interleaving of host and calculator: the bytes accepted into each mailbox are
      delivered exactly once and in order, at most one of them still on its way. */
  lemma ExactlyOnce(s: State, ops: seq<Op>)
    requires Consistent(s)
    ensures var r := After(s, ops);
            && InFlight(s.rxReady, s.rxBuffer) + Passed(s, ops, Sent)
               == Passed(s, ops, Received) + InFlight(r.rxReady, r.rxBuffer)
            && InFlight(s.txActive, s.txBuffer) + Passed(s, ops, Written)
               == Passed(s, ops, Taken) + InFlight(r.txActive, r.txBuffer)
            && r.txReady == !r.txActive && r.intTxReady == r.txReady && r.intRxReady == r.rxReady
  {
    IntoCalculator(s, ops);
    IntoHost(s, ops);
    StaysConsistent(s, ops);
  }

  /** From reset, what has been delivered is what was accepted, short of at most its last byte. */
  lemma NothingLost(ops: seq<Op>)
    ensures var sent, received := Passed(RESET, ops, Sent), Passed(RESET, ops, Received);
            received <= sent && |sent| - |received| <= 1
    ensures var written, taken := Passed(RESET, ops, Written), Passed(RESET, ops, Taken);
            taken <= written && |written| - |taken| <= 1
  {
    ExactlyOnce(RESET, ops);
    assert [] + Passed(RESET, ops, Sent) == Passed(RESET, ops, Sent);
    assert [] + Passed(RESET, ops, Written) == Passed(RESET, ops, Written);
  }

  /** Taking a received byte drops the interrupt line exactly when nothing is being transmitted:
      the code looks at the transmitter's ready bit, not the receiver's. */
  lemma ReadDropsLine(s: State)
    requires Consistent(s) && s.assist && s.rxReady && s.line
    ensures !Apply(s, ReadRx).line <==> !s.txActive
  {
  }

  /** The enable byte asks for an interrupt: bit 0 when a byte has come, bit 1 when one may go, and
      neither with bit 7 set. */
  predicate Wants(mask: byte, bit: nat)
    requires bit < 2
  {
    mask < 0x80 && (if bit == 0 then mask % 2 == 1 else mask / 2 % 2 == 1)
  }

  /** A byte waits for the program, which wants to hear of it: the line is up. */
  predicate HearsOfByte(s: State) { s.rxReady && Wants(s.mask, 0) ==> s.line }

  /** A byte may be written, and the program wants to hear of it: the line is up. */
  predicate HearsOfRoom(s: State) { s.txReady && Wants(s.mask, 1) ==> s.line }

  lemma WantsIs(mask: byte)
    ensures Wants(mask, 0) == (MaskRx(mask) && !Disabled(mask))
    ensures Wants(mask, 1) == (MaskTx(mask) && !Disabled(mask))
  {
    assert mask / 2 / 2 / 2 / 2 / 2 / 2 / 2 == if mask >= 0x80 then 1 else 0;
  }

  /** No byte goes unheard: whatever the host and the program do, the line is up while a byte waits
      that the program wants to hear of. */
  lemma {:induction false} NoByteUnheard(s: State, ops: seq<Op>)
    requires Consistent(s) && HearsOfByte(s)
    ensures HearsOfByte(After(s, ops))
  {
    hide MaskRx, MaskTx, Disabled, Wants;
    if ops != [] {
      var before, op := After(s, ops[..|ops| - 1]), ops[|ops| - 1];
      NoByteUnheard(s, ops[..|ops| - 1]);
      StaysConsistent(s, ops[..|ops| - 1]);
      WantsIs(before.mask);
      WantsIs(Apply(before, op).mask);
    }
  }

  /** The same of room to write is true but for one step: reading a received byte while there is
      room lowers the line, wanted or not. */
  lemma RoomUnheard(s: State, op: Op)
    requires Consistent(s) && HearsOfRoom(s)
    ensures HearsOfRoom(Apply(s, op)) <==> !(op.ReadRx? && s.assist && s.rxReady && s.txReady && Wants(s.mask, 1))
  {
    WantsIs(s.mask);
    WantsIs(Apply(s, op).mask);
    hide MaskRx, MaskTx, Disabled, Wants;
  }

  /** What port 9 shows: the interrupt bits are masked, the others are not. */
  function Status(s: State): byte {
    Num(s.intRxReady && Bit(s.mask, 0)) + 2 * Num(s.intTxReady && Bit(s.mask, 1)) + 0x10 * Num(s.rxReady)
    + 0x20 * Num(s.txReady) + 0x80 * Num(s.txActive)
  }

  /** A calculator program that polls port 9 can trust it: bit 4 means a read will get a byte,
      bit 5 that a write will be taken, and bit 7 that the host has a byte to take. */
  lemma StatusIsTrue(s: State)
    requires Consistent(s) && s.assist
    ensures Bit(Status(s), 4) <==> Reply(s, ReadRx).Some?
    ensures forall b :: Bit(Status(s), 5) <==> Reply(s, WriteTx(b)).Some?
    ensures Bit(Status(s), 7) <==> Reply(s, HostTakes).Some?
  {
    var low := Num(s.intRxReady && Bit(s.mask, 0)) + 2 * Num(s.intTxReady && Bit(s.mask, 1));
    hide Bit;
    StatusBits(low, s.rxReady, s.txReady, s.txActive);
  }

  lemma StatusBits(low: nat, b4: bool, b5: bool, b7: bool)
    requires low < 4
    ensures var v := low + 0x10 * Num(b4) + 0x20 * Num(b5) + 0x80 * Num(b7);
            Bit(v, 4) == b4 && Bit(v, 5) == b5 && Bit(v, 7) == b7
  {
    var v := low + 0x10 * Num(b4) + 0x20 * Num(b5) + 0x80 * Num(b7);
    assert v / 2 / 2 / 2 / 2 == Num(b4) + 2 * Num(b5) + 8 * Num(b7);
  }

  class Assist {
    const assist: bool
    var mask: byte
    var rxReady: bool
    var intRxReady: bool
    var txReady: bool
    var intTxReady: bool
    var txActive: bool
    var rxBuffer: byte
    var txBuffer: byte
    var line: bool

    function Abs(): State
      reads this
    {
      State(assist, mask, rxReady, intRxReady, txReady, intTxReady, txActive, rxBuffer, txBuffer, line)
    }

    constructor (assist: bool)
      ensures Abs() == RESET.(assist := assist) && Consistent(Abs())
    {
      this.assist, mask, rxReady, intRxReady, txActive, rxBuffer, txBuffer := assist, 0, false, false, false, 0, 0;
      txReady, intTxReady, line := true, true, false;
    }

    method WriteEnablePort(v: byte)
      modifies this
      ensures Abs() == Apply(old(Abs()), WriteEnable(v))
    {
      if assist {
        mask := v;
        line := (MaskTx(mask) && intTxReady) || (MaskRx(mask) && intRxReady);
      }
    }

    method ReadRxPort() returns (v: byte)
      modifies this
      ensures Abs() == Apply(old(Abs()), ReadRx)
      ensures var reply := Reply(old(Abs()), ReadRx); v == if reply.Some? then reply.value else 0
    {
      if !assist || !rxReady {
        return 0;
      }
      if intTxReady {
        line := false;
      }
      rxReady := false;
      intRxReady := false;
      v := rxBuffer;
      rxBuffer := 0;
    }

    method WriteTxPort(v: byte)
      modifies this
      ensures Abs() == Apply(old(Abs()), WriteTx(v))
    {
      if !txReady {
        return;
      }
      txReady, intTxReady := false, false;
      txActive := true;
      txBuffer := v;
    }

    method ReadStatusPort() returns (v: byte)
      ensures v == if assist then Status(Abs()) else 0
    {
      v := if assist then Status(Abs()) else 0;
    }

    method ReceiveByte(v: byte) returns (accepted: bool)
      modifies this
      ensures Abs() == Apply(old(Abs()), HostSends(v)) && accepted == Reply(old(Abs()), HostSends(v)).Some?
    {
      if rxReady {
        return false;
      }
      rxReady, intRxReady := true, true;
      rxBuffer := v;
      if !Disabled(mask) && MaskRx(mask) {
        line := true;
      }
      return true;
    }

    /** -1 stands for EOF. */
    method ReadTxBuffer() returns (v: int)
      modifies this
      ensures Abs() == Apply(old(Abs()), HostTakes)
      ensures var reply := Reply(old(Abs()), HostTakes); v == if reply.Some? then reply.value else -1
    {
      if !txActive {
        return -1;
      }
      txActive := false;
      txReady, intTxReady := true, true;
      if !Disabled(mask) && MaskTx(mask) {
        line := true;
      }
      return txBuffer;
    }
  }
}
