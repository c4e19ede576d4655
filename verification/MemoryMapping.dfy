/** The paging ports (memorymapping.c): which pages the four banks of the address space show. */
module MemoryMapping {
  import opened Bytes
  import Flash

  datatype Device = TI73 | TI83p | TI83pSE | TI84p | TI84pSE | TI84pCSE

  function FlashPages(d: Device): (n: nat)
    ensures Flash.ChipSize(n)
  {
    if d.TI73? || d.TI83p? then 0x20 else if d.TI84p? then 0x40 else if d.TI84pCSE? then 0x100 else 0x80
  }

  function RamPages(d: Device): (n: nat)
    ensures n > 0
  {
    if d.TI73? || d.TI83p? || d.TI84pCSE? then 3 else 8
  }

  /** What the ports hold. */
  datatype Paging = Paging(wide: bool, pageA: byte, flashA: bool, pageB: byte, flashB: bool, ramPage: byte)

  const RESET := Paging(false, 0, true, 0, true, 0)

  /** The page number part of a paging port, and the bit that asks for RAM. */
  function PageBits(d: Device): byte { if d.TI83p? then 0x20 else 0x80 }

  function RamBit(d: Device): (k: nat)
    ensures k <= 7
  {
    if d.TI83p? then 6 else 7
  }

  /** Page numbers as wide as the ports leave them. */
  predicate Valid(d: Device, p: Paging) {
    p.pageA < PageBits(d) && p.pageB < PageBits(d) && p.ramPage < 8
  }

  /** The banks asked for. In wide mode banks 1 and 2 show an even page and the odd one above it,
      but on the TI-83+ bank 2 shows the page as written. */
  function Wanted(d: Device, p: Paging): (r: seq<Flash.Bank>)
    ensures |r| == 4
  {
    [Flash.Bank(0, true)]
    + if p.wide
      then [Flash.Bank(p.pageA - p.pageA % 2, p.flashA),
            Flash.Bank(if d.TI83p? then p.pageA else p.pageA - p.pageA % 2 + 1, p.flashA),
            Flash.Bank(p.pageB, p.flashB)]
      else [Flash.Bank(p.pageA, p.flashA), Flash.Bank(p.pageB, p.flashB),
            Flash.Bank(if d.TI83p? then 0 else p.ramPage, false)]
  }

  function Limit(d: Device, b: Flash.Bank): nat { if b.flash then FlashPages(d) else RamPages(d) }

  /** The clamp for pages that do not exist: beyond the page count, the two are ANDed. */
  function Clamped(d: Device, b: Flash.Bank): Flash.Bank {
    if b.page > Limit(d, b) then b.(page := And(b.page, Limit(d, b))) else b
  }

  function Banks(d: Device, p: Paging): (r: seq<Flash.Bank>)
    ensures |r| == 4
  {
    seq(4, i requires 0 <= i < 4 => Clamped(d, Wanted(d, p)[i]))
  }

  lemma {:induction false} AndSelf(n: nat)
    ensures And(n, n) == n
  {
    if n != 0 { AndSelf(n / 2); }
  }

  /** The clamp gives a page that exists exactly when the wanted page lacks some bit of the count. */
  lemma ClampWorks(d: Device, b: Flash.Bank)
    ensures Clamped(d, b).page < Limit(d, b) <==> And(b.page, Limit(d, b)) != Limit(d, b)
  {
    AndSelf(Limit(d, b));
  }

  /** After a reload every bank shows a page that exists exactly when no wanted page has all the
      bits of the count of its kind. */
  lemma ReloadSafe(d: Device, p: Paging)
    ensures Flash.BanksExist(Banks(d, p), FlashPages(d), RamPages(d) * 0x4000) <==>
            forall i :: 0 <= i < 4 ==> And(Wanted(d, p)[i].page, Limit(d, Wanted(d, p)[i])) != Limit(d, Wanted(d, p)[i])
  {
    hide Clamped, Wanted, Limit;
    forall i | 0 <= i < 4
      ensures var b := Wanted(d, p)[i];
              && Clamped(d, b).page < Limit(d, b) <==> And(b.page, Limit(d, b)) != Limit(d, b)
    {
      ClampWorks(d, Wanted(d, p)[i]);
    }
    BanksInRange(d, p);
  }

  lemma BanksInRange(d: Device, p: Paging)
    ensures Flash.BanksExist(Banks(d, p), FlashPages(d), RamPages(d) * 0x4000) <==>
            forall i :: 0 <= i < 4 ==> Clamped(d, Wanted(d, p)[i]).page < Limit(d, Wanted(d, p)[i])
  {
    hide Wanted, Clamped;
    assert Limit(d, Flash.Bank(0, false)) == RamPages(d) && Limit(d, Flash.Bank(0, true)) == FlashPages(d);
    forall i | 0 <= i < 4
      ensures var b, c := Wanted(d, p)[i], Banks(d, p)[i];
              c.page < Limit(d, b) <==>
                if c.flash then c.page < FlashPages(d) else (c.page + 1) * 0x4000 <= RamPages(d) * 0x4000
    {
      ClampKeepsKind(d, Wanted(d, p)[i]);
    }
  }

  lemma ClampKeepsKind(d: Device, b: Flash.Bank)
    ensures Clamped(d, b).flash == b.flash
  {
  }

  /** On the models with at least 128 flash pages, a paging port cannot ask for a flash page that
      does not exist. */
  lemma FlashSafe(d: Device, p: Paging, i: nat)
    requires Valid(d, p) && i < 4 && FlashPages(d) >= PageBits(d)
    ensures Banks(d, p)[i].flash ==> Banks(d, p)[i] == Wanted(d, p)[i] && Banks(d, p)[i].page < FlashPages(d)
  {
    hide And;
  }

  /** The clamp is not enough on the TI-84+, which has 64 pages: page 64 is let through. */
  lemma ClampLetsThrough(p: Paging)
    requires Valid(TI84p, p) && !p.wide && p.flashA && p.pageA == 0x40
    ensures FlashPages(TI84p) == 0x40 && Banks(TI84p, p)[1] == Flash.Bank(0x40, true)
    ensures !Flash.BanksExist(Banks(TI84p, p), FlashPages(TI84p), RamPages(TI84p) * 0x4000)
  {
    BanksInRange(TI84p, p);
    assert Wanted(TI84p, p)[1] == Flash.Bank(0x40, true);
  }

  /** In wide mode, where no page is clamped, banks 1 and 2 are one window of 32K on the chip. */
  lemma WideWindow(d: Device, p: Paging, c: Flash.Chip, off: nat)
    requires p.wide && !d.TI83p? && off < 0x8000
    requires c.banks == Banks(d, p) && p.pageA - p.pageA % 2 + 1 <= Limit(d, Wanted(d, p)[1])
    ensures Flash.Mapped(c, 0x4000 + off) == (p.pageA - p.pageA % 2) * 0x4000 + off
    ensures Flash.BankOf(c, 0x4000 + off).flash == p.flashA
  {
    hide And;
    assert (0x4000 + off) / 0x4000 == if off < 0x4000 then 1 else 2;
  }

  // ----- the ports

  datatype Port = StatusPort | RamPort | PortA | PortB

  function Target(op: Op): (t: (Port, byte)) {
    match op
    case WriteStatus(v) => (StatusPort, v) case WriteRam(v) => (RamPort, v)
    case WriteA(v) => (PortA, v) case WriteB(v) => (PortB, v)
  }

  /** The byte last written to a port. */
  predicate Last(ops: seq<Op>, i: nat, port: Port, v: byte) {
    && i < |ops| && Target(ops[i]) == (port, v)
    && forall j :: i < j < |ops| ==> Target(ops[j]).0 != port
  }

  function Applied(d: Device, p: Paging, ops: seq<Op>): Paging {
    if ops == [] then p else Apply(d, Applied(d, p, ops[..|ops| - 1]), ops[|ops| - 1])
  }

  /** What a port holds is what was last written to it, whatever the others were sent since. */
  lemma {:induction false} LastWins(d: Device, p: Paging, ops: seq<Op>, i: nat, port: Port, v: byte)
    requires Last(ops, i, port, v)
    ensures var q := Applied(d, p, ops);
            match port
            case StatusPort => q.wide == (v % 2 == 1)
            case RamPort => q.ramPage == v % 8
            case PortA => q.flashA == !Bit(v, RamBit(d)) && q.pageA == v % PageBits(d)
            case PortB => q.flashB == !Bit(v, RamBit(d)) && q.pageB == v % PageBits(d)
  {
    hide Bit, PageBits, RamBit, Apply;
    var before := ops[..|ops| - 1];
    OtherPortsStay(d, Applied(d, p, before), ops[|ops| - 1]);
    PortSet(d, Applied(d, p, before), port, v);
    if i < |ops| - 1 {
      assert Last(before, i, port, v);
      assert Target(ops[|ops| - 1]).0 != port;
      LastWins(d, p, before, i, port, v);
    }
  }

  lemma OtherPortsStay(d: Device, p: Paging, op: Op)
    ensures var q, port := Apply(d, p, op), Target(op).0;
            && (port != StatusPort ==> q.wide == p.wide) && (port != RamPort ==> q.ramPage == p.ramPage)
            && (port != PortA ==> q.flashA == p.flashA && q.pageA == p.pageA)
            && (port != PortB ==> q.flashB == p.flashB && q.pageB == p.pageB)
  {
    hide Bit, PageBits, RamBit;
  }

  lemma PortSet(d: Device, p: Paging, port: Port, v: byte)
    ensures Apply(d, p, WriteStatus(v)).wide == (v % 2 == 1) && Apply(d, p, WriteRam(v)).ramPage == v % 8
    ensures var q := Apply(d, p, WriteA(v)); q.flashA == !Bit(v, RamBit(d)) && q.pageA == v % PageBits(d)
    ensures var q := Apply(d, p, WriteB(v)); q.flashB == !Bit(v, RamBit(d)) && q.pageB == v % PageBits(d)
  {
    hide Bit, PageBits, RamBit;
  }

  /** In narrow mode the two paging ports and the RAM port each pick one window of 16K, by the bytes
      last written to them; the first window is flash page 0. */
  lemma NarrowWindows(d: Device, p: Paging, ops: seq<Op>, i: seq<nat>, a: byte, b: byte, r: byte, c: Flash.Chip,
                      off: nat)
    requires !d.TI83p? && off < 0x4000 && |i| == 4
    requires Last(ops, i[0], StatusPort, 0) && Last(ops, i[1], RamPort, r)
    requires Last(ops, i[2], PortA, a) && Last(ops, i[3], PortB, b)
    requires c.banks == Banks(d, Applied(d, p, ops))
    requires a % 0x80 <= (if a < 0x80 then FlashPages(d) else RamPages(d))
    requires b % 0x80 <= (if b < 0x80 then FlashPages(d) else RamPages(d)) && r % 8 <= RamPages(d)
    ensures Flash.Mapped(c, off) == off && Flash.BankOf(c, off).flash
    ensures Flash.Mapped(c, 0x4000 + off) == a % 0x80 * 0x4000 + off
    ensures Flash.BankOf(c, 0x4000 + off).flash == (a < 0x80)
    ensures Flash.Mapped(c, 0x8000 + off) == b % 0x80 * 0x4000 + off
    ensures Flash.BankOf(c, 0x8000 + off).flash == (b < 0x80)
    ensures Flash.Mapped(c, 0xC000 + off) == r % 8 * 0x4000 + off && !Flash.BankOf(c, 0xC000 + off).flash
  {
    var q := Applied(d, p, ops);
    TopBit(a);
    TopBit(b);
    hide Bit, And, Banks, Applied, Last;
    LastWins(d, p, ops, i[0], StatusPort, 0);
    LastWins(d, p, ops, i[1], RamPort, r);
    LastWins(d, p, ops, i[2], PortA, a);
    LastWins(d, p, ops, i[3], PortB, b);
    assert q == Paging(false, a % 0x80, a < 0x80, b % 0x80, b < 0x80, r % 8);
    NarrowBanks(d, q);
  }

  lemma NarrowBanks(d: Device, q: Paging)
    requires !d.TI83p? && !q.wide
    requires q.pageA <= (if q.flashA then FlashPages(d) else RamPages(d))
    requires q.pageB <= (if q.flashB then FlashPages(d) else RamPages(d)) && q.ramPage <= RamPages(d)
    ensures Banks(d, q) == [Flash.Bank(0, true), Flash.Bank(q.pageA, q.flashA), Flash.Bank(q.pageB, q.flashB),
                            Flash.Bank(q.ramPage, false)]
  {
    hide And;
  }

  datatype Op = WriteStatus(data: byte) | WriteRam(data: byte) | WriteA(data: byte) | WriteB(data: byte)

  function Apply(d: Device, p: Paging, op: Op): (r: Paging)
    ensures Valid(d, p) ==> Valid(d, r)
  {
    match op
    case WriteStatus(v) => p.(wide := v % 2 == 1)
    case WriteRam(v) => p.(ramPage := v % 8)
    case WriteA(v) => p.(flashA := !Bit(v, RamBit(d)), pageA := v % PageBits(d))
    case WriteB(v) => p.(flashB := !Bit(v, RamBit(d)), pageB := v % PageBits(d))
  }

  function Readable(d: Device, page: byte, flash: bool): (v: int) {
    if flash then page else page + Exp2(RamBit(d))
  }

  /** A paging port reads back what was written to it, but for the bits the TI-83+ ignores. */
  lemma PagingReadsBack(d: Device, p: Paging, v: byte)
    ensures var r := Apply(d, p, WriteA(v));
            Readable(d, r.pageA, r.flashA) == if d.TI83p? then v % 0x20 + 0x40 * Num(Bit(v, 6)) else v
    ensures var r := Apply(d, p, WriteB(v));
            Readable(d, r.pageB, r.flashB) == Readable(d, Apply(d, p, WriteA(v)).pageA, Apply(d, p, WriteA(v)).flashA)
  {
    hide Bit, Exp2;
    PowersOfTwo();
    TopBit(v);
    Halves(v);
  }

  lemma PowersOfTwo()
    ensures Exp2(6) == 0x40 && Exp2(7) == 0x80
  {
  }

  lemma Halves(v: byte)
    ensures v == v % 0x80 + if v >= 0x80 then 0x80 else 0
  {
  }

  lemma TopBit(v: byte)
    ensures Bit(v, 7) <==> v >= 0x80
  {
    var y: int := v / 2 / 2 / 2 / 2;
    assert y / 2 / 2 / 2 == if y >= 8 then 1 else 0;
  }

  class Ports {
    const device: Device
    const mmu: Flash.Mmu
    var mapMode: int
    var bankAPage: byte
    var bankAFlash: bool
    var bankBPage: byte
    var bankBFlash: bool
    var ramBankPage: byte

    function Abs(): Paging
      reads this
    {
      Paging(mapMode == 1, bankAPage, bankAFlash, bankBPage, bankBFlash, ramBankPage)
    }

    predicate Proper()
      reads this
    {
      (mapMode == 0 || mapMode == 1) && Valid(device, Abs())
    }

    constructor (device: Device, mmu: Flash.Mmu)
      modifies mmu`banks
      ensures Proper() && this.device == device && this.mmu == mmu && Abs() == RESET
              && mmu.banks == Banks(device, RESET)
    {
      this.device, this.mmu := device, mmu;
      mapMode, ramBankPage := 0, 0;
      bankAPage, bankAFlash := 0, true;
      bankBPage, bankBFlash := 0, true;
      new;
      ReloadMapping();
    }

    method ReloadMapping()
      requires Proper()
      modifies mmu`banks
      ensures mmu.banks == Banks(device, Abs())
    {
      var banks := new Flash.Bank[4];
      banks[0] := Flash.Bank(0, true);
      if mapMode == 0 {
        banks[1] := Flash.Bank(bankAPage, bankAFlash);
        banks[2] := Flash.Bank(bankBPage, bankBFlash);
        banks[3] := Flash.Bank(if device.TI83p? then 0 else ramBankPage, false);
      } else {
        banks[1] := Flash.Bank(bankAPage - bankAPage % 2, bankAFlash);
        if device.TI83p? {
          banks[2] := Flash.Bank(bankAPage, bankAFlash);
        } else {
          banks[2] := Flash.Bank(bankAPage - bankAPage % 2 + 1, bankAFlash);
        }
        banks[3] := Flash.Bank(bankBPage, bankBFlash);
      }
      assert banks[..] == Wanted(device, Abs());
      ghost var wanted := banks[..];
      for i := 0 to 4
        invariant forall j :: 0 <= j < 4 ==> banks[j] == if j < i then Clamped(device, wanted[j]) else wanted[j]
      {
        if banks[i].flash && banks[i].page > FlashPages(device) {
          banks[i] := banks[i].(page := And(banks[i].page, FlashPages(device)));
        } else if !banks[i].flash && banks[i].page > RamPages(device) {
          banks[i] := banks[i].(page := And(banks[i].page, RamPages(device)));
        }
      }
      mmu.banks := banks[..];
    }

    method WriteStatusPort(data: byte)
      requires Proper()
      modifies this, mmu`banks
      ensures Proper() && Abs() == Apply(device, old(Abs()), WriteStatus(data)) && mmu.banks == Banks(device, Abs())
    {
      mapMode := data % 2;
      ReloadMapping();
    }

    method WriteRamPort(data: byte)
      requires Proper()
      modifies this, mmu`banks
      ensures Proper() && Abs() == Apply(device, old(Abs()), WriteRam(data)) && mmu.banks == Banks(device, Abs())
    {
      ramBankPage := data % 8;
      ReloadMapping();
    }

    method ReadBankAPort() returns (v: int)
      requires Proper()
      ensures v == Readable(device, bankAPage, bankAFlash)
    {
      v := bankAPage;
      if !bankAFlash {
        v := v + if device.TI83p? then 0x40 else 0x80;
      }
      assert Exp2(6) == 0x40 && Exp2(7) == 0x80;
    }

    method WriteBankAPort(data: byte)
      requires Proper()
      modifies this, mmu`banks
      ensures Proper() && Abs() == Apply(device, old(Abs()), WriteA(data)) && mmu.banks == Banks(device, Abs())
    {
      if device.TI83p? {
        bankAFlash := !Bit(data, 6);
        bankAPage := data % 0x20;
      } else {
        bankAFlash := !Bit(data, 7);
        bankAPage := data % 0x80;
      }
      ReloadMapping();
    }

    method ReadBankBPort() returns (v: int)
      requires Proper()
      ensures v == Readable(device, bankBPage, bankBFlash)
    {
      v := bankBPage;
      if !bankBFlash {
        v := v + if device.TI83p? then 0x40 else 0x80;
      }
      assert Exp2(6) == 0x40 && Exp2(7) == 0x80;
    }

    method WriteBankBPort(data: byte)
      requires Proper()
      modifies this, mmu`banks
      ensures Proper() && Abs() == Apply(device, old(Abs()), WriteB(data)) && mmu.banks == Banks(device, Abs())
    {
      if device.TI83p? {
        bankBFlash := !Bit(data, 6);
        bankBPage := data % 0x20;
      } else {
        bankBFlash := !Bit(data, 7);
        bankBPage := data % 0x80;
      }
      ReloadMapping();
    }
  }
}
