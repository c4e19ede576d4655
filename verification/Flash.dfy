/** The banked memory and the flash command recogniser (memory.c). */
module Flash {
  import opened Bitmasks
  import opened Bytes
  import opened Wrappers

  datatype Write = Write(address: word, value: bv8)

  /** A cell of a command: an address modulo 0x1000 and a value, or anything at all. */
  datatype Cell = Exact(address: nat, value: bv8) | Any

  datatype Handler = Program | EraseSector | EraseChip

  datatype Entry = Entry(cells: seq<Cell>, handler: Handler)

  const AA := Exact(0xAAA, 0xAA)
  const PAGE55 := Exact(0x555, 0x55)

  /** The `patterns` table, without its terminator. */
  const PATTERNS: seq<Entry> := [
    Entry([AA, PAGE55, Exact(0xAAA, 0xA0), Any], Program),
    Entry([AA, PAGE55, Exact(0xAAA, 0x80), AA, PAGE55, Any], EraseSector),
    Entry([AA, PAGE55, Exact(0xAAA, 0x80), AA, PAGE55, Exact(0xAAA, 0x10)], EraseChip)]

  predicate Fits(w: Write, c: Cell) {
    c.Any? || (w.address % 0x1000 == c.address && w.value == c.value)
  }

  /** The writes are the first cells of the entry. */
  predicate Begins(ws: seq<Write>, e: Entry) {
    |ws| <= |e.cells| && forall i :: 0 <= i < |ws| ==> Fits(ws[i], e.cells[i])
  }

  predicate Spells(ws: seq<Write>, e: Entry) { |ws| == |e.cells| && Begins(ws, e) }

  /** A command could still come of these writes. */
  predicate Partial(ws: seq<Write>) {
    exists k :: 0 <= k < |PATTERNS| && Begins(ws, PATTERNS[k]) && |ws| < |PATTERNS[k].cells|
  }

  /** The first entry, in table order, that the writes spell. */
  function Spelled(ws: seq<Write>, k: nat): (h: Option<Handler>)
    requires k <= |PATTERNS|
    ensures h.Some? ==> exists j :: k <= j < |PATTERNS| && Spells(ws, PATTERNS[j]) && h.value == PATTERNS[j].handler
                                    && forall i :: k <= i < j ==> !Spells(ws, PATTERNS[i])
    ensures h.None? ==> forall j :: k <= j < |PATTERNS| ==> !Spells(ws, PATTERNS[j])
    decreases |PATTERNS| - k
  {
    if k == |PATTERNS| then None
    else if Spells(ws, PATTERNS[k]) then Some(PATTERNS[k].handler)
    else Spelled(ws, k + 1)
  }

  /** What an unlocked write does to the writes pending. */
  function Pended(pending: seq<Write>, w: Write): seq<Write> {
    var ws := pending + [w];
    if Spelled(ws, 0).Some? then [] else if Partial(ws) then ws else []
  }

  /** The wildcard that ends the sector erase also takes the value that would erase the chip. */
  lemma ChipEraseIsShadowed(ws: seq<Write>)
    ensures Spelled(ws, 0) != Some(EraseChip)
  {
    if Spells(ws, PATTERNS[2]) {
      assert Begins(ws, PATTERNS[1]) by {
        forall i | 0 <= i < |ws| ensures Fits(ws[i], PATTERNS[1].cells[i]) { assert Fits(ws[i], PATTERNS[2].cells[i]); }
      }
    }
  }

  // ----- sectors

  /** The chip has `pages` 16K pages; `pages / 4` blocks of 64K. */
  predicate ChipSize(pages: nat) { pages % 4 == 0 && pages > 0 }

  predicate InLastBlock(a: nat, pages: nat) { a / 0x10000 + 1 == pages / 4 }

  /** The last block is split into 32K, 8K, 8K and 16K. */
  function SectorLength(a: nat, pages: nat): nat {
    if !InLastBlock(a, pages) then 0x10000
    else if a / 0x2000 % 8 < 4 then 0x8000
    else if a / 0x2000 % 8 < 6 then 0x2000
    else 0x4000
  }

  function SectorStart(a: nat, pages: nat): nat { a - a % SectorLength(a, pages) }

  predicate InSector(b: nat, a: nat, pages: nat) {
    SectorStart(a, pages) <= b < SectorStart(a, pages) + SectorLength(a, pages)
  }

  lemma OffsetSector(a: nat, pages: nat)
    ensures var block, off := a - a % 0x10000, a % 0x10000;
            SectorStart(a, pages) == block + (if !InLastBlock(a, pages) || off < 0x8000 then 0
                                              else if off < 0xA000 then 0x8000
                                              else if off < 0xC000 then 0xA000 else 0xC000)
    ensures SectorLength(a, pages) == if !InLastBlock(a, pages) then 0x10000 else if a % 0x10000 < 0x8000 then 0x8000
                                      else if a % 0x10000 < 0xC000 then 0x2000 else 0x4000
  {
    var block, off := a / 0x10000, a % 0x10000;
    Eighths(block, off);
    Remainders(block, off);
  }

  lemma Eighths(block: nat, off: nat)
    requires off < 0x10000
    ensures (0x10000 * block + off) / 0x2000 % 8 == off / 0x2000
  {
    assert (0x10000 * block + off) / 0x2000 == 8 * block + off / 0x2000;
  }

  lemma Remainders(block: nat, off: nat)
    requires off < 0x10000
    ensures (0x10000 * block + off) % 0x8000 == off % 0x8000
    ensures (0x10000 * block + off) % 0x4000 == off % 0x4000
    ensures (0x10000 * block + off) % 0x2000 == off % 0x2000
  {
    Remainder8000(2 * block, off);
    Remainder4000(4 * block, off);
    Remainder2000(8 * block, off);
  }

  lemma Remainder8000(k: nat, off: nat)
    ensures (0x8000 * k + off) % 0x8000 == off % 0x8000
  {
  }

  lemma Remainder4000(k: nat, off: nat)
    ensures (0x4000 * k + off) % 0x4000 == off % 0x4000
  {
  }

  lemma Remainder2000(k: nat, off: nat)
    ensures (0x2000 * k + off) % 0x2000 == off % 0x2000
  {
  }

  /** The sectors partition the chip: each address lies in its own, every address in a sector has
      that same sector, and all of it is within the chip. */
  lemma SectorsPartition(a: nat, b: nat, pages: nat)
    requires ChipSize(pages) && a < pages * 0x4000 && b < pages * 0x4000
    ensures InSector(a, a, pages)
    ensures InSector(b, a, pages) <==> SectorStart(b, pages) == SectorStart(a, pages)
    ensures InSector(b, a, pages) ==> SectorLength(b, pages) == SectorLength(a, pages)
    ensures SectorStart(a, pages) + SectorLength(a, pages) <= pages * 0x4000
  {
    OffsetSector(a, pages);
    OffsetSector(b, pages);
  }

  // ----- the memory as a whole

  datatype Bank = Bank(page: nat, flash: bool)

  datatype Chip =
    Chip(ram: seq<bv8>, flash: seq<bv8>, pages: nat, banks: seq<Bank>, unlocked: bool, pending: seq<Write>)

  /** Bank pages exist; what the recogniser holds could still become a command. */
  ghost predicate Valid(c: Chip) {
    && ChipSize(c.pages) && |c.flash| == c.pages * 0x4000
    && BanksExist(c.banks, c.pages, |c.ram|)
    && Partial(c.pending)
  }

  predicate BanksExist(banks: seq<Bank>, pages: nat, ramSize: nat) {
    && |banks| == 4
    && forall i :: 0 <= i < 4 ==>
         if banks[i].flash then banks[i].page < pages else (banks[i].page + 1) * 0x4000 <= ramSize
  }

  function BankOf(c: Chip, a: word): Bank
    requires |c.banks| == 4
  {
    c.banks[a / 0x4000]
  }

  function Mapped(c: Chip, a: word): nat
    requires |c.banks| == 4
  {
    a % 0x4000 + BankOf(c, a).page * 0x4000
  }

  function Erased(flash: seq<bv8>, from: nat, length: nat): (r: seq<bv8>)
    ensures |r| == |flash|
    ensures forall i :: 0 <= i < |flash| ==> r[i] == if from <= i < from + length then 0xFF else flash[i]
  {
    seq(|flash|, i requires 0 <= i < |flash| => if from <= i < from + length then 0xFF else flash[i])
  }

  /** What a command does to the chip. */
  function Handled(h: Handler, flash: seq<bv8>, pages: nat, a: nat, v: bv8): (r: seq<bv8>)
    requires a < |flash|
    ensures |r| == |flash|
  {
    match h
    case Program => flash[a := flash[a] & v]
    case EraseSector => Erased(flash, SectorStart(a, pages), SectorLength(a, pages))
    case EraseChip => Erased(flash, 0, |flash|)
  }

  /** `Map` stands for whatever the paging ports do. */
  datatype Op = Read(a: word) | Store(a: word, v: bv8) | Lock(unlocked: bool) | Map(banks: seq<Bank>)

  predicate Allowed(c: Chip, op: Op) {
    op.Map? ==> BanksExist(op.banks, c.pages, |c.ram|)
  }

  predicate FlashRead(c: Chip, op: Op)
    requires |c.banks| == 4
  {
    op.Read? && BankOf(c, op.a).flash
  }

  /** A write the recogniser looks at. */
  predicate FlashStore(c: Chip, op: Op)
    requires |c.banks| == 4
  {
    op.Store? && BankOf(c, op.a).flash && c.unlocked
  }

  function Fires(c: Chip, op: Op): Option<Handler>
    requires |c.banks| == 4
  {
    if FlashStore(c, op) then Spelled(c.pending + [Write(op.a, op.v)], 0) else None
  }

  lemma MappedInRange(c: Chip, a: word)
    requires Valid(c)
    ensures Mapped(c, a) < if BankOf(c, a).flash then |c.flash| else |c.ram|
  {
    var bank := BankOf(c, a);
    assert 0 <= a / 0x4000 < 4;
  }

  function ByteAt(c: Chip, a: word): bv8
    requires Valid(c)
  {
    MappedInRange(c, a);
    if BankOf(c, a).flash then c.flash[Mapped(c, a)] else c.ram[Mapped(c, a)]
  }

  function Apply(c: Chip, op: Op): Chip
    requires Valid(c)
  {
    match op
    case Read(a) => if BankOf(c, a).flash then c.(pending := []) else c
    case Lock(unlocked) => c.(unlocked := unlocked)
    case Map(banks) => c.(banks := banks)
    case Store(a, v) =>
      MappedInRange(c, a);
      if !BankOf(c, a).flash then c.(ram := c.ram[Mapped(c, a) := v])
      else if !c.unlocked then c
      else
        var h := Fires(c, op);
        c.(pending := Pended(c.pending, Write(a, v)),
        flash := if h.Some? then Handled(h.value, c.flash, c.pages, Mapped(c, a), v) else c.flash)
  }

  lemma NothingIsPartial()
    ensures Partial([])
  {
    assert Begins([], PATTERNS[0]);
  }

  lemma ApplyKeepsValid(c: Chip, op: Op)
    requires Valid(c) && Allowed(c, op)
    ensures Valid(Apply(c, op)) && Apply(c, op).pages == c.pages && |Apply(c, op).ram| == |c.ram|
  {
    NothingIsPartial();
    if op.Store? { MappedInRange(c, op.a); }
  }

  // ----- runs

  ghost predicate AllowedRun(c: Chip, ops: seq<Op>) {
    forall i :: 0 <= i < |ops| ==> Allowed(c, ops[i])
  }

  /** The state after the first `n` operations. */
  ghost function At(c: Chip, ops: seq<Op>, n: nat): (r: Chip)
    requires n <= |ops| && Valid(c) && AllowedRun(c, ops)
    ensures Valid(r) && r.pages == c.pages && |r.ram| == |c.ram|
  {
    if n == 0 then c
    else
      ApplyKeepsValid(At(c, ops, n - 1), ops[n - 1]);
      Apply(At(c, ops, n - 1), ops[n - 1])
  }

  /** The unlocked flash writes among operations `j` to `n`. */
  ghost function StoresBetween(c: Chip, ops: seq<Op>, j: nat, n: nat): seq<Write>
    requires n <= |ops| && Valid(c) && AllowedRun(c, ops)
  {
    if n <= j then []
    else
      StoresBetween(c, ops, j, n - 1)
      + if FlashStore(At(c, ops, n - 1), ops[n - 1]) then [Write(ops[n - 1].a, ops[n - 1].v)] else []
  }

  /** The recogniser holds at most five writes, and they begin some command and complete none. */
  lemma PendingIsShort(c: Chip)
    requires Valid(c)
    ensures |c.pending| <= 5
  {
  }

  /** In every run the writes pending are exactly the unlocked flash writes since some reset, and
      since then no flash was read and no command ran. */
  lemma {:induction false} SinceReset(c: Chip, ops: seq<Op>, n: nat) returns (j: nat)
    requires n <= |ops| && Valid(c) && c.pending == [] && AllowedRun(c, ops)
    ensures j <= n && At(c, ops, j).pending == []
    ensures At(c, ops, n).pending == StoresBetween(c, ops, j, n)
    ensures forall i :: j <= i < n ==> !FlashRead(At(c, ops, i), ops[i]) && Fires(At(c, ops, i), ops[i]).None?
  {
    hide Apply, Valid, Fires, FlashRead, FlashStore;
    if n == 0 { return 0; }
    j := SinceReset(c, ops, n - 1);
    if At(c, ops, n).pending == [] {
      j := n;
      assert StoresBetween(c, ops, n, n) == [];
    } else {
      StillPending(At(c, ops, n - 1), ops[n - 1]);
    }
  }

  lemma StillPending(c: Chip, op: Op)
    requires Valid(c) && Apply(c, op).pending != []
    ensures !FlashRead(c, op) && Fires(c, op).None?
    ensures Apply(c, op).pending == c.pending + if FlashStore(c, op) then [Write(op.a, op.v)] else []
  {
    hide Spelled, Partial;
  }

  /** A command runs exactly when those writes and the new one spell an entry; the first entry in
      table order is the one that runs. */
  lemma CommandRuns(c: Chip, ops: seq<Op>, n: nat, h: Handler) returns (j: nat)
    requires n < |ops| && Valid(c) && c.pending == [] && AllowedRun(c, ops)
    ensures j <= n && At(c, ops, j).pending == []
    ensures forall i :: j <= i < n ==> !FlashRead(At(c, ops, i), ops[i]) && Fires(At(c, ops, i), ops[i]).None?
    ensures Fires(At(c, ops, n), ops[n]) == Some(h) <==>
            FlashStore(At(c, ops, n), ops[n])
            && exists k :: 0 <= k < |PATTERNS| && Spells(StoresBetween(c, ops, j, n + 1), PATTERNS[k])
                           && PATTERNS[k].handler == h
                           && forall i :: 0 <= i < k ==> !Spells(StoresBetween(c, ops, j, n + 1), PATTERNS[i])
  {
    j := SinceReset(c, ops, n);
    if FlashStore(At(c, ops, n), ops[n]) {
      var ws := StoresBetween(c, ops, j, n + 1);
      assert ws == At(c, ops, n).pending + [Write(ops[n].a, ops[n].v)];
      var r := Spelled(ws, 0);
      if k :| 0 <= k < |PATTERNS| && Spells(ws, PATTERNS[k]) && PATTERNS[k].handler == h
              && forall i :: 0 <= i < k ==> !Spells(ws, PATTERNS[i]) {
        var m :| 0 <= m < |PATTERNS| && Spells(ws, PATTERNS[m]) && r.value == PATTERNS[m].handler
                 && forall i :: 0 <= i < m ==> !Spells(ws, PATTERNS[i]);
      }
    }
  }

  /** Reading flash aborts a command: the next one starts from nothing. */
  lemma ReadAborts(c: Chip, op: Op)
    requires Valid(c) && FlashRead(c, op)
    ensures Apply(c, op) == c.(pending := [])
  {
  }

  /** The bits set in `after` were set in `before`. */
  predicate OnlyCleared(before: bv8, after: bv8) { before & after == after }

  lemma ClearedTwice(a: bv8, b: bv8, c: bv8)
    requires OnlyCleared(a, b) && OnlyCleared(b, c)
    ensures OnlyCleared(a, c)
  {
  }

  /** Unless a sector is erased, flash bits only go from 1 to 0. */
  lemma {:induction false} BitsOnlyClear(c: Chip, ops: seq<Op>, n: nat, a: nat)
    requires n <= |ops| && Valid(c) && AllowedRun(c, ops) && a < |c.flash|
    requires forall i :: 0 <= i < n ==> Fires(At(c, ops, i), ops[i]) != Some(EraseSector)
    ensures OnlyCleared(c.flash[a], At(c, ops, n).flash[a])
  {
    if n > 0 {
      BitsOnlyClear(c, ops, n - 1, a);
      var p := At(c, ops, n - 1);
      StepClears(p, ops[n - 1], a);
      ClearedTwice(c.flash[a], p.flash[a], At(c, ops, n).flash[a]);
    }
  }

  lemma StepClears(c: Chip, op: Op, a: nat)
    requires Valid(c) && Allowed(c, op) && a < |c.flash| && Fires(c, op) != Some(EraseSector)
    ensures OnlyCleared(c.flash[a], Apply(c, op).flash[a])
  {
    if FlashStore(c, op) { ChipEraseIsShadowed(c.pending + [Write(op.a, op.v)]); }
  }

  /** With flash locked no operation changes a flash byte, and a command that runs changes only
      the byte it programs or the sector it erases. */
  lemma FlashChangesOnlyByCommand(c: Chip, op: Op, b: nat)
    requires Valid(c) && Allowed(c, op) && b < |c.flash|
    ensures !c.unlocked ==> Apply(c, op).flash == c.flash
    ensures Fires(c, op).None? ==> Apply(c, op).flash == c.flash
    ensures Fires(c, op) == Some(Program) && b != Mapped(c, op.a) ==> Apply(c, op).flash[b] == c.flash[b]
    ensures Fires(c, op) == Some(EraseSector) ==>
              Apply(c, op).flash[b] ==
                if SectorStart(b, c.pages) == SectorStart(Mapped(c, op.a), c.pages) then 0xFF else c.flash[b]
  {
    if op.Store? {
      MappedInRange(c, op.a);
      if BankOf(c, op.a).flash { SectorsPartition(Mapped(c, op.a), b, c.pages); }
    }
    hide SectorStart, SectorLength;
  }

  // ----- whole commands

  /** A program command leaves a bit of its byte set exactly when it was set and is set in the
      value written: an erased byte takes the value. */
  lemma ProgramsItsByte(c: Chip, a: word, v: bv8, k: nat)
    requires Valid(c) && Fires(c, Store(a, v)) == Some(Program) && k < 8
    ensures var r := Apply(c, Store(a, v));
            && Valid(r) && BankOf(r, a).flash
            && (BitOf(ByteAt(r, a), k) <==> BitOf(ByteAt(c, a), k) && BitOf(v, k))
            && (ByteAt(c, a) == 0xFF ==> ByteAt(r, a) == v)
  {
    MappedInRange(c, a);
    ApplyKeepsValid(c, Store(a, v));
    Cleared(c.flash[Mapped(c, a)], v, k);
    hide BitOf, Spelled, Partial, Valid;
  }

  lemma Cleared(x: bv8, v: bv8, k: nat)
    requires k < 8
    ensures BitOf(x & v, k) <==> BitOf(x, k) && BitOf(v, k)
    ensures x == 0xFF ==> x & v == v
  {
  }

  /** Writing to RAM: the byte reads back, and so it does wherever else its page shows; every other
      address reads as before. */
  lemma StoresInRam(c: Chip, a: word, v: bv8, b: word)
    requires Valid(c) && !BankOf(c, a).flash
    ensures var r := Apply(c, Store(a, v));
            && Valid(r)
            && ByteAt(r, b) == if !BankOf(c, b).flash && Mapped(c, b) == Mapped(c, a) then v else ByteAt(c, b)
  {
    MappedInRange(c, a);
    MappedInRange(c, b);
    ApplyKeepsValid(c, Store(a, v));
  }

  /** Unlocked flash writes to these addresses of flash banks; only bits 0 to 11 count. */
  predicate Unlocks(c: Chip, x: word, y: word)
    requires |c.banks| == 4
  {
    c.unlocked && BankOf(c, x).flash && BankOf(c, y).flash && x % 0x1000 == 0xAAA && y % 0x1000 == 0x555
  }

  /** A write that neither completes a command nor breaks one off is held. */
  lemma IsHeld(c: Chip, a: word, v: bv8)
    requires Valid(c) && c.unlocked && BankOf(c, a).flash
    requires var ws := c.pending + [Write(a, v)]; Spelled(ws, 0).None? && Partial(ws)
    ensures Apply(c, Store(a, v)) == c.(pending := c.pending + [Write(a, v)])
  {
  }

  lemma SpellsNothingYet(ws: seq<Write>)
    requires |ws| != 4 && |ws| != 6
    ensures Spelled(ws, 0).None?
  {
  }

  /** The unlock sequence of program and erase. */
  lemma TwoHeld(c: Chip, x: word, y: word)
    requires Valid(c) && c.pending == [] && Unlocks(c, x, y)
    ensures var r := c.(pending := [Write(x, 0xAA), Write(y, 0x55)]);
            Valid(r) && Apply(Apply(c, Store(x, 0xAA)), Store(y, 0x55)) == r
  {
    var one, two := [Write(x, 0xAA)], [Write(x, 0xAA), Write(y, 0x55)];
    assert [] + one == one && one + [Write(y, 0x55)] == two;
    assert Begins(one, PATTERNS[0]) && Begins(two, PATTERNS[0]);
    SpellsNothingYet(one);
    SpellsNothingYet(two);
    hide Begins, Spelled, Apply;
    IsHeld(c, x, 0xAA);
    IsHeld(c.(pending := one), y, 0x55);
  }

  lemma ThirdHeld(c: Chip, x: word, y: word, z: word, v: bv8)
    requires Valid(c) && c.pending == [Write(x, 0xAA), Write(y, 0x55)] && Unlocks(c, x, y) && Unlocks(c, z, y)
    requires v == 0xA0 || v == 0x80
    ensures var r := c.(pending := [Write(x, 0xAA), Write(y, 0x55), Write(z, v)]);
            Valid(r) && Apply(c, Store(z, v)) == r
  {
    var three := [Write(x, 0xAA), Write(y, 0x55), Write(z, v)];
    assert c.pending + [Write(z, v)] == three;
    assert Begins(three, PATTERNS[if v == 0xA0 then 0 else 1]);
    SpellsNothingYet(three);
    hide Begins, Spelled, Apply;
    IsHeld(c, z, v);
  }

  /** The four writes of a program command, from rest: the last byte written is programmed, and
      nothing else of the chip changes. */
  lemma FourWritesProgram(c: Chip, x: word, y: word, z: word, a: word, v: bv8)
    requires Valid(c) && c.pending == [] && Unlocks(c, x, y) && Unlocks(c, z, y) && BankOf(c, a).flash
    ensures var ops := [Store(x, 0xAA), Store(y, 0x55), Store(z, 0xA0), Store(a, v)];
            var r := At(c, ops, 4);
            && r == c.(flash := r.flash) && |r.flash| == |c.flash|
            && (forall b: nat :: b < |c.flash| && b != Mapped(c, a) ==> r.flash[b] == c.flash[b])
            && (forall k: nat :: k < 8 ==> (BitOf(ByteAt(r, a), k) <==> BitOf(ByteAt(c, a), k) && BitOf(v, k)))
            && (ByteAt(c, a) == 0xFF ==> ByteAt(r, a) == v)
  {
    var ops := [Store(x, 0xAA), Store(y, 0x55), Store(z, 0xA0), Store(a, v)];
    assert ops[..3] == [Store(x, 0xAA), Store(y, 0x55), Store(z, 0xA0)];
    FourSpell(x, y, z, a, v);
    hide BitOf, Spelled, Partial, Begins, At, Apply, Valid;
    var three := ThreeWrites(c, x, y, z, ops);
    ProgramsOnly(three, a, v);
  }

  lemma ThreeWrites(c: Chip, x: word, y: word, z: word, ops: seq<Op>) returns (three: Chip)
    requires Valid(c) && c.pending == [] && Unlocks(c, x, y) && Unlocks(c, z, y)
    requires |ops| == 4 && ops[..3] == [Store(x, 0xAA), Store(y, 0x55), Store(z, 0xA0)] && AllowedRun(c, ops)
    ensures three == c.(pending := [Write(x, 0xAA), Write(y, 0x55), Write(z, 0xA0)])
    ensures Valid(three) && At(c, ops, 4) == Apply(three, ops[3])
  {
    hide Spelled, Partial, Begins;
    var w2 := [Write(x, 0xAA), Write(y, 0x55)];
    TwoHeld(c, x, y);
    ThirdHeld(c.(pending := w2), x, y, z, 0xA0);
    AtFour(c, ops);
    assert ops[0] == ops[..3][0] && ops[1] == ops[..3][1] && ops[2] == ops[..3][2];
    hide Apply, Valid;
    three := At(c, ops, 3);
  }

  lemma ProgramsOnly(c: Chip, a: word, v: bv8)
    requires Valid(c) && Fires(c, Store(a, v)) == Some(Program)
    ensures var r := Apply(c, Store(a, v));
            && Valid(r) && r == c.(flash := r.flash, pending := []) && |r.flash| == |c.flash|
            && (forall b: nat :: b < |c.flash| && b != Mapped(c, a) ==> r.flash[b] == c.flash[b])
            && (forall k: nat :: k < 8 ==> (BitOf(ByteAt(r, a), k) <==> BitOf(ByteAt(c, a), k) && BitOf(v, k)))
            && (ByteAt(c, a) == 0xFF ==> ByteAt(r, a) == v)
  {
    ProgramsItsByte(c, a, v, 0);
    MappedInRange(c, a);
    forall k: nat | k < 8
      ensures BitOf(ByteAt(Apply(c, Store(a, v)), a), k) <==> BitOf(ByteAt(c, a), k) && BitOf(v, k)
    {
      ProgramsItsByte(c, a, v, k);
    }
    hide BitOf, Spelled, Partial, Begins;
  }

  lemma FourSpell(x: word, y: word, z: word, a: word, v: bv8)
    requires x % 0x1000 == 0xAAA && y % 0x1000 == 0x555 && z % 0x1000 == 0xAAA
    ensures var ws := [Write(x, 0xAA), Write(y, 0x55), Write(z, 0xA0)] + [Write(a, v)];
            Spelled(ws, 0) == Some(Program)
  {
    var ws := [Write(x, 0xAA), Write(y, 0x55), Write(z, 0xA0)] + [Write(a, v)];
    assert Spells(ws, PATTERNS[0]);
  }

  /** The six writes of a sector erase, from rest: whatever the last one writes, the sector of its
      address becomes 0xFF, and nothing else of the chip changes. */
  lemma SixWritesErase(c: Chip, x: word, y: word, z: word, x2: word, y2: word, a: word, v: bv8)
    requires Valid(c) && c.pending == [] && Unlocks(c, x, y) && Unlocks(c, z, y) && Unlocks(c, x2, y2)
    requires BankOf(c, a).flash
    ensures var ops := [Store(x, 0xAA), Store(y, 0x55), Store(z, 0x80), Store(x2, 0xAA), Store(y2, 0x55), Store(a, v)];
            var r := At(c, ops, 6);
            && r == c.(flash := r.flash) && |r.flash| == |c.flash|
            && forall b: nat :: b < |c.flash| ==>
                 r.flash[b] == if InSector(b, Mapped(c, a), c.pages) then 0xFF else c.flash[b]
  {
    var ops := [Store(x, 0xAA), Store(y, 0x55), Store(z, 0x80), Store(x2, 0xAA), Store(y2, 0x55), Store(a, v)];
    assert ops[..5] == [Store(x, 0xAA), Store(y, 0x55), Store(z, 0x80), Store(x2, 0xAA), Store(y2, 0x55)];
    assert c.unlocked && |c.banks| == 4;
    SixSpell(x, y, z, x2, y2, a, v);
    hide InSector, Spelled, Partial, At, Apply, Valid;
    var five := FiveWrites(c, x, y, z, x2, y2, ops);
    assert Mapped(five, a) == Mapped(c, a);
    ErasesItsSector(five, a, v);
  }

  lemma FiveWrites(c: Chip, x: word, y: word, z: word, x2: word, y2: word, ops: seq<Op>) returns (five: Chip)
    requires Valid(c) && c.pending == [] && Unlocks(c, x, y) && Unlocks(c, z, y) && Unlocks(c, x2, y2)
    requires |ops| == 6
    requires ops[..5] == [Store(x, 0xAA), Store(y, 0x55), Store(z, 0x80), Store(x2, 0xAA), Store(y2, 0x55)]
    requires AllowedRun(c, ops)
    ensures five == c.(pending := [Write(x, 0xAA), Write(y, 0x55), Write(z, 0x80)]
                                  + [Write(x2, 0xAA), Write(y2, 0x55)])
    ensures Valid(five) && At(c, ops, 6) == Apply(five, ops[5])
  {
    hide Spelled, Partial, Begins;
    var w2 := [Write(x, 0xAA), Write(y, 0x55)];
    var w3 := w2 + [Write(z, 0x80)];
    assert w3 == [Write(x, 0xAA), Write(y, 0x55), Write(z, 0x80)];
    TwoHeld(c, x, y);
    ThirdHeld(c.(pending := w2), x, y, z, 0x80);
    FiveHeld(c.(pending := w3), x, y, z, x2, y2);
    AtSix(c, ops);
    assert ops[0] == ops[..5][0] && ops[1] == ops[..5][1] && ops[2] == ops[..5][2];
    assert ops[3] == ops[..5][3] && ops[4] == ops[..5][4];
    hide Apply, Valid;
    five := At(c, ops, 5);
  }

  lemma ErasesItsSector(c: Chip, a: word, v: bv8)
    requires Valid(c) && Fires(c, Store(a, v)) == Some(EraseSector)
    ensures var r := Apply(c, Store(a, v));
            && r == c.(flash := r.flash, pending := []) && |r.flash| == |c.flash|
            && forall b: nat :: b < |c.flash| ==>
                 r.flash[b] == if InSector(b, Mapped(c, a), c.pages) then 0xFF else c.flash[b]
  {
    MappedInRange(c, a);
    hide SectorStart, SectorLength, Spelled, Partial;
  }

  lemma FiveHeld(c: Chip, x: word, y: word, z: word, x2: word, y2: word)
    requires Valid(c) && c.pending == [Write(x, 0xAA), Write(y, 0x55), Write(z, 0x80)]
    requires Unlocks(c, x, y) && Unlocks(c, z, y) && Unlocks(c, x2, y2)
    ensures var r := c.(pending := c.pending + [Write(x2, 0xAA), Write(y2, 0x55)]);
            Valid(r) && Apply(Apply(c, Store(x2, 0xAA)), Store(y2, 0x55)) == r
  {
    var four, five := c.pending + [Write(x2, 0xAA)], c.pending + [Write(x2, 0xAA), Write(y2, 0x55)];
    assert four + [Write(y2, 0x55)] == five;
    assert Begins(four, PATTERNS[1]) && Begins(five, PATTERNS[1]);
    assert !Spells(four, PATTERNS[0]) by { assert !Fits(four[2], PATTERNS[0].cells[2]); }
    SpellsNothingYet(five);
    assert Spelled(four, 0).None? by { assert |PATTERNS[1].cells| == 6 && |PATTERNS[2].cells| == 6; }
    hide Begins, Spelled, Apply, Spells;
    IsHeld(c, x2, 0xAA);
    IsHeld(c.(pending := four), y2, 0x55);
  }

  lemma SixSpell(x: word, y: word, z: word, x2: word, y2: word, a: word, v: bv8)
    requires x % 0x1000 == 0xAAA && y % 0x1000 == 0x555 && z % 0x1000 == 0xAAA
    requires x2 % 0x1000 == 0xAAA && y2 % 0x1000 == 0x555
    ensures var ws := [Write(x, 0xAA), Write(y, 0x55), Write(z, 0x80)] + [Write(x2, 0xAA), Write(y2, 0x55)]
                      + [Write(a, v)];
            Spelled(ws, 0) == Some(EraseSector)
  {
    var ws := [Write(x, 0xAA), Write(y, 0x55), Write(z, 0x80)] + [Write(x2, 0xAA), Write(y2, 0x55)] + [Write(a, v)];
    assert |PATTERNS[0].cells| == 4;
    assert Spells(ws, PATTERNS[1]);
  }

  lemma AtSix(c: Chip, ops: seq<Op>)
    requires Valid(c) && |ops| == 6 && AllowedRun(c, ops)
    ensures Valid(At(c, ops, 1)) && At(c, ops, 1) == Apply(c, ops[0])
    ensures Valid(At(c, ops, 2)) && At(c, ops, 2) == Apply(At(c, ops, 1), ops[1])
    ensures Valid(At(c, ops, 3)) && At(c, ops, 3) == Apply(At(c, ops, 2), ops[2])
    ensures Valid(At(c, ops, 4)) && At(c, ops, 4) == Apply(At(c, ops, 3), ops[3])
    ensures Valid(At(c, ops, 5)) && At(c, ops, 5) == Apply(At(c, ops, 4), ops[4])
    ensures At(c, ops, 6) == Apply(At(c, ops, 5), ops[5])
  {
    assert At(c, ops, 0) == c;
    hide Apply, Valid;
  }

  lemma AtFour(c: Chip, ops: seq<Op>)
    requires Valid(c) && |ops| == 4 && AllowedRun(c, ops)
    ensures Valid(At(c, ops, 3)) && At(c, ops, 4) == Apply(At(c, ops, 3), ops[3])
    ensures Valid(At(c, ops, 1)) && At(c, ops, 1) == Apply(c, ops[0])
    ensures Valid(At(c, ops, 2)) && At(c, ops, 2) == Apply(At(c, ops, 1), ops[1])
    ensures At(c, ops, 3) == Apply(At(c, ops, 2), ops[2])
  {
    assert At(c, ops, 0) == c;
    hide Apply, Valid;
  }

  // ----- the structure the source updates

  class Mmu {
    const ram: array<bv8>
    const flash: array<bv8>
    const pages: nat
    var banks: seq<Bank>
    var unlocked: bool
    const writes: array<Write>
    var writeIndex: nat

    /** `ti_mmu_init`: RAM zeroed, flash erased, locked, page 0 everywhere. */
    constructor (ramPages: nat, pages: nat)
      requires ChipSize(pages) && ramPages > 0
      ensures Proper() && fresh(ram) && fresh(flash) && fresh(writes)
      ensures this.pages == pages && Abs().pending == [] && !unlocked
    {
      this.ram := new bv8[ramPages * 0x4000](_ => 0);
      this.flash := new bv8[pages * 0x4000](_ => 0xFF);
      this.pages := pages;
      this.banks := [Bank(0, true), Bank(0, true), Bank(0, true), Bank(0, false)];
      this.unlocked := false;
      this.writes := new Write[6](_ => Write(0, 0));
      this.writeIndex := 0;
      NothingIsPartial();
    }

    ghost predicate Proper()
      reads this, ram, flash, writes
    {
      writes.Length == 6 && writeIndex <= 6 && ram != flash
      && writes as object != ram as object && writes as object != flash as object && Valid(Abs())
    }

    ghost function Abs(): Chip
      requires writes.Length == 6 && writeIndex <= 6
      reads this, ram, flash, writes
    {
      Chip(ram[..], flash[..], pages, banks, unlocked, writes[..writeIndex])
    }

    /** `ti_read_byte`. */
    method ReadByte(address: word) returns (value: bv8)
      requires Proper()
      modifies this`writeIndex
      ensures Proper() && Abs() == Apply(old(Abs()), Read(address)) && value == ByteAt(old(Abs()), address)
    {
      MappedInRange(Abs(), address);
      NothingIsPartial();
      var bank := banks[address / 0x4000];
      var mapped := address % 0x4000 + bank.page * 0x4000;
      if bank.flash {
        writeIndex := 0;
        value := flash[mapped];
      } else {
        value := ram[mapped];
      }
    }

    /** `memset(&flash[from], 0xFF, length)`. */
    method Erase(from: nat, length: nat)
      requires from + length <= flash.Length
      modifies flash
      ensures flash[..] == Erased(old(flash[..]), from, length)
    {
      for i := from to from + length
        invariant forall j :: 0 <= j < flash.Length ==> flash[j] == if from <= j < i then 0xFF else old(flash[j])
      {
        flash[i] := 0xFF;
      }
    }

    method Handle(h: Handler, address: nat, value: bv8)
      requires address < flash.Length && flash.Length == pages * 0x4000 && ChipSize(pages)
      modifies flash
      ensures flash[..] == Handled(h, old(flash[..]), pages, address, value)
    {
      match h {
        case Program =>
          flash[address] := flash[address] & value;
        case EraseSector =>
          SectorsPartition(address, address, pages);
          var length := 0x10000;
          if address / 0x10000 + 1 == pages / 4 {
            var eighth := address / 0x2000 % 8;
            length := if eighth < 4 then 0x8000 else if eighth < 6 then 0x2000 else 0x4000;
          }
          Erase(address - address % length, length);
        case EraseChip =>
          Erase(0, flash.Length);
      }
    }

    /** How many of the writes pending fit the entry, from the first on. */
    method Match(e: Entry) returns (i: nat)
      requires writes.Length == 6 && writeIndex <= 6
      ensures i <= writeIndex && i <= |e.cells| && Begins(writes[..i], e)
      ensures i < writeIndex && i < |e.cells| ==> !Fits(writes[i], e.cells[i])
    {
      i := 0;
      while i < writeIndex && i < |e.cells| && Fits(writes[i], e.cells[i])
        invariant i <= writeIndex && i <= |e.cells| && Begins(writes[..i], e)
      {
        i := i + 1;
      }
    }

    /** Matching the writes against the table: which command they spell, and whether they could
        still become one. Every write but the last was pending before. */
    method Recognise() returns (h: Option<Handler>, partial: bool)
      requires writes.Length == 6 && 0 < writeIndex <= 6 && Partial(writes[..writeIndex - 1])
      ensures h == Spelled(writes[..writeIndex], 0)
      ensures h.None? ==> partial == Partial(writes[..writeIndex])
    {
      hide Begins, Spells, Fits;
      ghost var ws := writes[..writeIndex];
      h, partial := None, false;
      var k := 0;
      while k < |PATTERNS|
        invariant k <= |PATTERNS| && h.None? && Spelled(ws, 0) == Spelled(ws, k)
        invariant partial <==> exists j :: 0 <= j < k && Begins(ws, PATTERNS[j]) && |ws| < |PATTERNS[j].cells|
      {
        var i := Match(PATTERNS[k]);
        assert ws[..i] == writes[..i] && ws[..|ws| - 1] == writes[..writeIndex - 1];
        Matched(ws, k, i);
        if i == |PATTERNS[k].cells| {
          h := Some(PATTERNS[k].handler);
          partial := false;
          return;
        } else if i == writeIndex {
          partial := true;
        }
        k := k + 1;
      }
    }

    /** An unlocked write to a flash bank. */
    method FlashWrite(address: word, value: bv8, mapped: nat)
      requires Proper() && FlashStore(Abs(), Store(address, value)) && mapped == Mapped(Abs(), address) < flash.Length
      modifies this`writeIndex, flash, writes
      ensures writeIndex <= 6 && ram[..] == old(ram[..]) && Abs() == Apply(old(Abs()), Store(address, value))
    {
      hide Partial, Spelled, Handled;
      ghost var c := Abs();
      PendingIsShort(c);
      writes[writeIndex] := Write(address, value);
      writeIndex := writeIndex + 1;
      assert writes[..writeIndex - 1] == c.pending;
      assert writes[..writeIndex] == c.pending + [Write(address, value)];
      var h, partial := Recognise();
      if h.Some? {
        Handle(h.value, mapped, value);
        partial := false;
      }
      if !partial {
        writeIndex := 0;
        assert writes[..writeIndex] == [];
      }
      assert ram[..] == old(ram[..]);
    }

    /** `ti_write_byte`. */
    method WriteByte(address: word, value: bv8)
      requires Proper()
      modifies this`writeIndex, ram, flash, writes
      ensures Proper() && Abs() == Apply(old(Abs()), Store(address, value))
    {
      MappedInRange(Abs(), address);
      ApplyKeepsValid(Abs(), Store(address, value));
      var bank := banks[address / 0x4000];
      var mapped := address % 0x4000 + bank.page * 0x4000;
      if !bank.flash {
        ram[mapped] := value;
      } else if unlocked {
        FlashWrite(address, value, mapped);
      }
      hide Pended, Fires, Handled, Partial;
    }
  }

  /** What the length of a match tells. An entry shorter than the writes cannot match them: it
      would have run earlier. */
  lemma Matched(ws: seq<Write>, k: nat, i: nat)
    requires k < |PATTERNS| && ws != [] && Partial(ws[..|ws| - 1])
    requires i <= |ws| && i <= |PATTERNS[k].cells| && Begins(ws[..i], PATTERNS[k])
    requires i < |ws| && i < |PATTERNS[k].cells| ==> !Fits(ws[i], PATTERNS[k].cells[i])
    ensures i == |PATTERNS[k].cells| <==> Spells(ws, PATTERNS[k])
    ensures i == |ws| && i < |PATTERNS[k].cells| <==> Begins(ws, PATTERNS[k]) && |ws| < |PATTERNS[k].cells|
  {
    if i == |ws| { assert ws[..i] == ws; }
    NoShorterEntry(ws, k);
  }

  lemma NoShorterEntry(ws: seq<Write>, k: nat)
    requires k < |PATTERNS| && ws != [] && Partial(ws[..|ws| - 1])
    ensures |PATTERNS[k].cells| < |ws| ==> !Begins(ws[..|PATTERNS[k].cells|], PATTERNS[k])
  {
    var pending := ws[..|ws| - 1];
    var j :| 0 <= j < |PATTERNS| && Begins(pending, PATTERNS[j]) && |pending| < |PATTERNS[j].cells|;
    if |PATTERNS[k].cells| < |ws| {
      assert Fits(pending[2], PATTERNS[j].cells[2]);
      assert pending[2] == ws[..|PATTERNS[k].cells|][2];
    }
  }
}
