/** The T6A04 controller: one bit per pixel, a pointer that advances by itself, and reads that go
    through a one-word buffer (t6a04.c). */
module Lcd {
  import opened Bitmasks
  import opened Bytes

  const RAM_BYTES := 64 * 120
  const PIXELS := 8 * RAM_BYTES

  type Ram = r: seq<bv8> | |r| == 7680 witness seq(7680, _ => 0 as bv8)

  /** Eight pixels to a byte. */
  predicate Pixel(r: Ram, at: nat)
    requires at < PIXELS
  {
    BitOf(r[at / 8], at % 8)
  }

  function WithPixel(r: Ram, at: nat, on: bool): Ram
    requires at < PIXELS
  {
    r[at / 8 := WithBit(r[at / 8], at % 8, on)]
  }

  lemma PixelOfWithPixel(r: Ram, at: nat, on: bool, p: nat)
    requires at < PIXELS && p < PIXELS
    ensures Pixel(WithPixel(r, at, on), p) == if p == at then on else Pixel(r, p)
  {
    WithBitBits(r[at / 8], at % 8, on, p % 8);
    hide WithBit, BitOf;
  }

  // ----- words

  /** After `i` rounds of the write loop: the last `i` pixels of the word are set. */
  function Put(r: Ram, from: nat, width: nat, v: bv8, i: nat): Ram
    requires i <= width <= 8 && from + width <= PIXELS
  {
    if i == 0 then r else WithPixel(Put(r, from, width, v, i - 1), from + width - i, BitOf(v, i - 1))
  }

  lemma {:induction false} PutPixels(r: Ram, from: nat, width: nat, v: bv8, i: nat, p: nat)
    requires i <= width <= 8 && from + width <= PIXELS && p < PIXELS
    ensures Pixel(Put(r, from, width, v, i), p) ==
      if from + width - i <= p < from + width then BitOf(v, from + width - 1 - p) else Pixel(r, p)
  {
    hide WithPixel, Pixel, BitOf;
    if i > 0 {
      PutPixels(r, from, width, v, i - 1, p);
      PixelOfWithPixel(Put(r, from, width, v, i - 1), from + width - i, BitOf(v, i - 1), p);
    }
  }

  /** After `i` rounds of the read loop. */
  function Collected(r: Ram, from: nat, i: nat): bv8
    requires from + i <= PIXELS
  {
    if i == 0 then 0 else (Collected(r, from, i - 1) << 1) | if Pixel(r, from + i - 1) then 1 else 0
  }

  function WidthMask(width: nat): bv8 { if width == 8 then 0xFF else 0x3F }

  /** Bit `k` of `width` collected pixels. */
  lemma {:induction false} CollectedBits(r: Ram, from: nat, i: nat, k: nat)
    requires i <= 8 && from + i <= PIXELS && k < 8
    ensures BitOf(Collected(r, from, i), k) == (k < i && Pixel(r, from + i - 1 - k))
  {
    hide Pixel;
    if i > 0 {
      var c := Collected(r, from, i - 1);
      ShiftedBits(c, Pixel(r, from + i - 1), k);
      if k > 0 { CollectedBits(r, from, i - 1, k - 1); }
    }
    hide BitOf;
  }

  lemma ShiftedBits(c: bv8, on: bool, k: nat)
    requires k < 8
    ensures BitOf((c << 1) | if on then 1 else 0, k) == if k == 0 then on else BitOf(c, k - 1)
  {
  }

  lemma MaskedBits(v: bv8, width: nat, k: nat)
    requires (width == 6 || width == 8) && k < 8
    ensures BitOf(v & WidthMask(width), k) == (k < width && BitOf(v, k))
  {
  }

  /** The pixels from `from` on spell a word, its most significant bit first. */
  predicate Shows(r: Ram, from: nat, width: nat, v: bv8)
    requires width <= 8 && from + width <= PIXELS
  {
    forall p :: from <= p < from + width ==> Pixel(r, p) == BitOf(v, from + width - 1 - p)
  }

  /** Pixels that spell a word read back as that word. */
  lemma ReadsBack(r: Ram, from: nat, width: nat, v: bv8)
    requires (width == 6 || width == 8) && from + width <= PIXELS
    requires Shows(r, from, width, v)
    ensures Collected(r, from, width) == v & WidthMask(width)
  {
    hide Pixel, BitOf, WidthMask, Collected;
    forall k | 0 <= k < 8 ensures BitOf(Collected(r, from, width), k) == BitOf(v & WidthMask(width), k) {
      CollectedBits(r, from, width, k);
      MaskedBits(v, width, k);
      if k < width { assert Pixel(r, from + width - 1 - k) == BitOf(v, k); }
    }
    SameBits(Collected(r, from, width), v & WidthMask(width));
  }

  // ----- the controller

  /** `x` is the row, `y` the column of words; `eight` selects words of 8 bits rather than 6. */
  datatype State = State(
    ram: Ram, x: int, y: int, z: int, up: bool, counter: bool, eight: bool, on: bool,
    contrast: int, opAmp1: int, opAmp2: int, readReg: bv8)

  /** X stays in 0..63 and Y in 0..31. */
  predicate Valid(s: State) { 0 <= s.x < 64 && 0 <= s.y < 32 }

  function Width(s: State): nat { if s.eight then 8 else 6 }

  /** Words in a row. */
  function Columns(s: State): nat { if s.eight then 15 else 20 }

  /** The pixels in `k` words. */
  function Span(s: State, k: nat): nat { if s.eight then 8 * k else 6 * k }

  /** The first pixel of the word the pointer is on. */
  function Here(s: State): (p: nat)
    requires Valid(s)
    ensures p + Width(s) <= PIXELS
  {
    s.x * 120 + Span(s, s.y)
  }

  /** The pointer moves one word: along the row if `counter`, else along the column. Going up, Y
      wraps at the end of the row, or at 32 once beyond it. */
  function Advanced(s: State): (r: State)
    requires Valid(s)
    ensures Valid(r) && r == s.(x := r.x, y := r.y)
  {
    if s.counter then
      if !s.up then s.(y := if s.y == 0 then Columns(s) - 1 else s.y - 1)
      else s.(y := if s.y + 1 == Columns(s) then 0 else (s.y + 1) % 32)
    else if !s.up then s.(x := if s.x == 0 then 63 else s.x - 1)
    else s.(x := (s.x + 1) % 64)
  }

  function DataWritten(s: State, v: bv8): (r: State)
    requires Valid(s)
    ensures Valid(r)
  {
    Advanced(s.(ram := Put(s.ram, Here(s), Width(s), v, Width(s))))
  }

  /** A read returns what the one before it fetched, and fetches the word under the pointer. */
  function DataRead(s: State): (r: State)
    requires Valid(s)
    ensures Valid(r)
  {
    Advanced(s.(readReg := Collected(s.ram, Here(s), Width(s))))
  }

  /** The command is told by the highest bit set. */
  function StatusWritten(s: State, v: byte): (r: State)
    ensures Valid(s) ==> Valid(r)
  {
    if v >= 0xC0 then s.(contrast := v % 0x40)
    else if v >= 0x80 then s.(x := v % 0x40)
    else if v >= 0x40 then s.(z := v % 0x40)
    else if v >= 0x20 then s.(y := v % 0x20)
    else if v >= 0x18 then s
    else if v >= 0x10 then s.(opAmp1 := v % 4)
    else if v >= 0x08 then s.(opAmp2 := v % 4)
    else if v >= 0x04 then s.(counter := v / 2 % 2 == 1, up := v % 2 == 1)
    else if v >= 0x02 then s.(on := v % 2 == 1)
    else s.(eight := v % 2 == 1)
  }

  datatype Op = Status(s: byte) | Write(w: bv8) | Read

  /** X and Y stay in range whatever is written, and in whatever mode. */
  function Step(s: State, op: Op): (r: State)
    requires Valid(s)
    ensures Valid(r)
  {
    match op case Status(v) => StatusWritten(s, v) case Write(v) => DataWritten(s, v) case Read => DataRead(s)
  }

  function After(s: State, ops: seq<Op>): (r: State)
    requires Valid(s)
    ensures Valid(r)
  {
    if ops == [] then s else Step(After(s, ops[..|ops| - 1]), ops[|ops| - 1])
  }

  // ----- commands, and a word plotted anywhere

  /** What each command byte sets, and that it sets nothing else. */
  lemma Commands(s: State, k: nat)
    requires k < 0x40
    ensures StatusWritten(s, 0x80 + k) == s.(x := k) && StatusWritten(s, 0x40 + k) == s.(z := k)
    ensures StatusWritten(s, 0xC0 + k) == s.(contrast := k)
    ensures k < 0x20 ==> StatusWritten(s, 0x20 + k) == s.(y := k)
    ensures k < 8 ==> StatusWritten(s, 0x10 + k) == s.(opAmp1 := k % 4) && StatusWritten(s, 0x18 + k) == s
                      && StatusWritten(s, 0x08 + k) == s.(opAmp2 := k % 4)
    ensures k < 4 ==> StatusWritten(s, 0x04 + k) == s.(counter := k >= 2, up := k % 2 == 1)
    ensures k < 2 ==> StatusWritten(s, 0x02 + k) == s.(on := k == 1) && StatusWritten(s, k) == s.(eight := k == 1)
  {
  }

  /** Set up as a program does: word length, X, Y and the direction. */
  function SetUp(x: nat, y: nat, eight: bool, mode: nat): seq<Op>
    requires x < 64 && y < 32 && mode < 4
  {
    [Status(if eight then 1 else 0), Status(0x80 + x), Status(0x20 + y), Status(0x04 + mode)]
  }

  lemma Prepared(s: State, x: nat, y: nat, eight: bool, mode: nat)
    requires Valid(s) && x < 64 && y < 32 && mode < 4
    ensures After(s, SetUp(x, y, eight, mode))
            == s.(x := x, y := y, eight := eight, counter := mode >= 2, up := mode % 2 == 1)
  {
    var a: Op, b: Op := Status(if eight then 1 else 0), Status(0x80 + x);
    var c: Op, d: Op := Status(0x20 + y), Status(0x04 + mode);
    AfterOne(s, [], a);
    AfterOne(s, [a], b);
    AfterOne(s, [a, b], c);
    AfterOne(s, [a, b, c], d);
    hide StatusWritten, After;
    assert [a] == [] + [a] && [a, b] == [a] + [b] && [a, b, c] == [a, b] + [c];
    assert SetUp(x, y, eight, mode) == [a, b, c] + [d];
    assert After(s, []) == s by { NoOps(s); }
    Commands(s, if eight then 1 else 0);
    Commands(After(s, [a]), x);
    Commands(After(s, [a, b]), y);
    Commands(After(s, [a, b, c]), mode);
  }

  lemma NoOps(s: State)
    requires Valid(s)
    ensures After(s, []) == s
  {
  }

  lemma AfterOne(s: State, ops: seq<Op>, op: Op)
    requires Valid(s)
    ensures After(s, ops + [op]) == Step(After(s, ops), op)
  {
    assert (ops + [op])[..|ops|] == ops;
    hide Step;
  }

  /** From any state: a word written to row `x` and column `y` shows there, most significant bit
      first, and nowhere else; the pointer then is one word (or one row) further on or back. */
  lemma Plots(s: State, x: nat, y: nat, eight: bool, mode: nat, w: bv8)
    requires Valid(s) && x < 64 && y < 32 && mode < 4
    ensures var r := After(s, SetUp(x, y, eight, mode) + [Write(w)]);
            var width, columns := if eight then 8 else 6, if eight then 15 else 20;
            var from := 120 * x + if eight then 8 * y else 6 * y;
            && from + width <= PIXELS
            && r == s.(ram := r.ram, x := r.x, y := r.y, eight := eight, counter := mode >= 2, up := mode % 2 == 1)
            && (mode < 2 ==> r.y == y && r.x == (x + if mode == 1 then 1 else 63) % 64)
            && (mode == 2 ==> r.x == x && r.y == if y == 0 then columns - 1 else y - 1)
            && (mode == 3 ==> r.x == x && r.y == if y + 1 == columns || y == 31 then 0 else y + 1)
            && forall p: nat :: p < PIXELS ==>
                 Pixel(r.ram, p) == if from <= p < from + width then BitOf(w, from + width - 1 - p) else Pixel(s.ram, p)
  {
    hide Pixel, BitOf, Put, After, SetUp;
    Prepared(s, x, y, eight, mode);
    AfterOne(s, SetUp(x, y, eight, mode), Write(w));
    var t := s.(x := x, y := y, eight := eight, counter := mode >= 2, up := mode % 2 == 1);
    forall p: nat | p < PIXELS
      ensures Pixel(DataWritten(t, w).ram, p) ==
              if Here(t) <= p < Here(t) + Width(t) then BitOf(w, Here(t) + Width(t) - 1 - p) else Pixel(s.ram, p)
    {
      PutPixels(s.ram, Here(t), Width(t), w, Width(t), p);
    }
  }

  /** A step of the pointer and one the other way cancel, but for Y at its very end: stepping up then
      down fails from 31 alone, stepping down then up from the first column off the row. */
  lemma StepsCancel(s: State)
    requires Valid(s)
    ensures var up := Advanced(s.(up := true)); var back := Advanced(up.(up := false));
            back.x == s.x && (back.y == s.y <==> !(s.counter && s.y == 31))
    ensures var down := Advanced(s.(up := false)); var back := Advanced(down.(up := true));
            back.x == s.x && (back.y == s.y <==> !(s.counter && s.y == Columns(s)))
  {
  }

  // ----- writing a row and reading it back

  function WroteAll(s: State, ws: seq<bv8>): (r: State)
    requires Valid(s)
    ensures Valid(r)
  {
    if ws == [] then s else DataWritten(WroteAll(s, ws[..|ws| - 1]), ws[|ws| - 1])
  }

  /** After `n` reads, and what they return. */
  function ReadAll(s: State, n: nat): (r: State)
    requires Valid(s)
    ensures Valid(r)
  {
    if n == 0 then s else DataRead(ReadAll(s, n - 1))
  }

  function ReadValues(s: State, n: nat): (vs: seq<bv8>)
    requires Valid(s)
    ensures |vs| == n
  {
    if n == 0 then [] else ReadValues(s, n - 1) + [ReadAll(s, n - 1).readReg]
  }

  /** The words fit in the row from the pointer on, which counts Y upwards. */
  predicate FitsRow(s: State, n: nat) {
    Valid(s) && s.counter && s.up && s.y + n <= Columns(s)
  }

  /** Where the pointer is after `n` words of the row. */
  function Column(s: State, n: nat): int { if n > 0 && s.y + n == Columns(s) then 0 else s.y + n }

  lemma AdvancesInRow(s: State)
    requires FitsRow(s, 1)
    ensures Advanced(s) == s.(y := Column(s, 1))
  {
  }

  /** One more word: the pixels from `from` on are set, and no others. */
  lemma WritesWord(s: State, v: bv8)
    requires FitsRow(s, 1)
    ensures var r := DataWritten(s, v);
            && r == s.(ram := r.ram, y := Column(s, 1))
            && forall p: nat :: p < PIXELS ==>
                 Pixel(r.ram, p) ==
                   if Here(s) <= p < Here(s) + Width(s) then BitOf(v, Here(s) + Width(s) - 1 - p) else Pixel(s.ram, p)
  {
    hide Pixel, BitOf, Put, Advanced, Here;
    AdvancesInRow(s.(ram := Put(s.ram, Here(s), Width(s), v, Width(s))));
    forall p: nat | p < PIXELS
      ensures Pixel(DataWritten(s, v).ram, p) ==
              if Here(s) <= p < Here(s) + Width(s) then BitOf(v, Here(s) + Width(s) - 1 - p) else Pixel(s.ram, p)
    {
      PutPixels(s.ram, Here(s), Width(s), v, Width(s), p);
    }
  }

  lemma MidRow(s: State, n: nat, ram: Ram, readReg: bv8)
    requires FitsRow(s, n + 1)
    ensures var m := s.(ram := ram, y := Column(s, n), readReg := readReg);
            && FitsRow(m, 1) && Here(m) == Here(s) + Span(s, n) && Column(m, 1) == Column(s, n + 1)
    ensures Here(s) + Span(s, n + 1) <= PIXELS && Span(s, n + 1) == Span(s, n) + Width(s)
  {
  }

  /** Row contents after `n` words were written. */
  predicate RowShows(s: State, r: Ram, ws: seq<bv8>)
    requires FitsRow(s, |ws|)
  {
    && (forall i: nat :: i < |ws| ==> WordShows(s, r, i, ws[i]))
    && (forall p: nat :: p < PIXELS && !(Here(s) <= p < Here(s) + Span(s, |ws|)) ==> Pixel(r, p) == Pixel(s.ram, p))
  }

  predicate WordShows(s: State, r: Ram, i: nat, w: bv8)
    requires Valid(s)
  {
    var from := Here(s) + Span(s, i);
    from + Width(s) <= PIXELS && Shows(r, from, Width(s), w)
  }

  lemma {:induction false} WritesRow(s: State, ws: seq<bv8>)
    requires FitsRow(s, |ws|)
    ensures var r := WroteAll(s, ws);
            r == s.(ram := r.ram, y := Column(s, |ws|)) && RowShows(s, r.ram, ws)
    decreases |ws|
  {
    hide Pixel, BitOf, DataWritten, Here, Span;
    if ws != [] {
      var n := |ws| - 1;
      WritesRow(s, ws[..n]);
      var before := WroteAll(s, ws[..n]);
      MidRow(s, n, before.ram, s.readReg);
      WritesWord(before, ws[n]);
      AddsWord(s, before.ram, WroteAll(s, ws).ram, ws);
    }
  }

  lemma AddsWord(s: State, before: Ram, r: Ram, ws: seq<bv8>)
    requires ws != [] && FitsRow(s, |ws|) && RowShows(s, before, ws[..|ws| - 1])
    requires var from, w := Here(s) + Span(s, |ws| - 1), ws[|ws| - 1];
             forall p: nat :: p < PIXELS ==>
               Pixel(r, p) ==
                 if from <= p < from + Width(s) then BitOf(w, from + Width(s) - 1 - p) else Pixel(before, p)
    ensures RowShows(s, r, ws)
  {
    hide Pixel, BitOf, Here;
    var n := |ws| - 1;
    MidRow(s, n, before, s.readReg);
    forall i: nat | i < |ws| ensures WordShows(s, r, i, ws[i]) {
      MidRow(s, i, before, s.readReg);
      if i < n {
        assert ws[..n][i] == ws[i];
        assert WordShows(s, before, i, ws[i]);
      }
    }
  }

  lemma {:induction false} ReadsRow(s: State, n: nat)
    requires FitsRow(s, n)
    ensures var r := ReadAll(s, n);
            && r == s.(readReg := r.readReg, y := Column(s, n))
            && (n > 0 ==> Here(s) + Span(s, n - 1) + Width(s) <= PIXELS
                          && r.readReg == Collected(s.ram, Here(s) + Span(s, n - 1), Width(s)))
  {
    hide Collected, Here, Span, Advanced;
    if n > 0 {
      ReadsRow(s, n - 1);
      var before := ReadAll(s, n - 1);
      MidRow(s, n - 1, s.ram, before.readReg);
      AdvancesInRow(before.(readReg := Collected(s.ram, Here(before), Width(s))));
    }
  }

  /** Write any words that fit the row, put Y back, throw one read away and read again: the words
      come back (their low six bits in 6-bit mode), and no other pixel has changed. */
  lemma RowRoundTrip(s: State, ws: seq<bv8>)
    requires FitsRow(s, |ws|)
    ensures var r := StatusWritten(WroteAll(s, ws), 0x20 + s.y);
            && r == s.(ram := r.ram)
            && (forall i: nat :: i < |ws| ==> ReadValues(r, |ws| + 1)[i + 1] == ws[i] & WidthMask(Width(s)))
            && (forall p: nat :: p < PIXELS && !(Here(s) <= p < Here(s) + Span(s, |ws|)) ==>
                  Pixel(r.ram, p) == Pixel(s.ram, p))
  {
    hide Pixel, WidthMask, Collected, Shows, ReadAll, WroteAll, Here, Span;
    WritesRow(s, ws);
    RestoresY(WroteAll(s, ws), s);
    var r := StatusWritten(WroteAll(s, ws), 0x20 + s.y);
    hide StatusWritten;
    SamePlace(s, r.ram);
    forall i: nat | i < |ws| ensures ReadValues(r, |ws| + 1)[i + 1] == ws[i] & WidthMask(Width(s)) {
      ValueRead(r, |ws| + 1, i + 1);
      ReadsRow(r, i + 1);
      assert WordShows(s, r.ram, i, ws[i]);
      ReadsBack(r.ram, Here(s) + Span(s, i), Width(s), ws[i]);
    }
  }

  lemma RestoresY(w: State, s: State)
    requires Valid(s) && w == s.(ram := w.ram, y := w.y)
    ensures StatusWritten(w, 0x20 + s.y) == s.(ram := w.ram)
  {
  }

  lemma SamePlace(s: State, ram: Ram)
    requires Valid(s)
    ensures var r := s.(ram := ram);
            Here(r) == Here(s) && Width(r) == Width(s) && forall k: nat :: Span(r, k) == Span(s, k)
  {
  }

  lemma {:induction false} ValueRead(s: State, n: nat, i: nat)
    requires Valid(s) && i < n
    ensures ReadValues(s, n)[i] == ReadAll(s, i).readReg
    decreases n
  {
    hide DataRead;
    if i < n - 1 { ValueRead(s, n - 1, i); }
  }

  // ----- the structure the source updates

  class Controller {
    const ram: array<bv8>
    var x: int
    var y: int
    var z: int
    var up: bool
    var counter: bool
    var wordLength: bool
    var displayOn: bool
    var contrast: int
    var opAmp1: int
    var opAmp2: int
    var readReg: bv8

    /** `setup_lcd_display` and `bw_lcd_reset`. */
    constructor ()
      ensures Proper() && fresh(ram) && forall p: nat :: p < PIXELS ==> !Pixel(Abs().ram, p)
    {
      ram := new bv8[RAM_BYTES](_ => 0);
      x, y, z, up, counter, wordLength, displayOn := 0, 0, 0, true, false, true, false;
      contrast, opAmp1, opAmp2, readReg := 0, 0, 0, 0;
      new;
      forall p: nat | p < PIXELS ensures !Pixel(Abs().ram, p) {
        assert ram[p / 8] == 0;
        NoBits(p % 8);
      }
    }

    static lemma NoBits(k: nat)
      requires k < 8
      ensures !BitOf(0, k)
    {
    }

    ghost predicate Proper()
      reads this, ram
    {
      ram.Length == RAM_BYTES && Valid(Abs())
    }

    ghost function Abs(): State
      requires ram.Length == RAM_BYTES
      reads this, ram
    {
      State(ram[..], x, y, z, up, counter, wordLength, displayOn, contrast, opAmp1, opAmp2, readReg)
    }

    /** `bw_lcd_read_screen`. */
    method ReadScreen(cY: nat, cX: nat) returns (on: bool)
      requires ram.Length == RAM_BYTES && cX * 120 + cY < PIXELS
      ensures on == Pixel(ram[..], cX * 120 + cY)
    {
      var location := cX * 120 + cY;
      on := ram[location / 8] & Mask(location % 8) != 0;
    }

    /** `bw_lcd_write_screen`. */
    method WriteScreen(cY: nat, cX: nat, on: bool) returns (dirty: bool)
      requires ram.Length == RAM_BYTES && cX * 120 + cY < PIXELS
      modifies ram
      ensures ram[..] == WithPixel(old(ram[..]), cX * 120 + cY, on)
      ensures dirty == (ram[..] != old(ram[..]))
    {
      var location := cX * 120 + cY;
      dirty := SetBit(location / 8, location % 8, on);
    }

    method SetBit(at: nat, k: nat, on: bool) returns (dirty: bool)
      requires at < ram.Length && k < 8
      modifies ram
      ensures ram[..] == old(ram[..])[at := WithBit(old(ram[..])[at], k, on)]
      ensures dirty == (ram[..] != old(ram[..]))
    {
      hide WithBit, Mask;
      ghost var before := ram[..];
      var orig := ram[at];
      var bits := Merged(orig, k, on);
      ram[at] := bits;
      dirty := orig != bits;
      Updated(before, at, bits);
    }

    /** Clears the bit, then sets it if it is to be on. */
    static method Merged(orig: bv8, k: nat, on: bool) returns (bits: bv8)
      requires k < 8
      ensures bits == WithBit(orig, k, on)
    {
      bits := orig & !Mask(k);
      bits := bits | if on then Mask(k) else 0;
    }

    static lemma Updated(s: seq<bv8>, at: nat, v: bv8)
      requires at < |s|
      ensures s[at := v] != s <==> s[at] != v
    {
      assert s[at := s[at]] == s;
      assert s[at := v][at] == v;
    }

    /** `bw_lcd_status_write`. */
    method StatusWrite(v: byte)
      requires ram.Length == RAM_BYTES
      modifies this
      ensures Abs() == StatusWritten(old(Abs()), v)
    {
      hide Bit;
      HighestBit(v);
      if Bit(v, 7) && Bit(v, 6) {
        contrast := v % 0x40;
      } else if Bit(v, 7) {
        x := v % 0x40;
      } else if Bit(v, 6) {
        z := v % 0x40;
      } else if Bit(v, 5) {
        y := v % 0x20;
      } else if Bit(v, 4) && Bit(v, 3) {
        // test mode
      } else if Bit(v, 4) {
        opAmp1 := v % 4;
      } else if Bit(v, 3) {
        opAmp2 := v % 4;
      } else if Bit(v, 2) {
        counter, up := Bit(v, 1), Bit(v, 0);
      } else if Bit(v, 1) {
        displayOn := Bit(v, 0);
      } else {
        wordLength := Bit(v, 0);
      }
    }

    static lemma HighestBit(v: byte)
      ensures Bit(v, 7) == (v >= 0x80)
      ensures v < 0x80 ==> Bit(v, 6) == (v >= 0x40)
      ensures v >= 0x80 ==> Bit(v, 6) == (v >= 0xC0)
      ensures v < 0x40 ==> Bit(v, 5) == (v >= 0x20)
      ensures v < 0x20 ==> Bit(v, 4) == (v >= 0x10)
      ensures v < 0x10 ==> Bit(v, 3) == (v >= 0x08)
      ensures 0x10 <= v < 0x20 ==> Bit(v, 3) == (v >= 0x18)
      ensures v < 0x08 ==> Bit(v, 2) == (v >= 0x04)
      ensures v < 0x04 ==> Bit(v, 1) == (v >= 0x02)
      ensures Bit(v, 1) == (v / 2 % 2 == 1) && Bit(v, 0) == (v % 2 == 1)
    {
    }

    /** `bw_lcd_advance_pointer`. */
    method AdvancePointer()
      requires Proper()
      modifies this`x, this`y
      ensures Abs() == Advanced(old(Abs())) && Proper()
    {
      var maxX := if wordLength then 15 else 20;
      if counter {
        if !up {
          y := y - 1;
          if y < 0 {
            y := maxX - 1;
          }
        } else {
          y := y + 1;
          if y == maxX {
            y := 0;
          }
          y := y % 32;
        }
      } else {
        if !up {
          x := x - 1;
          if x < 0 {
            x := 63;
          }
        } else {
          x := x + 1;
          x := x % 64;
        }
      }
    }

    /** `bw_lcd_data_read`. */
    method DataReadPort() returns (value: bv8)
      requires Proper()
      modifies this`x, this`y, this`readReg
      ensures value == old(readReg) && Abs() == DataRead(old(Abs())) && Proper()
    {
      hide Pixel;
      var max := if wordLength then 8 else 6;
      var cY := y * max;
      var cX := x;
      ghost var from := Here(Abs());
      assert from + max <= PIXELS && from == cX * 120 + cY;
      value := readReg;
      readReg := 0;
      for i := 0 to max
        invariant x == old(x) && y == old(y) && cY + cX * 120 == from + i && readReg == Collected(ram[..], from, i)
      {
        readReg := readReg << 1;
        var on := ReadScreen(cY, cX);
        readReg := readReg | if on then 1 else 0;
        cY := cY + 1;
      }
      AdvancePointer();
    }

    /** `bw_lcd_data_write`. */
    method DataWritePort(v: bv8) returns (dirty: bool)
      requires Proper()
      modifies this`x, this`y, ram
      ensures Abs() == DataWritten(old(Abs()), v) && Proper()
    {
      hide Pixel, WithPixel;
      var max := if wordLength then 8 else 6;
      var cY := y * max;
      var cX := x;
      ghost var from := Here(Abs());
      assert from + max <= PIXELS && from == cX * 120 + cY;
      dirty := false;
      cY := cY + (max - 1);
      for i := 0 to max
        invariant x == old(x) && y == old(y) && cY + cX * 120 == from + max - 1 - i
                  && ram[..] == Put(old(ram[..]), from, max, v, i)
      {
        var changed := WriteScreen(cY, cX, v & Mask(i) != 0);
        dirty := dirty || changed;
        cY := cY - 1;
      }
      AdvancePointer();
    }
  }
}
