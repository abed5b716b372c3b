/** internal/util/crc16: bit reversal, the two table generators, the two
  * table-driven updaters, configurations with their lazily built table, the
  * streaming digest and the one-shot checksum.
  */
module Crc16 {
  import opened CrcBits
  import opened CrcWords

  // -------------------------------------------------------- specification

  /** A byte string as the bit stream an updater consumes. */
  function Bits(o: Order, p: seq<Byte>): (bits: seq<bool>)
    ensures |bits| == 8 * |p|
    decreases |p|
  {
    if p == [] then [] else ByteBits(o, p[0]) + Bits(o, p[1..])
  }

  /** What dividing the single byte `i` leaves in an empty register. */
  ghost function Entry(o: Order, poly: Reg, i: nat): Reg
    requires i < 256
  {
    Divide(poly, ZERO, ByteBits(o, ByteOf(i)))
  }

  /** The 256-word table of a polynomial. */
  ghost predicate IsTable(o: Order, poly: Reg, tab: seq<Word>) {
    && |tab| == 256
    && forall i :: 0 <= i < 256 ==> View(o, tab[i]) == Entry(o, poly, i)
  }

  /** `b` is the bit-reversal of `a`: bit i of one is bit 15-i of the other. */
  predicate IsReversal(a: Word, b: Word) {
    LowFirst(b) == Reversed(LowFirst(a))
  }

  predicate IsReversal8(a: Byte, b: Byte) {
    LowFirst(b as Word)[..8] == Reversed(LowFirst(a as Word)[..8])
  }

  /** One turn of the loop in Update. */
  function UpdateStep(tab: seq<Word>, crc: Word, v: Byte): Word
    requires |tab| == 256
  {
    tab[Value(((crc & 0xFF) as Byte) ^ v)] ^ (crc >> 8)
  }

  /** One turn of the loop in UpdateNBR. */
  function UpdateNBRStep(tab: seq<Word>, crc: Word, v: Byte): Word
    requires |tab| == 256
  {
    tab[Value((((crc >> 8) & 0xFF) as Byte) ^ v)] ^ (crc << 8)
  }

  function TableStep(o: Order, tab: seq<Word>, crc: Word, v: Byte): Word
    requires |tab| == 256
  {
    match o case Reflected => UpdateStep(tab, crc, v) case Direct => UpdateNBRStep(tab, crc, v)
  }

  function TableRun(o: Order, tab: seq<Word>, crc: Word, p: seq<Byte>): Word
    requires |tab| == 256
    decreases |p|
  {
    if p == [] then crc else TableRun(o, tab, TableStep(o, tab, crc, p[0]), p[1..])
  }

  // ---------------------------------------------------------------- reverse

  /** A shift count as a word. */
  function Amount(n: nat): Word {
    if n == 0 then 0 else Amount(n - 1) + 1
  }

  lemma AmountPred(n: nat)
    requires 1 <= n
    ensures Amount(n) - 1 == Amount(n - 1)
  {
  }

  lemma AmountBound(n: nat)
    requires n < WIDTH
    ensures Amount(n) <= 15 && (n >= 1 ==> Amount(n) >= 1)
  {
    assert Amount(0) == 0 && Amount(1) == 1 && Amount(2) == 2 && Amount(3) == 3;
    assert Amount(4) == 4 && Amount(5) == 5 && Amount(6) == 6 && Amount(7) == 7;
    assert Amount(8) == 8 && Amount(9) == 9 && Amount(10) == 10 && Amount(11) == 11;
    assert Amount(12) == 12 && Amount(13) == 13 && Amount(14) == 14 && Amount(15) == 15;
  }

  lemma OneShiftLess(r: Word, s: Word)
    requires 1 <= s <= 15
    ensures r << s == (r << 1) << (s - 1)
  {
  }

  lemma ShiftByNothing(r: Word, s: Word)
    requires s == 0
    ensures r << s == r
  {
  }

  lemma {:induction false} ShiftIsIterated(r: Word, s: Word, n: nat)
    requires n < WIDTH && s == Amount(n)
    ensures s <= 15 && r << s == ShlN(r, n)
    decreases n
  {
    AmountBound(n);
    if n == 0 {
      ShiftByNothing(r, s);
    } else {
      AmountBound(n - 1);
      AmountPred(n);
      OneShiftLess(r, s);
      ShiftIsIterated(r << 1, Amount(n - 1), n - 1);
    }
  }

  /** r <<= 1; r |= v & 1 pushes the low bit of `v` in at the bottom of `r`. */
  lemma PushedWord(r: Word, v: Word)
    ensures Odd((r << 1) | (v & 1)) == Odd(v)
    ensures ((r << 1) | (v & 1)) >> 1 == (r << 1) >> 1
  {
  }

  lemma PushBitAt(r: Word, v: Word, i: nat)
    requires i < WIDTH
    ensures Bit((r << 1) | (v & 1), i) == if i == 0 then Bit(v, 0) else Bit(r, i - 1)
  {
    PushedWord(r, v);
    BitShl(r, i);
  }

  lemma PushBit(r: Word, v: Word)
    ensures LowFirst((r << 1) | (v & 1)) == [LowFirst(v)[0]] + LowFirst(r)[..WIDTH - 1]
  {
    var t := (r << 1) | (v & 1);
    forall i | 0 <= i < WIDTH ensures Bit(t, i) == if i == 0 then Bit(v, 0) else Bit(r, i - 1) {
      PushBitAt(r, v, i);
    }
  }

  lemma NonzeroBits(v: Word, b: Reg, j: nat)
    requires j < WIDTH && LowFirst(v) == b[j + 1..] + Zeros(j + 1)
    ensures v != 0 ==> j + 1 < WIDTH
    ensures v == 0 ==> b == b[..j + 1] + Zeros(15 - j)
  {
    ViewZero(Reflected);
    if j + 1 == WIDTH {
      assert LowFirst(v) == LowFirst(0);
      ViewInjective(Reflected, v, 0);
    }
    if v == 0 {
      forall i | j + 1 <= i < WIDTH ensures !b[i] { assert b[i] == LowFirst(v)[i - j - 1]; }
    }
  }

  lemma PrefixGrows(b: Reg, j: nat, r: seq<bool>)
    requires j + 1 < WIDTH && |r| == WIDTH && r[..j + 1] == Reversed(b[..j + 1])
    ensures ([b[j + 1]] + r[..WIDTH - 1])[..j + 2] == Reversed(b[..j + 2])
  {
    assert ([b[j + 1]] + r[..WIDTH - 1])[..j + 2] == [b[j + 1]] + r[..j + 1];
  }

  lemma PrefixComplete(b: Reg, j: nat, c: seq<bool>, n: nat)
    requires j < WIDTH && n == 15 - j && |c| == WIDTH && c[..j + 1] == Reversed(b[..j + 1])
    requires b == b[..j + 1] + Zeros(n)
    ensures Zeros(n) + c[..WIDTH - n] == Reversed(b)
  {
    assert WIDTH - n == j + 1;
    var t := Zeros(n) + c[..j + 1];
    forall i | 0 <= i < WIDTH ensures t[i] == b[WIDTH - 1 - i] {
      if n <= i { assert t[i] == Reversed(b[..j + 1])[i - n]; }
    }
  }

  /** What the loop has reached after `j` turns: the low `j+1` bits of `r` are
    * the reversal of the low `j+1` bits of the argument, `v` holds the rest. */
  ghost predicate Turned(b: Reg, r: Word, v: Word, j: nat) {
    && j < WIDTH
    && LowFirst(r)[..j + 1] == Reversed(b[..j + 1])
    && LowFirst(v) == b[j + 1..] + Zeros(j + 1)
  }

  lemma Turn(b: Reg, r: Word, v: Word, j: nat)
    requires Turned(b, r, v, j) && v != 0
    ensures j + 1 < WIDTH && Turned(b, (r << 1) | (v & 1), v >> 1, j + 1)
  {
    NonzeroBits(v, b, j);
    assert LowFirst(v >> 1) == b[j + 2..] + Zeros(j + 2) by { ShiftRight(v); }
    assert LowFirst((r << 1) | (v & 1)) == [b[j + 1]] + LowFirst(r)[..WIDTH - 1] by { PushBit(r, v); }
    PrefixGrows(b, j, LowFirst(r));
  }

  lemma LastShift(b: Reg, r: Word, j: nat)
    requires Turned(b, r, 0, j)
    ensures LowFirst(ShlN(r, 15 - j)) == Reversed(b)
  {
    NonzeroBits(0, b, j);
    ShiftLeftN(r, 15 - j);
    PrefixComplete(b, j, LowFirst(r), 15 - j);
  }

  lemma Finish(v0: Word, r: Word, s: Word, j: nat)
    requires Turned(LowFirst(v0), r, 0, j) && s == Amount(15 - j)
    ensures s <= 15 && IsReversal(v0, r << s)
  {
    ShiftIsIterated(r, s, 15 - j);
    LastShift(LowFirst(v0), r, j);
  }

  lemma Start(v: Word)
    ensures Turned(LowFirst(v), v, v >> 1, 0) && Amount(15) == 15
  {
    ShiftRight(v);
    assert LowFirst(v)[..1] == Reversed(LowFirst(v)[..1]);
    assert Zeros(1) == [false];
  }

  lemma Continue(b: Reg, r: Word, v: Word, s: Word, j: nat)
    requires Turned(b, r, v, j) && v != 0 && s == Amount(15 - j)
    ensures j + 1 < WIDTH && Turned(b, (r << 1) | (v & 1), v >> 1, j + 1) && s - 1 == Amount(15 - (j + 1))
  {
    Turn(b, r, v, j);
    AmountPred(15 - j);
  }

  /** The shift-and-or loop stops as soon as no set bit is left and makes up the
    * missing places with one final shift. */
  method Reverse(v0: Word) returns (r: Word)
    ensures IsReversal(v0, r)
  {
    var v := v0;
    r := v;
    var s: Word := 15;
    ghost var j: nat := 0;
    Start(v);
    v := v >> 1;
    while v != 0
      invariant Turned(LowFirst(v0), r, v, j) && s == Amount(15 - j)
      decreases WIDTH - j
    {
      Continue(LowFirst(v0), r, v, s, j);
      r := r << 1;
      r := r | (v & 1);
      s := s - 1;
      v := v >> 1;
      j := j + 1;
    }
    Finish(v0, r, s, j);
    r := r << s;
  }

  // ------------------------------------------------------------ one table step

  lemma TopBit(c: Word)
    ensures c & 0x8000 != 0 <==> View(Direct, c)[0]
  {
    BitShrN(c, 8, 7);
    EightShifts(c);
    assert Bit(c >> 8, 7) == Odd((c >> 8) >> 7) by { BitShrN(c >> 8, 7, 0); }
    TopBitMask(c);
  }

  lemma TopBitMask(c: Word)
    ensures c & 0x8000 != 0 <==> Odd((c >> 8) >> 7)
  {
  }

  /** The two branches of a generator's inner loop are one division step. */
  lemma StepReflected(poly: Word, c: Word, n: nat)
    requires n > 0
    ensures c & 1 == 1 ==>
      Iter(View(Reflected, poly), View(Reflected, (c >> 1) ^ poly), n - 1)
        == Iter(View(Reflected, poly), View(Reflected, c), n)
    ensures c & 1 != 1 ==>
      Iter(View(Reflected, poly), View(Reflected, c >> 1), n - 1) == Iter(View(Reflected, poly), View(Reflected, c), n)
  {
    assert c & 1 == 1 <==> View(Reflected, c)[0];
    ViewShift(Reflected, c);
    ViewXor(Reflected, c >> 1, poly);
  }

  lemma StepDirect(poly: Word, c: Word, n: nat)
    requires n > 0
    ensures c & 0x8000 != 0 ==>
      Iter(View(Direct, poly), View(Direct, (c << 1) ^ poly), n - 1) == Iter(View(Direct, poly), View(Direct, c), n)
    ensures c & 0x8000 == 0 ==>
      Iter(View(Direct, poly), View(Direct, c << 1), n - 1) == Iter(View(Direct, poly), View(Direct, c), n)
  {
    TopBit(c);
    ViewShift(Direct, c);
    ViewXor(Direct, c << 1, poly);
  }

  lemma XorPad(c: Reg, x: seq<bool>)
    requires |x| == 8
    ensures Xor(Pad(Xor(c[..8], x)), Zeros(8) + c[8..]) == Xor(c, Pad(x))
  {
  }

  lemma FromEmpty(poly: Reg, x: seq<bool>, n: nat)
    requires |x| == n == 8
    ensures Divide(poly, ZERO, x) == Iter(poly, Pad(x), n)
  {
    DivideWord(poly, ZERO, x);
    assert Xor(ZERO, Pad(x)) == Pad(x);
  }

  /** The table method: dividing a byte needs only the eight bits nearest the
    * entry; the other eight are merely moved. */
  lemma LookUp(poly: Reg, c: Reg, x: seq<bool>, n: nat)
    requires |x| == n == 8
    ensures Xor(Divide(poly, ZERO, Xor(c[..n], x)), c[n..] + Zeros(n)) == Divide(poly, c, x)
  {
    var head, rest := Pad(Xor(c[..n], x)), Zeros(n) + c[n..];
    FromEmpty(poly, Xor(c[..n], x), n);
    IterShifts(poly, rest, n);
    IterLinear(poly, head, rest, n);
    XorPad(c, x);
    DivideWord(poly, c, x);
  }

  lemma EntryAt(o: Order, poly: Reg, tab: seq<Word>, b: Byte)
    requires IsTable(o, poly, tab)
    ensures View(o, tab[Value(b)]) == Divide(poly, ZERO, ByteBits(o, b))
  {
    ByteOfValue(b);
  }

  lemma UpdateIndex(crc: Word, v: Byte)
    ensures ByteBits(Reflected, ((crc & 0xFF) as Byte) ^ v) == Xor(View(Reflected, crc)[..8], ByteBits(Reflected, v))
  {
    ByteBitsXor(Reflected, (crc & 0xFF) as Byte, v);
    EntryByteBits(Reflected, crc);
  }

  lemma UpdateNBRIndex(crc: Word, v: Byte)
    ensures ByteBits(Direct, (((crc >> 8) & 0xFF) as Byte) ^ v) == Xor(View(Direct, crc)[..8], ByteBits(Direct, v))
  {
    ByteBitsXor(Direct, ((crc >> 8) & 0xFF) as Byte, v);
    EntryByteBits(Direct, crc);
  }

  lemma UpdateEntry(poly: Reg, tab: seq<Word>, crc: Word, v: Byte)
    requires IsTable(Reflected, poly, tab)
    ensures View(Reflected, tab[Value(((crc & 0xFF) as Byte) ^ v)])
         == Divide(poly, ZERO, Xor(View(Reflected, crc)[..8], ByteBits(Reflected, v)))
  {
    UpdateIndex(crc, v);
    EntryAt(Reflected, poly, tab, ((crc & 0xFF) as Byte) ^ v);
  }

  lemma UpdateNBREntry(poly: Reg, tab: seq<Word>, crc: Word, v: Byte)
    requires IsTable(Direct, poly, tab)
    ensures View(Direct, tab[Value((((crc >> 8) & 0xFF) as Byte) ^ v)])
         == Divide(poly, ZERO, Xor(View(Direct, crc)[..8], ByteBits(Direct, v)))
  {
    UpdateNBRIndex(crc, v);
    EntryAt(Direct, poly, tab, (((crc >> 8) & 0xFF) as Byte) ^ v);
  }

  lemma TableEntryDivides(o: Order, poly: Reg, entry: Word, crc: Word, v: Byte)
    requires View(o, entry) == Divide(poly, ZERO, Xor(View(o, crc)[..8], ByteBits(o, v)))
    ensures View(o, entry ^ Shift8(o, crc)) == Divide(poly, View(o, crc), ByteBits(o, v))
  {
    ViewXor(o, entry, Shift8(o, crc));
    ViewShift8(o, crc);
    LookUp(poly, View(o, crc), ByteBits(o, v), 8);
  }

  /** One table look-up per byte is eight division steps. */
  lemma UpdateStepDivides(poly: Reg, tab: seq<Word>, crc: Word, v: Byte)
    requires IsTable(Reflected, poly, tab)
    ensures View(Reflected, UpdateStep(tab, crc, v)) == Divide(poly, View(Reflected, crc), ByteBits(Reflected, v))
  {
    assert |tab| == 256;
    hide IsTable;
    hide View;
    hide Divide;
    hide ByteBits;
    hide Value;
    UpdateEntry(poly, tab, crc, v);
    TableEntryDivides(Reflected, poly, tab[Value(((crc & 0xFF) as Byte) ^ v)], crc, v);
  }

  lemma UpdateNBRStepDivides(poly: Reg, tab: seq<Word>, crc: Word, v: Byte)
    requires IsTable(Direct, poly, tab)
    ensures View(Direct, UpdateNBRStep(tab, crc, v)) == Divide(poly, View(Direct, crc), ByteBits(Direct, v))
  {
    assert |tab| == 256;
    hide IsTable;
    hide View;
    hide Divide;
    hide ByteBits;
    hide Value;
    UpdateNBREntry(poly, tab, crc, v);
    TableEntryDivides(Direct, poly, tab[Value((((crc >> 8) & 0xFF) as Byte) ^ v)], crc, v);
  }

  lemma TableStepDivides(o: Order, poly: Reg, tab: seq<Word>, crc: Word, v: Byte)
    requires IsTable(o, poly, tab)
    ensures View(o, TableStep(o, tab, crc, v)) == Divide(poly, View(o, crc), ByteBits(o, v))
  {
    match o
    case Reflected => UpdateStepDivides(poly, tab, crc, v);
    case Direct => UpdateNBRStepDivides(poly, tab, crc, v);
  }

  /** The table-driven updater computes the bit-serial division, for every
    * polynomial, starting register and byte string. */
  lemma {:induction false} TableRunDivides(o: Order, poly: Reg, tab: seq<Word>, crc: Word, p: seq<Byte>)
    requires IsTable(o, poly, tab)
    ensures View(o, TableRun(o, tab, crc, p)) == Divide(poly, View(o, crc), Bits(o, p))
    decreases |p|
  {
    if p != [] {
      TableStepDivides(o, poly, tab, crc, p[0]);
      TableRunDivides(o, poly, tab, TableStep(o, tab, crc, p[0]), p[1..]);
      DivideAppend(poly, View(o, crc), ByteBits(o, p[0]), Bits(o, p[1..]));
    }
  }

  // ------------------------------------------------------- tables and updaters

  /** The inner loop of MakeTable: eight steps from a register that holds one byte. */
  method MakeTableEntry(poly: Word, start: Word, ghost x: seq<bool>) returns (crc: Word)
    requires |x| == 8 && View(Reflected, start) == Pad(x)
    ensures View(Reflected, crc) == Divide(View(Reflected, poly), ZERO, x)
  {
    hide View;
    hide Divide;
    crc := start;
    FromEmpty(View(Reflected, poly), x, 8);
    for j := 0 to 8
      invariant Iter(View(Reflected, poly), View(Reflected, crc), 8 - j) == Divide(View(Reflected, poly), ZERO, x)
    {
      StepReflected(poly, crc, 8 - j);
      if crc & 1 == 1 {
        crc := (crc >> 1) ^ poly;
      } else {
        crc := crc >> 1;
      }
    }
  }

  method MakeTable(poly: Word) returns (t: array<Word>)
    ensures fresh(t) && IsTable(Reflected, View(Reflected, poly), t[..])
  {
    hide View;
    hide Divide;
    hide ByteBits;
    t := new Word[256];
    for i := 0 to 256
      invariant forall k :: 0 <= k < i ==> View(Reflected, t[k]) == Entry(Reflected, View(Reflected, poly), k)
    {
      ViewPlaced(Reflected, ByteOf(i));
      t[i] := MakeTableEntry(poly, ByteOf(i) as Word, ByteBits(Reflected, ByteOf(i)));
    }
  }

  /** The inner loop of MakeTableNBR: eight steps from a register that holds one byte. */
  method MakeTableNBREntry(poly: Word, start: Word, ghost x: seq<bool>) returns (crc: Word)
    requires |x| == 8 && View(Direct, start) == Pad(x)
    ensures View(Direct, crc) == Divide(View(Direct, poly), ZERO, x)
  {
    hide View;
    hide Divide;
    crc := start;
    FromEmpty(View(Direct, poly), x, 8);
    for j := 0 to 8
      invariant Iter(View(Direct, poly), View(Direct, crc), 8 - j) == Divide(View(Direct, poly), ZERO, x)
    {
      StepDirect(poly, crc, 8 - j);
      if crc & 0x8000 != 0 {
        crc := (crc << 1) ^ poly;
      } else {
        crc := crc << 1;
      }
    }
  }

  method MakeTableNBR(poly: Word) returns (t: array<Word>)
    ensures fresh(t) && IsTable(Direct, View(Direct, poly), t[..])
  {
    hide View;
    hide Divide;
    hide ByteBits;
    t := new Word[256];
    for i := 0 to 256
      invariant forall k :: 0 <= k < i ==> View(Direct, t[k]) == Entry(Direct, View(Direct, poly), k)
    {
      ViewPlaced(Direct, ByteOf(i));
      t[i] := MakeTableNBREntry(poly, (ByteOf(i) as Word) << 8, ByteBits(Direct, ByteOf(i)));
    }
  }

  lemma RunStep(o: Order, tab: seq<Word>, crc: Word, p: seq<Byte>, i: nat)
    requires |tab| == 256 && i < |p|
    ensures TableRun(o, tab, crc, p[i..]) == TableRun(o, tab, TableStep(o, tab, crc, p[i]), p[i + 1..])
  {
    assert p[i..][0] == p[i] && p[i..][1..] == p[i + 1..];
  }

  method Update(crc0: Word, tab: array<Word>, p: seq<Byte>) returns (crc: Word)
    requires tab.Length == 256
    ensures crc == TableRun(Reflected, tab[..], crc0, p)
    ensures forall poly :: IsTable(Reflected, poly, tab[..]) ==>
      View(Reflected, crc) == Divide(poly, View(Reflected, crc0), Bits(Reflected, p))
  {
    crc := crc0;
    ghost var t := tab[..];
    for i := 0 to |p|
      invariant TableRun(Reflected, t, crc, p[i..]) == TableRun(Reflected, t, crc0, p)
    {
      RunStep(Reflected, t, crc, p, i);
      crc := tab[Value(((crc & 0xFF) as Byte) ^ p[i])] ^ (crc >> 8);
    }
    assert p[|p|..] == [];
    forall poly | IsTable(Reflected, poly, t)
      ensures View(Reflected, crc) == Divide(poly, View(Reflected, crc0), Bits(Reflected, p))
    {
      TableRunDivides(Reflected, poly, t, crc0, p);
    }
  }

  method UpdateNBR(crc0: Word, tab: array<Word>, p: seq<Byte>) returns (crc: Word)
    requires tab.Length == 256
    ensures crc == TableRun(Direct, tab[..], crc0, p)
    ensures forall poly :: IsTable(Direct, poly, tab[..]) ==>
      View(Direct, crc) == Divide(poly, View(Direct, crc0), Bits(Direct, p))
  {
    crc := crc0;
    ghost var t := tab[..];
    for i := 0 to |p|
      invariant TableRun(Direct, t, crc, p[i..]) == TableRun(Direct, t, crc0, p)
    {
      RunStep(Direct, t, crc, p, i);
      crc := tab[Value((((crc >> 8) & 0xFF) as Byte) ^ p[i])] ^ (crc << 8);
    }
    assert p[|p|..] == [];
    forall poly | IsTable(Direct, poly, t)
      ensures View(Direct, crc) == Divide(poly, View(Direct, crc0), Bits(Direct, p))
    {
      TableRunDivides(Direct, poly, t, crc0, p);
    }
  }
}
