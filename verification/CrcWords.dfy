/** How the uint16 and byte operations of internal/util/crc16 act on the bits
  * of a register.  `View` lists the bits of a word from the end where data
  * enters: bit 0 first in the reflected order, bit 15 first in the direct one.
  */
module CrcWords {
  import opened CrcBits

  datatype Order = Reflected | Direct

  type Word = bv16
  type Byte = bv8

  predicate Odd(c: Word) {
    c & 1 == 1
  }

  /** Bit `i` of a word. */
  predicate Bit(c: Word, i: nat)
    decreases i
  {
    if i == 0 then Odd(c) else Bit(c >> 1, i - 1)
  }

  /** The `n` low bits of a word, bit 0 first. */
  function LowBits(c: Word, n: nat): (r: seq<bool>)
    ensures |r| == n && forall i {:trigger r[i]} :: 0 <= i < n ==> r[i] == Bit(c, i)
  {
    seq(n, i requires 0 <= i < n => Bit(c, i))
  }

  function LowFirst(c: Word): Reg {
    LowBits(c, WIDTH)
  }

  function Reversed(s: seq<bool>): (r: seq<bool>)
    ensures |r| == |s| && forall i {:trigger r[i]} :: 0 <= i < |s| ==> r[i] == s[|s| - 1 - i]
  {
    seq(|s|, i requires 0 <= i < |s| => s[|s| - 1 - i])
  }

  function View(o: Order, c: Word): Reg {
    match o case Reflected => LowFirst(c) case Direct => Reversed(LowFirst(c))
  }

  /** A byte in the order in which it enters: least significant bit first, or most. */
  function ByteBits(o: Order, b: Byte): (r: seq<bool>)
    ensures |r| == 8
  {
    match o
    case Reflected => LowBits(b as Word, 8)
    case Direct => Reversed(LowBits(b as Word, 8))
  }

  // ------------------------------------------------------------ bit-vector facts

  lemma XorParts(a: Word, b: Word)
    ensures Odd(a ^ b) == (Odd(a) != Odd(b))
    ensures (a ^ b) >> 1 == (a >> 1) ^ (b >> 1)
  {
  }

  lemma SplitTop(c: Word)
    ensures c == (c << 1) >> 1 || c == ((c << 1) >> 1) ^ 0x8000
  {
  }

  lemma SplitLow8(c: Word)
    ensures c == (c & 0xFF) ^ (c & 0xFF00)
    ensures ((c & 0xFF) as Byte) as Word == c & 0xFF
    ensures c & 0xFF00 == (c >> 8) << 8
  {
  }

  lemma EvenIsDoubled(c: Word)
    requires !Odd(c)
    ensures c == (c >> 1) << 1
  {
  }

  lemma XorNone(a: Word, b: Word)
    requires a ^ b == 0
    ensures a == b
  {
  }

  lemma DoubledIsEven(c: Word)
    ensures !Odd(c << 1)
  {
  }

  // -------------------------------------------------------------- single bits

  lemma {:induction false} BitXor(a: Word, b: Word, i: nat)
    ensures Bit(a ^ b, i) == (Bit(a, i) != Bit(b, i))
    decreases i
  {
    XorParts(a, b);
    if i > 0 {
      BitXor(a >> 1, b >> 1, i - 1);
    }
  }

  lemma {:induction false} BitZero(i: nat)
    ensures !Bit(0, i)
    decreases i
  {
    if i > 0 {
      BitZero(i - 1);
    }
  }

  /** `n` single-place shifts towards bit 0, and away from it. */
  function ShrN(c: Word, n: nat): Word
    decreases n
  {
    if n == 0 then c else ShrN(c >> 1, n - 1)
  }

  function ShlN(c: Word, n: nat): Word
    decreases n
  {
    if n == 0 then c else ShlN(c << 1, n - 1)
  }

  lemma EightShifts(c: Word)
    ensures c >> 8 == ShrN(c, 8) && c << 8 == ShlN(c, 8)
  {
  }

  lemma {:induction false} BitShrN(c: Word, n: nat, i: nat)
    ensures Bit(ShrN(c, n), i) == Bit(c, n + i)
    decreases n
  {
    if n > 0 {
      BitShrN(c >> 1, n - 1, i);
    }
  }

  lemma BitBeyond(c: Word, i: nat)
    requires 16 <= i
    ensures !Bit(c, i)
  {
    BitShrN(c, 8, i - 8);
    BitShrN(c >> 8, 8, i - 16);
    EightShifts(c);
    EightShifts(c >> 8);
    assert (c >> 8) >> 8 == 0;
    BitZero(i - 16);
  }

  lemma ByteBeyond(b: Byte, i: nat)
    requires 8 <= i
    ensures !Bit(b as Word, i)
  {
    BitShrN(b as Word, 8, i - 8);
    EightShifts(b as Word);
    assert (b as Word) >> 8 == 0;
    BitZero(i - 8);
  }

  lemma BitTop(i: nat)
    requires i < 15
    ensures !Bit(0x8000, i)
  {
    assert !Bit(0x8000, 0) && !Bit(0x8000, 1) && !Bit(0x8000, 2) && !Bit(0x8000, 3) && !Bit(0x8000, 4);
    assert !Bit(0x8000, 5) && !Bit(0x8000, 6) && !Bit(0x8000, 7) && !Bit(0x8000, 8) && !Bit(0x8000, 9);
    assert !Bit(0x8000, 10) && !Bit(0x8000, 11) && !Bit(0x8000, 12) && !Bit(0x8000, 13) && !Bit(0x8000, 14);
  }

  lemma BitShl(c: Word, i: nat)
    requires i < WIDTH
    ensures Bit(c << 1, i) == (i > 0 && Bit(c, i - 1))
  {
    DoubledIsEven(c);
    if i > 0 {
      SplitTop(c);
      BitXor((c << 1) >> 1, 0x8000, i - 1);
      BitTop(i - 1);
    }
  }

  /** A word is determined by its bits. */
  lemma {:induction false} NoBits(c: Word, n: nat)
    requires forall i :: 0 <= i < n ==> !Bit(c, i)
    requires ShrN(c, n) == 0
    ensures c == 0
    decreases n
  {
    if n > 0 {
      assert !Bit(c, 0);
      var d := c >> 1;
      forall i | 0 <= i < n - 1 ensures !Bit(d, i) { assert !Bit(c, i + 1); }
      NoBits(d, n - 1);
      EvenIsDoubled(c);
    }
  }

  lemma {:induction false} ShrNAdd(c: Word, m: nat, n: nat)
    ensures ShrN(c, m + n) == ShrN(ShrN(c, m), n)
    decreases m
  {
    if m > 0 {
      ShrNAdd(c >> 1, m - 1, n);
    }
  }

  lemma AllShiftedOut(c: Word)
    ensures ShrN(c, 16) == 0
  {
    ShrNAdd(c, 8, 8);
    EightShifts(c);
    EightShifts(c >> 8);
  }

  // -------------------------------------------------------- reversed bit lists

  lemma ReversedXor(a: seq<bool>, b: seq<bool>)
    requires |a| == |b|
    ensures Reversed(Xor(a, b)) == Xor(Reversed(a), Reversed(b))
  {
  }

  lemma ReversedShift(s: seq<bool>, n: nat)
    requires n <= |s|
    ensures Reversed(Zeros(n) + s[..|s| - n]) == Reversed(s)[n..] + Zeros(n)
  {
  }

  lemma ReversedPad(s: seq<bool>, n: nat)
    ensures Reversed(Zeros(n) + s) == Reversed(s) + Zeros(n)
  {
  }

  lemma ReversedTwice(s: seq<bool>)
    ensures Reversed(Reversed(s)) == s
  {
  }

  // ------------------------------------------------------- the word operations

  lemma LowBitsXor(a: Word, b: Word, n: nat)
    ensures LowBits(a ^ b, n) == Xor(LowBits(a, n), LowBits(b, n))
  {
    forall i {:trigger Bit(a, i)} | 0 <= i < n ensures Bit(a ^ b, i) == (Bit(a, i) != Bit(b, i)) { BitXor(a, b, i); }
  }

  lemma ViewXor(o: Order, a: Word, b: Word)
    ensures View(o, a ^ b) == Xor(View(o, a), View(o, b))
  {
    LowBitsXor(a, b, WIDTH);
    ReversedXor(LowFirst(a), LowFirst(b));
  }

  lemma LowFirstInjective(a: Word, b: Word)
    requires LowFirst(a) == LowFirst(b)
    ensures a == b
  {
    var x := a ^ b;
    forall i | 0 <= i < WIDTH ensures !Bit(x, i) {
      BitXor(a, b, i);
      assert LowFirst(a)[i] == LowFirst(b)[i];
    }
    AllShiftedOut(x);
    NoBits(x, WIDTH);
    XorNone(a, b);
  }

  lemma ViewInjective(o: Order, a: Word, b: Word)
    requires View(o, a) == View(o, b)
    ensures a == b
  {
    ReversedTwice(LowFirst(a));
    ReversedTwice(LowFirst(b));
    LowFirstInjective(a, b);
  }

  lemma ViewZero(o: Order)
    ensures View(o, 0) == ZERO
  {
    forall i | 0 <= i < WIDTH ensures !Bit(0, i) { BitZero(i); }
  }

  lemma ShiftRight(c: Word)
    ensures LowFirst(c >> 1) == LowFirst(c)[1..] + [false]
  {
    var d := c >> 1;
    forall i | 0 <= i < WIDTH ensures Bit(d, i) == (i + 1 < WIDTH && Bit(c, i + 1)) {
      BitBeyond(c, 16);
    }
  }

  lemma ShiftLeft(c: Word)
    ensures LowFirst(c << 1) == [false] + LowFirst(c)[..WIDTH - 1]
  {
    var d := c << 1;
    forall i | 0 <= i < WIDTH ensures Bit(d, i) == (i > 0 && Bit(c, i - 1)) {
      BitShl(c, i);
    }
  }

  lemma ShiftOnce(b: Reg, n: nat)
    requires 1 <= n <= WIDTH
    ensures (b[1..] + [false])[n - 1..] + Zeros(n - 1) == b[n..] + Zeros(n)
    ensures Zeros(n - 1) + ([false] + b[..WIDTH - 1])[..WIDTH - n + 1] == Zeros(n) + b[..WIDTH - n]
  {
  }

  lemma {:induction false} ShiftRightN(c: Word, n: nat)
    requires n <= WIDTH
    ensures LowFirst(ShrN(c, n)) == LowFirst(c)[n..] + Zeros(n)
    decreases n
  {
    if n > 0 {
      ShiftRightN(c >> 1, n - 1);
      ShiftRight(c);
      ShiftOnce(LowFirst(c), n);
    }
  }

  lemma {:induction false} ShiftLeftN(c: Word, n: nat)
    requires n <= WIDTH
    ensures LowFirst(ShlN(c, n)) == Zeros(n) + LowFirst(c)[..WIDTH - n]
    decreases n
  {
    if n > 0 {
      ShiftLeftN(c << 1, n - 1);
      ShiftLeft(c);
      ShiftOnce(LowFirst(c), n);
    }
  }

  /** Moving a register one or eight places towards the entry. */
  function Shift(o: Order, c: Word): Word {
    match o case Reflected => c >> 1 case Direct => c << 1
  }

  function Shift8(o: Order, c: Word): Word {
    match o case Reflected => c >> 8 case Direct => c << 8
  }

  lemma ViewShift(o: Order, c: Word)
    ensures View(o, Shift(o, c)) == View(o, c)[1..] + [false]
  {
    match o
    case Reflected =>
      ShiftRight(c);
    case Direct =>
      ShiftLeft(c);
      ReversedShift(LowFirst(c), 1);
      assert Zeros(1) == [false];
  }

  lemma ViewShift8(o: Order, c: Word)
    ensures View(o, Shift8(o, c)) == View(o, c)[8..] + Zeros(8)
  {
    EightShifts(c);
    match o
    case Reflected =>
      ShiftRightN(c, 8);
    case Direct =>
      ShiftLeftN(c, 8);
      ReversedShift(LowFirst(c), 8);
  }

  // ------------------------------------------------------------------- bytes

  lemma HighByteAlone(c: Word, i: nat)
    requires i < 8
    ensures !Bit(c & 0xFF00, i)
  {
    SplitLow8(c);
    EightShifts(c >> 8);
    ShiftLeftN(c >> 8, 8);
    assert !LowFirst(c & 0xFF00)[i];
  }

  lemma LowByteAt(c: Word, i: nat)
    requires i < 8
    ensures Bit(((c & 0xFF) as Byte) as Word, i) == Bit(c, i)
  {
    SplitLow8(c);
    HighByteAlone(c, i);
    BitXor(c & 0xFF, c & 0xFF00, i);
  }

  lemma LowByte(c: Word)
    ensures LowBits(((c & 0xFF) as Byte) as Word, 8) == LowFirst(c)[..8]
  {
    forall i | 0 <= i < 8 ensures Bit(((c & 0xFF) as Byte) as Word, i) == Bit(c, i) { LowByteAt(c, i); }
  }

  lemma WidenXor(a: Byte, b: Byte)
    ensures (a ^ b) as Word == (a as Word) ^ (b as Word)
  {
  }

  lemma ByteBitsXor(o: Order, a: Byte, b: Byte)
    ensures ByteBits(o, a ^ b) == Xor(ByteBits(o, a), ByteBits(o, b))
  {
    WidenXor(a, b);
    LowBitsXor(a as Word, b as Word, 8);
    ReversedXor(LowBits(a as Word, 8), LowBits(b as Word, 8));
  }

  /** The byte of the register nearest the entry: byte(crc), or byte(crc>>8). */
  function EntryByte(o: Order, c: Word): Byte {
    match o
    case Reflected => (c & 0xFF) as Byte
    case Direct => ((c >> 8) & 0xFF) as Byte
  }

  lemma EntryByteBits(o: Order, c: Word)
    ensures ByteBits(o, EntryByte(o, c)) == View(o, c)[..8]
  {
    match o
    case Reflected =>
      LowByte(c);
    case Direct =>
      LowByte(c >> 8);
      EightShifts(c);
      ShiftRightN(c, 8);
      TopHalfReversed(LowFirst(c));
  }

  lemma TopHalfReversed(b: Reg)
    ensures Reversed((b[8..] + Zeros(8))[..8]) == Reversed(b)[..8]
  {
  }

  /** A byte placed at the entry of an otherwise clear register. */
  function Placed(o: Order, b: Byte): Word {
    match o case Reflected => b as Word case Direct => (b as Word) << 8
  }

  lemma PadLow(b: Byte)
    ensures LowFirst(b as Word) == LowBits(b as Word, 8) + Zeros(8)
  {
    var w := b as Word;
    forall i | 8 <= i < WIDTH ensures !Bit(w, i) { ByteBeyond(b, i); }
  }

  lemma ViewPlaced(o: Order, b: Byte)
    ensures View(o, Placed(o, b)) == Pad(ByteBits(o, b))
  {
    PadLow(b);
    if o.Direct? {
      EightShifts(b as Word);
      ShiftLeftN(b as Word, 8);
      ReversedPad(LowBits(b as Word, 8), 8);
    }
  }

  lemma ByteBitsInjective(o: Order, a: Byte, b: Byte)
    requires ByteBits(o, a) == ByteBits(o, b)
    ensures a == b
  {
    ViewPlaced(o, a);
    ViewPlaced(o, b);
    ViewInjective(o, Placed(o, a), Placed(o, b));
    PlacedInjective(o, a, b);
  }

  lemma PlacedInjective(o: Order, a: Byte, b: Byte)
    requires Placed(o, a) == Placed(o, b)
    ensures a == b
  {
  }

  // ------------------------------------------- bytes and the integers 0 to 255

  function Pow2(n: nat): nat {
    if n == 0 then 1 else 2 * Pow2(n - 1)
  }

  /** The number a bit list denotes, least significant bit first. */
  function FromBits(s: seq<bool>): (i: nat)
    ensures i < Pow2(|s|)
  {
    if s == [] then 0 else (if s[0] then 1 else 0) + 2 * FromBits(s[1..])
  }

  /** int(b): the value of a byte, as used to index a table. */
  function Value(b: Byte): (i: nat)
    ensures i < 256
  {
    assert Pow2(8) == 256;
    FromBits(LowBits(b as Word, 8))
  }

  /** byte(i) for an integer in range. */
  function ByteOf(i: nat): Byte
    requires i < 256
  {
    if i == 0 then 0 else (ByteOf(i / 2) << 1) | (if i % 2 == 1 then 1 else 0)
  }

  lemma {:induction false} FromBitsInjective(s: seq<bool>, t: seq<bool>)
    requires |s| == |t| && FromBits(s) == FromBits(t)
    ensures s == t
    decreases |s|
  {
    if s != [] {
      FromBitsInjective(s[1..], t[1..]);
      assert s == [s[0]] + s[1..] && t == [t[0]] + t[1..];
    }
  }

  lemma ValueInjective(a: Byte, b: Byte)
    requires Value(a) == Value(b)
    ensures a == b
  {
    FromBitsInjective(LowBits(a as Word, 8), LowBits(b as Word, 8));
    ByteBitsInjective(Reflected, a, b);
  }

  lemma PushedByte(h: Byte, bit: Byte)
    requires h < 128 && (bit == 0 || bit == 1)
    ensures Odd(((h << 1) | bit) as Word) == (bit == 1)
    ensures (((h << 1) | bit) as Word) >> 1 == h as Word
  {
  }

  lemma HalfFits(h: Byte, bit: Byte)
    requires h < 128 && (bit == 0 || bit == 1)
    ensures h < 64 ==> ((h << 1) | bit) < 128
    ensures h < 32 ==> ((h << 1) | bit) < 64
    ensures h < 16 ==> ((h << 1) | bit) < 32
    ensures h < 8 ==> ((h << 1) | bit) < 16
    ensures h < 4 ==> ((h << 1) | bit) < 8
    ensures h < 2 ==> ((h << 1) | bit) < 4
    ensures h < 1 ==> ((h << 1) | bit) < 2
  {
  }

  lemma {:induction false} ByteOfBound(i: nat)
    requires i < 128
    ensures ByteOf(i) < 128
    ensures i < 64 ==> ByteOf(i) < 64
    ensures i < 32 ==> ByteOf(i) < 32
    ensures i < 16 ==> ByteOf(i) < 16
    ensures i < 8 ==> ByteOf(i) < 8
    ensures i < 4 ==> ByteOf(i) < 4
    ensures i < 2 ==> ByteOf(i) < 2
    ensures i < 1 ==> ByteOf(i) < 1
  {
    if i > 0 {
      ByteOfBound(i / 2);
      HalfFits(ByteOf(i / 2), if i % 2 == 1 then 1 else 0);
    }
  }

  lemma LowBitsCons(w: Word, d: Word, x: bool, n: nat)
    requires n > 0 && w >> 1 == d && Odd(w) == x
    ensures LowBits(w, n) == [x] + LowBits(d, n - 1)
    ensures FromBits(LowBits(w, n)) == (if x then 1 else 0) + 2 * FromBits(LowBits(d, n - 1))
  {
    forall k | 0 <= k < n ensures Bit(w, k) == if k == 0 then x else Bit(d, k - 1) {
    }
    assert LowBits(w, n)[1..] == LowBits(d, n - 1);
  }

  lemma ZeroBits(n: nat)
    ensures FromBits(LowBits(0, n)) == 0
  {
    forall k | 0 <= k < n ensures !Bit(0, k) { BitZero(k); }
    FromZeros(LowBits(0, n));
  }

  lemma ByteOfHalves(i: nat)
    requires 0 < i < 256
    ensures Odd(ByteOf(i) as Word) == (i % 2 == 1)
    ensures (ByteOf(i) as Word) >> 1 == ByteOf(i / 2) as Word
  {
    ByteOfBound(i / 2);
    PushedByte(ByteOf(i / 2), if i % 2 == 1 then 1 else 0);
  }

  lemma {:induction false} BitsOfByteOf(i: nat, n: nat)
    requires i < 256 && i < Pow2(n)
    ensures FromBits(LowBits(ByteOf(i) as Word, n)) == i
    decreases n
  {
    if i == 0 {
      ZeroBits(n);
    } else {
      ByteOfHalves(i);
      LowBitsCons(ByteOf(i) as Word, ByteOf(i / 2) as Word, i % 2 == 1, n);
      BitsOfByteOf(i / 2, n - 1);
    }
  }

  lemma {:induction false} FromZeros(s: seq<bool>)
    requires forall k :: 0 <= k < |s| ==> !s[k]
    ensures FromBits(s) == 0
    decreases |s|
  {
    if s != [] {
      FromZeros(s[1..]);
    }
  }

  lemma ValueOfByte(i: nat)
    requires i < 256
    ensures Value(ByteOf(i)) == i
  {
    assert Pow2(8) == 256;
    BitsOfByteOf(i, 8);
  }

  lemma ByteOfValue(b: Byte)
    ensures ByteOf(Value(b)) == b
  {
    ValueOfByte(Value(b));
    ValueInjective(ByteOf(Value(b)), b);
  }
}
