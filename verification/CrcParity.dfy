/** internal/util/crc16: which configurations detect every odd number of flipped bits.
  */
module CrcParity {
  import opened CrcBits
  import opened CrcWords
  import opened Crc16
  import opened Crc16Checksum

  /** The number of set bits. */
  function Weight(s: seq<bool>): nat
    decreases |s|
  {
    if s == [] then 0 else (if s[0] then 1 else 0) + Weight(s[1..])
  }

  lemma {:induction false} WeightAppend(a: seq<bool>, b: seq<bool>)
    ensures Weight(a + b) == Weight(a) + Weight(b)
    decreases |a|
  {
    if a == [] {
      assert a + b == b;
    } else {
      assert (a + b)[1..] == a[1..] + b;
      WeightAppend(a[1..], b);
    }
  }

  lemma {:induction false} WeightXor(a: seq<bool>, b: seq<bool>)
    requires |a| == |b|
    ensures Weight(Xor(a, b)) % 2 == (Weight(a) + Weight(b)) % 2
    decreases |a|
  {
    if a != [] {
      assert Xor(a, b)[1..] == Xor(a[1..], b[1..]);
      WeightXor(a[1..], b[1..]);
    }
  }

  lemma {:induction false} WeightZeros(n: nat)
    ensures Weight(Zeros(n)) == 0
    decreases n
  {
    if n > 0 {
      assert Zeros(n)[1..] == Zeros(n - 1);
      WeightZeros(n - 1);
    }
  }

  lemma FeedParity(c: Reg, b: bool)
    ensures Weight(Feed(c, b)) % 2 == (Weight(c) + if b then 1 else 0) % 2
  {
    assert Feed(c, b)[1..] == c[1..];
  }

  /** The full divisor has an even number of terms, so a step cannot change the
    * parity of the register. */
  lemma StepParity(poly: Reg, c: Reg)
    requires Weight(poly) % 2 == 1
    ensures Weight(Step(poly, c)) % 2 == Weight(c) % 2
  {
    WeightAppend(c[1..], [false]);
    assert Weight([false]) == 0;
    WeightXor(c[1..] + [false], poly);
  }

  lemma {:induction false} DivideParity(poly: Reg, c: Reg, bits: seq<bool>)
    requires Weight(poly) % 2 == 1
    ensures Weight(Divide(poly, c, bits)) % 2 == (Weight(c) + Weight(bits)) % 2
    decreases |bits|
  {
    if bits != [] {
      FeedParity(c, bits[0]);
      StepParity(poly, Feed(c, bits[0]));
      DivideParity(poly, Step(poly, Feed(c, bits[0])), bits[1..]);
    }
  }

  /** The multiple of the divisor that is the divisor itself. */
  lemma DivisorVanishes(poly: Reg)
    ensures Divide(poly, ZERO, [true] + poly) == ZERO
  {
    assert Feed(ZERO, true)[1..] + [false] == ZERO;
    assert Xor(ZERO, poly) == poly;
    assert ([true] + poly)[1..] == poly;
    DivideWord(poly, poly, poly);
    assert Xor(poly, Pad(poly)) == ZERO;
    IterZero(poly, WIDTH);
  }

  // -------------------------------------------------------------- configurations

  /** The number of bits in which two byte strings differ. */
  function Flips(cfg: Config, p: seq<Byte>, q: seq<Byte>): nat
    requires |p| == |q|
  {
    Weight(Xor(Bits(OrderOf(cfg), p), Bits(OrderOf(cfg), q)))
  }

  ghost predicate DetectsOdd(cfg: Config) {
    forall p, q :: |p| == |q| && Flips(cfg, p, q) % 2 == 1 ==> Register(cfg, p) != Register(cfg, q)
  }

  lemma OddDetected(cfg: Config, p: seq<Byte>, q: seq<Byte>)
    requires Weight(Divisor(cfg)) % 2 == 1 && |p| == |q| && Flips(cfg, p, q) % 2 == 1
    ensures Register(cfg, p) != Register(cfg, q)
  {
    hide Bits;
    hide View;
    hide Divide;
    var o := OrderOf(cfg);
    WeightXor(Bits(o, p), Bits(o, q));
    DivideParity(Divisor(cfg), View(o, cfg.iniVal), Bits(o, p));
    DivideParity(Divisor(cfg), View(o, cfg.iniVal), Bits(o, q));
  }

  lemma ThreeBytes(o: Order, w: seq<bool>) returns (p: seq<Byte>)
    requires |w| == 24
    ensures |p| == 3 && Bits(o, p) == w
  {
    hide Bits;
    hide ByteBits;
    var a := ByteWithBits(o, w[..8]);
    var b := ByteWithBits(o, w[8..16]);
    var c := ByteWithBits(o, w[16..]);
    p := [a, b] + [c];
    TwoBytes(o, a, b);
    OneByte(o, c);
    BitsAppend(o, [a, b], [c]);
    assert w == (w[..8] + w[8..16]) + w[16..];
  }

  /** The divisor itself in 24 bits. */
  lemma DivisorWindow(poly: Reg) returns (w: seq<bool>)
    ensures |w| == 24 && Divide(poly, ZERO, w) == ZERO && Weight(w) == 1 + Weight(poly)
    ensures Xor(w, Zeros(24)) == w
  {
    w := Zeros(7) + ([true] + poly);
    DivideAppend(poly, ZERO, Zeros(7), [true] + poly);
    DivideZeros(poly, ZERO, 7);
    IterZero(poly, 7);
    DivisorVanishes(poly);
    WeightAppend(Zeros(7), [true] + poly);
    WeightZeros(7);
    assert ([true] + poly)[1..] == poly;
  }

  /** With an even number of set bits the divisor itself passes for no error. */
  lemma OddMissed(cfg: Config) returns (p: seq<Byte>, q: seq<Byte>)
    requires Weight(Divisor(cfg)) % 2 == 0
    ensures |p| == |q| && Flips(cfg, p, q) % 2 == 1 && Register(cfg, p) == Register(cfg, q)
  {
    hide Divide;
    hide View;
    hide Weight;
    hide Bits;
    var o := OrderOf(cfg);
    var w := DivisorWindow(Divisor(cfg));
    p := ThreeBytes(o, w);
    q := ThreeBytes(o, Zeros(24));
    SameRegister(Divisor(cfg), View(o, cfg.iniVal), w, Zeros(24));
  }

  /** A configuration detects every odd number of flipped bits exactly when its
    * polynomial word has an odd number of set bits. */
  lemma DetectsOddIff(cfg: Config)
    ensures DetectsOdd(cfg) <==> Weight(Divisor(cfg)) % 2 == 1
  {
    if Weight(Divisor(cfg)) % 2 == 1 {
      forall p, q | |p| == |q| && Flips(cfg, p, q) % 2 == 1 ensures Register(cfg, p) != Register(cfg, q) {
        OddDetected(cfg, p, q);
      }
    } else {
      var p, q := OddMissed(cfg);
      assert !DetectsOdd(cfg);
    }
  }

  lemma ModbusBits(i: nat)
    requires i < WIDTH
    ensures Bit(0x8005, i) == (i == 0 || i == 2 || i == 15)
  {
    if i < 8 {
      assert Bit(0x8005, 0) && !Bit(0x8005, 1) && Bit(0x8005, 2) && !Bit(0x8005, 3);
      assert !Bit(0x8005, 4) && !Bit(0x8005, 5) && !Bit(0x8005, 6) && !Bit(0x8005, 7);
    } else {
      EightShifts(0x8005);
      BitShrN(0x8005, 8, i - 8);
      assert 0x8005 as Word >> 8 == 0x80;
      assert !Bit(0x80, 0) && !Bit(0x80, 1) && !Bit(0x80, 2) && !Bit(0x80, 3);
      assert !Bit(0x80, 4) && !Bit(0x80, 5) && !Bit(0x80, 6) && Bit(0x80, 7);
    }
  }

  /** The weight of a register with three set bits. */
  lemma ThreeSet(r: Reg, a: nat, b: nat, c: nat)
    requires a < b < c < WIDTH && forall i :: 0 <= i < WIDTH ==> r[i] == (i == a || i == b || i == c)
    ensures Weight(r) == 3
  {
    var rest := r[c + 1..];
    assert r == Zeros(a) + ([true] + (Zeros(b - a - 1)
      + ([true] + (Zeros(c - b - 1) + ([true] + Zeros(WIDTH - 1 - c))))));
    WeightZeros(a);
    WeightZeros(b - a - 1);
    WeightZeros(c - b - 1);
    WeightZeros(WIDTH - 1 - c);
    var t := [true] + Zeros(WIDTH - 1 - c);
    WeightOne(Zeros(WIDTH - 1 - c));
    WeightAppend(Zeros(c - b - 1), t);
    WeightOne(Zeros(c - b - 1) + t);
    var u := [true] + (Zeros(c - b - 1) + t);
    WeightAppend(Zeros(b - a - 1), u);
    WeightOne(Zeros(b - a - 1) + u);
    WeightAppend(Zeros(a), [true] + (Zeros(b - a - 1) + u));
  }

  lemma WeightOne(s: seq<bool>)
    ensures Weight([true] + s) == 1 + Weight(s)
  {
    assert ([true] + s)[1..] == s;
  }

  /** All predefined configurations do. */
  lemma PredefinedDetectOdd()
    ensures DetectsOdd(X25) && DetectsOdd(PPP) && DetectsOdd(MODBUS) && DetectsOdd(XMODEM) && DetectsOdd(KERMIT)
  {
    hide View;
    hide Weight;
    hide DetectsOdd;
    WordWeight(0x1021, 3, 10, 15);
    WordWeight(0x8005, 0, 13, 15);
    DetectsOddIff(X25);
    DetectsOddIff(MODBUS);
    DetectsOddIff(XMODEM);
    DetectsOddIff(KERMIT);
  }

  lemma WordWeight(w: Word, a: nat, b: nat, c: nat)
    requires (w == 0x1021 && a == 3 && b == 10 && c == 15) || (w == 0x8005 && a == 0 && b == 13 && c == 15)
    ensures Weight(View(Direct, w)) == 3
  {
    forall i | 0 <= i < WIDTH ensures View(Direct, w)[i] == (i == a || i == b || i == c) {
      ConstantBits(WIDTH - 1 - i);
      ModbusBits(WIDTH - 1 - i);
    }
    ThreeSet(View(Direct, w), a, b, c);
  }
}
