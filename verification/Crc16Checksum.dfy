/** Configurations, the streaming digest and the one-shot checksum of
  * internal/util/crc16, and what the checksum guarantees for every
  * configuration and every byte string.
  */
module Crc16Checksum {
  import opened CrcBits
  import opened CrcWords
  import opened Crc16

  // -------------------------------------------------------------- configurations

  datatype Config = Config(poly: Word, bitRev: bool, iniVal: Word, finVal: Word, bigEnd: bool)

  const X25 := Config(0x1021, true, 0xffff, 0xffff, false)
  const PPP := X25
  const MODBUS := Config(0x8005, true, 0xffff, 0x0, false)
  const XMODEM := Config(0x1021, false, 0x0000, 0x0, true)
  const KERMIT := Config(0x1021, true, 0x0, 0x0, false)

  function OrderOf(cfg: Config): Order {
    if cfg.bitRev then Reflected else Direct
  }

  /** The divisor: coefficients from X^15 down to X^0 in either order. */
  function Divisor(cfg: Config): Reg {
    View(Direct, cfg.poly)
  }

  /** The bit-serial register after the data. */
  function Register(cfg: Config, data: seq<Byte>): Reg {
    Divide(Divisor(cfg), View(OrderOf(cfg), cfg.iniVal), Bits(OrderOf(cfg), data))
  }

  /** The specification of the checksum, by bit-serial division alone. */
  ghost predicate IsChecksum(cfg: Config, data: seq<Byte>, r: Word) {
    View(OrderOf(cfg), r) == Xor(Register(cfg, data), View(OrderOf(cfg), cfg.finVal))
  }

  lemma ChecksumUnique(cfg: Config, data: seq<Byte>, r: Word, s: Word)
    requires IsChecksum(cfg, data, r) && IsChecksum(cfg, data, s)
    ensures r == s
  {
    ViewInjective(OrderOf(cfg), r, s);
  }

  lemma FinalXor(cfg: Config, data: seq<Byte>, crc: Word)
    requires View(OrderOf(cfg), crc) == Register(cfg, data)
    ensures IsChecksum(cfg, data, crc ^ cfg.finVal)
  {
    ViewXor(OrderOf(cfg), crc, cfg.finVal);
  }

  // ------------------------------------------------------------------ objects

  datatype Updater = NoUpdate | UseUpdate | UseUpdateNBR

  class Conf {
    const cfg: Config
    var once: bool
    var table: array?<Word>
    var update: Updater

    ghost predicate Valid()
      reads this, table
    {
      once ==>
        && table != null
        && update == (if cfg.bitRev then UseUpdate else UseUpdateNBR)
        && IsTable(OrderOf(cfg), Divisor(cfg), table[..])
    }

    constructor (cfg: Config)
      ensures Valid() && !once && this.cfg == cfg
    {
      this.cfg := cfg;
      once := false;
      table := null;
      update := NoUpdate;
    }

    /** once.Do(makeTable): only the first call does anything. */
    method PrepareOnce()
      requires Valid()
      modifies this
      ensures Valid() && once
      ensures old(once) ==> table == old(table) && update == old(update)
      ensures !old(once) ==> fresh(table)
    {
      if !once {
        if cfg.bitRev {
          var rev := Reverse(cfg.poly);
          table := MakeTable(rev);
          update := UseUpdate;
        } else {
          table := MakeTableNBR(cfg.poly);
          update := UseUpdateNBR;
        }
        once := true;
      }
    }

    method RunUpdate(crc: Word, p: seq<Byte>) returns (r: Word)
      requires Valid() && once
      ensures View(OrderOf(cfg), r) == Divide(Divisor(cfg), View(OrderOf(cfg), crc), Bits(OrderOf(cfg), p))
    {
      if update == UseUpdate {
        r := Update(crc, table, p);
      } else {
        r := UpdateNBR(crc, table, p);
      }
    }

    method Checksum(data: seq<Byte>) returns (r: Word)
      requires Valid()
      modifies this
      ensures Valid() && once && IsChecksum(cfg, data, r)
      ensures old(once) ==> table == old(table)
      ensures !old(once) ==> fresh(table)
    {
      PrepareOnce();
      r := RunChecksum(data);
    }

    method RunChecksum(data: seq<Byte>) returns (r: Word)
      requires Valid() && once
      ensures IsChecksum(cfg, data, r)
    {
      var crc := RunUpdate(cfg.iniVal, data);
      FinalXor(cfg, data, crc);
      r := crc ^ cfg.finVal;
    }
  }

  class Digest {
    const conf: Conf
    var crc: Word
    ghost var written: seq<Byte>  // everything written since creation or the last Reset

    ghost predicate Valid()
      reads this, conf, conf.table
    {
      conf.Valid() && conf.once && View(OrderOf(conf.cfg), crc) == Register(conf.cfg, written)
    }

    constructor (c: Conf)
      requires c.Valid()
      modifies c
      ensures Valid() && conf == c && written == []
    {
      conf := c;
      crc := c.cfg.iniVal;
      written := [];
      new;
      c.PrepareOnce();
    }

    method Reset()
      requires Valid()
      modifies this
      ensures Valid() && written == []
    {
      crc := conf.cfg.iniVal;
      written := [];
    }

    method Write(p: seq<Byte>) returns (n: nat)
      requires Valid()
      modifies this
      ensures Valid() && written == old(written) + p && n == |p|
    {
      RegisterAppend(conf.cfg, written, p);
      crc := conf.RunUpdate(crc, p);
      written := written + p;
      n := |p|;
    }

    method Sum16() returns (s: Word)
      requires Valid()
      ensures IsChecksum(conf.cfg, written, s)
    {
      FinalXor(conf.cfg, written, crc);
      s := crc ^ conf.cfg.finVal;
    }

    method Sum(input: seq<Byte>) returns (out: seq<Byte>)
      requires Valid()
      ensures exists s :: IsChecksum(conf.cfg, written, s) && out == input + SumBytes(conf.cfg.bigEnd, s)
    {
      var s := Sum16();
      if conf.cfg.bigEnd {
        out := input + [((s >> 8) & 0xFF) as Byte, (s & 0xFF) as Byte];
      } else {
        out := input + [(s & 0xFF) as Byte, ((s >> 8) & 0xFF) as Byte];
      }
      assert out == input + SumBytes(conf.cfg.bigEnd, s);
    }
  }

  function SumBytes(bigEnd: bool, s: Word): (b: seq<Byte>)
    ensures |b| == 2
  {
    if bigEnd then [((s >> 8) & 0xFF) as Byte, (s & 0xFF) as Byte]
    else [(s & 0xFF) as Byte, ((s >> 8) & 0xFF) as Byte]
  }

  // ---------------------------------------------------------------- streaming

  lemma {:induction false} BitsAppend(o: Order, p: seq<Byte>, q: seq<Byte>)
    ensures Bits(o, p + q) == Bits(o, p) + Bits(o, q)
    decreases |p|
  {
    if p == [] {
      assert p + q == q;
    } else {
      assert (p + q)[1..] == p[1..] + q;
      BitsAppend(o, p[1..], q);
    }
  }

  lemma RegisterAppend(cfg: Config, p: seq<Byte>, q: seq<Byte>)
    ensures Register(cfg, p + q) == Divide(Divisor(cfg), Register(cfg, p), Bits(OrderOf(cfg), q))
  {
    BitsAppend(OrderOf(cfg), p, q);
    DivideAppend(Divisor(cfg), View(OrderOf(cfg), cfg.iniVal), Bits(OrderOf(cfg), p), Bits(OrderOf(cfg), q));
  }

  function Flatten(chunks: seq<seq<Byte>>): seq<Byte> {
    if chunks == [] then [] else chunks[0] + Flatten(chunks[1..])
  }

  function DivideChunks(cfg: Config, c: Reg, chunks: seq<seq<Byte>>): Reg
    decreases |chunks|
  {
    if chunks == [] then c
    else DivideChunks(cfg, Divide(Divisor(cfg), c, Bits(OrderOf(cfg), chunks[0])), chunks[1..])
  }

  /** However the data is cut into writes, the register ends where one pass ends. */
  lemma {:induction false} StreamingIsOneShot(cfg: Config, c: Reg, chunks: seq<seq<Byte>>)
    ensures DivideChunks(cfg, c, chunks) == Divide(Divisor(cfg), c, Bits(OrderOf(cfg), Flatten(chunks)))
    decreases |chunks|
  {
    if chunks != [] {
      var o := OrderOf(cfg);
      StreamingIsOneShot(cfg, Divide(Divisor(cfg), c, Bits(o, chunks[0])), chunks[1..]);
      BitsAppend(o, chunks[0], Flatten(chunks[1..]));
      DivideAppend(Divisor(cfg), c, Bits(o, chunks[0]), Bits(o, Flatten(chunks[1..])));
    }
  }

  // ------------------------------------------------------------------ linearity

  function XorBytes(p: seq<Byte>, q: seq<Byte>): (r: seq<Byte>)
    requires |p| == |q|
    ensures |r| == |p|
    decreases |p|
  {
    if p == [] then [] else [p[0] ^ q[0]] + XorBytes(p[1..], q[1..])
  }

  lemma {:induction false} BitsXor(o: Order, p: seq<Byte>, q: seq<Byte>)
    requires |p| == |q|
    ensures Bits(o, XorBytes(p, q)) == Xor(Bits(o, p), Bits(o, q))
    decreases |p|
  {
    if p != [] {
      ByteBitsXor(o, p[0], q[0]);
      BitsXor(o, p[1..], q[1..]);
      assert XorBytes(p, q)[1..] == XorBytes(p[1..], q[1..]);
      XorOfParts(ByteBits(o, p[0]), ByteBits(o, q[0]), Bits(o, p[1..]), Bits(o, q[1..]));
    }
  }

  lemma XorOfParts(a: seq<bool>, b: seq<bool>, c: seq<bool>, d: seq<bool>)
    requires |a| == |b| && |c| == |d|
    ensures Xor(a + c, b + d) == Xor(a, b) + Xor(c, d)
  {
  }

  lemma XorFromViews(o: Order, x: Word, y: Word, z: Word)
    requires View(o, z) == Xor(View(o, x), View(o, y))
    ensures z == x ^ y
  {
    ViewXor(o, x, y);
    ViewInjective(o, z, x ^ y);
  }

  lemma TableRunLinearViews(o: Order, poly: Reg, tab: seq<Word>, c: Word, d: Word, p: seq<Byte>, q: seq<Byte>)
    requires IsTable(o, poly, tab) && |p| == |q|
    ensures View(o, TableRun(o, tab, c ^ d, XorBytes(p, q)))
         == Xor(View(o, TableRun(o, tab, c, p)), View(o, TableRun(o, tab, d, q)))
  {
    TableRunDivides(o, poly, tab, c ^ d, XorBytes(p, q));
    TableRunDivides(o, poly, tab, c, p);
    TableRunDivides(o, poly, tab, d, q);
    BitsXor(o, p, q);
    ViewXor(o, c, d);
    DivideLinear(poly, View(o, c), View(o, d), Bits(o, p), Bits(o, q));
  }

  /** Both updaters are XOR-linear in the register and the data jointly. */
  lemma TableRunLinear(o: Order, poly: Reg, tab: seq<Word>, c: Word, d: Word, p: seq<Byte>, q: seq<Byte>)
    requires IsTable(o, poly, tab) && |p| == |q|
    ensures TableRun(o, tab, c ^ d, XorBytes(p, q)) == TableRun(o, tab, c, p) ^ TableRun(o, tab, d, q)
  {
    TableRunLinearViews(o, poly, tab, c, d, p, q);
    XorFromViews(o, TableRun(o, tab, c, p), TableRun(o, tab, d, q), TableRun(o, tab, c ^ d, XorBytes(p, q)));
  }

  // ------------------------------------------------------------------ duality

  lemma {:induction false} BitsReversed(p: seq<Byte>, q: seq<Byte>)
    requires |p| == |q| && forall i :: 0 <= i < |p| ==> IsReversal8(p[i], q[i])
    ensures Bits(Direct, q) == Bits(Reflected, p)
    decreases |p|
  {
    if p != [] {
      var a, b := LowBits(p[0] as Word, 8), LowBits(q[0] as Word, 8);
      assert LowFirst(p[0] as Word)[..8] == a && LowFirst(q[0] as Word)[..8] == b;
      ReversedTwice(a);
      BitsReversed(p[1..], q[1..]);
    }
  }

  /** Reflecting polynomial, register and every data byte reflects the result. */
  lemma ReflectionDuality(poly: Reg, tab: seq<Word>, tabNBR: seq<Word>, c: Word, d: Word, p: seq<Byte>, q: seq<Byte>)
    requires IsTable(Reflected, poly, tab) && IsTable(Direct, poly, tabNBR)
    requires IsReversal(c, d)
    requires |p| == |q| && forall i :: 0 <= i < |p| ==> IsReversal8(p[i], q[i])
    ensures IsReversal(TableRun(Reflected, tab, c, p), TableRun(Direct, tabNBR, d, q))
  {
    TableRunDivides(Reflected, poly, tab, c, p);
    TableRunDivides(Direct, poly, tabNBR, d, q);
    BitsReversed(p, q);
    ReversedTwice(LowFirst(c));
    ReversedTwice(LowFirst(TableRun(Direct, tabNBR, d, q)));
  }

  /** Reversal is an involution and pairs MakeTable with MakeTableNBR. */
  lemma ReversalInvolutive(a: Word, b: Word)
    ensures IsReversal(a, b) <==> IsReversal(b, a)
    ensures IsReversal(a, b) ==> View(Reflected, b) == View(Direct, a) && View(Direct, b) == View(Reflected, a)
  {
    ReversedTwice(LowFirst(a));
    ReversedTwice(LowFirst(b));
  }

  /** The same in the source's terms: for a polynomial word P and its reversal Q, the
    * table that MakeTableNBR makes from P and the one that MakeTable makes from Q. */
  lemma ReflectedTables(P: Word, Q: Word, tab: seq<Word>, tabNBR: seq<Word>, c: Word, d: Word, p: seq<Byte>,
      q: seq<Byte>)
    requires IsReversal(P, Q) && IsReversal(c, d)
    requires IsTable(Reflected, View(Reflected, Q), tab) && IsTable(Direct, View(Direct, P), tabNBR)
    requires |p| == |q| && forall i :: 0 <= i < |p| ==> IsReversal8(p[i], q[i])
    ensures IsReversal(TableRun(Reflected, tab, c, p), TableRun(Direct, tabNBR, d, q))
  {
    hide IsTable;
    ReversalInvolutive(P, Q);
    ReflectionDuality(View(Direct, P), tab, tabNBR, c, d, p, q);
  }

  /** And with both tables generated and run. */
  method ReflectedUpdates(P: Word, c: Word, d: Word, p: seq<Byte>, q: seq<Byte>) returns (r: Word, s: Word)
    requires IsReversal(c, d)
    requires |p| == |q| && forall i :: 0 <= i < |p| ==> IsReversal8(p[i], q[i])
    ensures IsReversal(r, s)
    ensures View(Direct, s) == Divide(View(Direct, P), View(Direct, d), Bits(Direct, q))
  {
    hide Divide;
    hide View;
    hide TableRun;
    hide IsReversal8;
    var Q := Reverse(P);
    var tab := MakeTable(Q);
    var tabNBR := MakeTableNBR(P);
    r := Update(c, tab, p);
    s := UpdateNBR(d, tabNBR, q);
    ReflectedTables(P, Q, tab[..], tabNBR[..], c, d, p, q);
  }

  // ------------------------------------------------------------ burst detection

  lemma {:induction false} BitsInjective(o: Order, p: seq<Byte>, q: seq<Byte>)
    requires |p| == |q| && Bits(o, p) == Bits(o, q)
    ensures p == q
    decreases |p|
  {
    hide ByteBits;
    if p != [] {
      AppendInjective(ByteBits(o, p[0]), ByteBits(o, q[0]), Bits(o, p[1..]), Bits(o, q[1..]));
      ByteBitsInjective(o, p[0], q[0]);
      BitsInjective(o, p[1..], q[1..]);
      assert p == [p[0]] + p[1..] && q == [q[0]] + q[1..];
    }
  }

  lemma AppendInjective(a: seq<bool>, b: seq<bool>, c: seq<bool>, d: seq<bool>)
    requires |a| == |b| && a + c == b + d
    ensures a == b && c == d
  {
    assert a == (a + c)[..|a|] && b == (b + d)[..|a|];
    assert c == (a + c)[|a|..] && d == (b + d)[|a|..];
  }

  /** The differing bits of two byte strings, in the order the updater consumes
    * them, lie within 16 consecutive positions starting at `k`. */
  ghost predicate WithinBurst(cfg: Config, p: seq<Byte>, q: seq<Byte>, k: nat) {
    |p| == |q| && p != q && AgreeOutside(Bits(OrderOf(cfg), p), Bits(OrderOf(cfg), q), k)
  }

  lemma DivisorConstantTerm(cfg: Config)
    ensures HasConstantTerm(Divisor(cfg)) <==> cfg.poly & 1 == 1
  {
    assert Divisor(cfg)[WIDTH - 1] == LowFirst(cfg.poly)[0];
  }

  lemma SameChecksum(cfg: Config, p: seq<Byte>, q: seq<Byte>, r: Word, s: Word)
    requires IsChecksum(cfg, p, r) && IsChecksum(cfg, q, s)
    ensures r == s <==> Register(cfg, p) == Register(cfg, q)
  {
    var o := OrderOf(cfg);
    if r == s {
      XorCommonRight(Register(cfg, p), Register(cfg, q), View(o, cfg.finVal));
    } else if Register(cfg, p) == Register(cfg, q) {
      ViewInjective(o, r, s);
    }
  }

  lemma XorCommonRight(a: seq<bool>, b: seq<bool>, f: seq<bool>)
    requires |a| == |b| == |f| && Xor(a, f) == Xor(b, f)
    ensures a == b
  {
    forall i | 0 <= i < |a| ensures a[i] == b[i] { assert Xor(a, f)[i] == Xor(b, f)[i]; }
  }

  /** Any two byte strings that differ by a burst have different checksums. */
  lemma BurstDetected(cfg: Config, p: seq<Byte>, q: seq<Byte>, k: nat, r: Word, s: Word)
    requires cfg.poly & 1 == 1
    requires WithinBurst(cfg, p, q, k)
    requires IsChecksum(cfg, p, r) && IsChecksum(cfg, q, s)
    ensures r != s
  {
    var o := OrderOf(cfg);
    DivisorConstantTerm(cfg);
    if Bits(o, p) == Bits(o, q) {
      BitsInjective(o, p, q);
    }
    BurstChangesRegister(Divisor(cfg), View(o, cfg.iniVal), Bits(o, p), Bits(o, q), k);
    SameChecksum(cfg, p, q, r, s);
  }

  /** A byte with the given bits. */
  lemma ByteWithBits(o: Order, x: seq<bool>) returns (b: Byte)
    requires |x| == 8
    ensures ByteBits(o, b) == x
  {
    assert Pow2(8) == 256;
    var y := if o.Reflected? then x else Reversed(x);
    b := ByteOf(FromBits(y));
    BitsOfByteOf(FromBits(y), 8);
    FromBitsInjective(LowBits(b as Word, 8), y);
    ReversedTwice(x);
  }

  /** Without the X^0 term, the 16 bits made of a one and the upper divisor
    * coefficients divide to nothing. */
  lemma VanishingWindow(poly: Reg, w: Reg)
    requires !HasConstantTerm(poly)
    requires w == [true] + poly[..WIDTH - 1]
    ensures Divide(poly, ZERO, w) == ZERO
  {
    assert Xor(ZERO, Pad(w)) == w;
    DivideWord(poly, ZERO, w);
    assert w[1..] + [false] == poly;
    XorZero(poly, poly);
    assert Step(poly, w) == ZERO;
    IterZero(poly, 15);
    assert Iter(poly, w, 16) == Iter(poly, Step(poly, w), 15);
  }

  lemma OneByte(o: Order, b: Byte)
    ensures Bits(o, [b]) == ByteBits(o, b)
  {
    assert [b][1..] == [];
  }

  lemma TwoBytes(o: Order, a: Byte, b: Byte)
    ensures Bits(o, [a, b]) == ByteBits(o, a) + ByteBits(o, b)
  {
    assert [a, b][1..] == [b];
    assert Bits(o, [b]) == ByteBits(o, b) + [];
  }

  /** Two bytes with the given bits. */
  lemma BytesWithBits(o: Order, w: Reg) returns (p: seq<Byte>)
    ensures |p| == 2 && Bits(o, p) == w
  {
    var b0 := ByteWithBits(o, w[..8]);
    var b1 := ByteWithBits(o, w[8..]);
    p := [b0, b1];
    TwoBytes(o, b0, b1);
  }

  lemma BurstMissed(cfg: Config) returns (p: seq<Byte>, q: seq<Byte>)
    requires cfg.poly & 1 != 1
    ensures WithinBurst(cfg, p, q, 0) && Register(cfg, p) == Register(cfg, q)
  {
    hide Bits;
    hide View;
    hide Divide;
    var o, w := OrderOf(cfg), [true] + Divisor(cfg)[..WIDTH - 1];
    DivisorConstantTerm(cfg);
    VanishingWindow(Divisor(cfg), w);
    p := BytesWithBits(o, w);
    q := BytesWithBits(o, ZERO);
    assert Xor(w, ZERO) == w;
    SameRegister(Divisor(cfg), View(o, cfg.iniVal), w, ZERO);
    assert w[0] && !ZERO[0];
  }

  /** No burst of at most 16 bits leaves the register, and with it the checksum, unchanged. */
  ghost predicate DetectsBursts(cfg: Config) {
    forall p, q, k: nat :: WithinBurst(cfg, p, q, k) ==> Register(cfg, p) != Register(cfg, q)
  }

  /** A configuration detects every burst exactly when its polynomial has the
    * X^0 term, as all the predefined ones do. */
  lemma DetectsBurstsIff(cfg: Config)
    ensures DetectsBursts(cfg) <==> cfg.poly & 1 == 1
  {
    if cfg.poly & 1 == 1 {
      var o := OrderOf(cfg);
      DivisorConstantTerm(cfg);
      forall p, q, k: nat | WithinBurst(cfg, p, q, k) ensures Register(cfg, p) != Register(cfg, q) {
        if Bits(o, p) == Bits(o, q) {
          BitsInjective(o, p, q);
        }
        BurstChangesRegister(Divisor(cfg), View(o, cfg.iniVal), Bits(o, p), Bits(o, q), k);
      }
    } else {
      var p, q := BurstMissed(cfg);
      assert WithinBurst(cfg, p, q, 0);
    }
  }

  lemma PredefinedDetectBursts()
    ensures DetectsBursts(X25) && DetectsBursts(PPP) && DetectsBursts(MODBUS)
    ensures DetectsBursts(XMODEM) && DetectsBursts(KERMIT)
  {
    DetectsBurstsIff(X25);
    DetectsBurstsIff(MODBUS);
    DetectsBurstsIff(XMODEM);
    DetectsBurstsIff(KERMIT);
  }

  // ------------------------------------------------------------------- residue

  /** The checksum is emitted in the order in which the register consumes it. */
  predicate MatchingOrder(cfg: Config) {
    cfg.bigEnd == !cfg.bitRev
  }

  /** The register that data followed by its own checksum leaves. */
  function Residue(cfg: Config): Reg {
    Iter(Divisor(cfg), View(OrderOf(cfg), cfg.finVal), WIDTH)
  }

  lemma ByteHalves(s: Word)
    ensures LowBits(((s & 0xFF) as Byte) as Word, 8) == LowFirst(s)[..8]
    ensures LowBits((((s >> 8) & 0xFF) as Byte) as Word, 8) == LowFirst(s)[8..]
  {
    LowByte(s);
    LowByte(s >> 8);
    EightShifts(s);
    ShiftRightN(s, 8);
  }

  lemma SplitReversed(l: Reg)
    ensures l[..8] + l[8..] == l
    ensures Reversed(l[8..]) + Reversed(l[..8]) == Reversed(l)
  {
  }

  lemma SumBits(cfg: Config, s: Word)
    requires MatchingOrder(cfg)
    ensures Bits(OrderOf(cfg), SumBytes(cfg.bigEnd, s)) == View(OrderOf(cfg), s)
  {
    ByteHalves(s);
    SplitReversed(LowFirst(s));
    if cfg.bitRev {
      TwoBytes(Reflected, (s & 0xFF) as Byte, ((s >> 8) & 0xFF) as Byte);
    } else {
      TwoBytes(Direct, ((s >> 8) & 0xFF) as Byte, (s & 0xFF) as Byte);
    }
  }

  lemma AfterTrailer(cfg: Config, data: seq<Byte>, t: seq<Byte>, n: nat)
    requires |t| == 2 && n == WIDTH
    ensures Register(cfg, data + t) == Iter(Divisor(cfg), Xor(Register(cfg, data), Bits(OrderOf(cfg), t)), n)
  {
    RegisterAppend(cfg, data, t);
    DivideWord(Divisor(cfg), Register(cfg, data), Bits(OrderOf(cfg), t));
    assert Pad(Bits(OrderOf(cfg), t)) == Bits(OrderOf(cfg), t);
  }

  lemma XorBack(a: seq<bool>, f: seq<bool>, x: seq<bool>)
    requires |a| == |f| == |x|
    ensures Xor(a, x) == f <==> x == Xor(a, f)
  {
    if Xor(a, x) == f {
      forall i | 0 <= i < |a| ensures x[i] == Xor(a, f)[i] { assert Xor(a, x)[i] == f[i]; }
    }
  }

  /** Data followed by its own checksum always leaves the same register; with
    * the X^0 term present no other two-byte trailer does. */
  lemma ResidueCheck(cfg: Config, data: seq<Byte>, s: Word, t: seq<Byte>)
    requires MatchingOrder(cfg) && IsChecksum(cfg, data, s) && |t| == 2
    ensures t == SumBytes(cfg.bigEnd, s) ==> Register(cfg, data + t) == Residue(cfg)
    ensures cfg.poly & 1 == 1 && Register(cfg, data + t) == Residue(cfg) ==> t == SumBytes(cfg.bigEnd, s)
  {
    var o := OrderOf(cfg);
    var reg, fin, x := Register(cfg, data), View(o, cfg.finVal), Bits(o, t);
    SumBits(cfg, s);
    AfterTrailer(cfg, data, t, WIDTH);
    XorBack(reg, fin, x);
    if cfg.poly & 1 == 1 && Register(cfg, data + t) == Residue(cfg) {
      DivisorConstantTerm(cfg);
      IterInjective(Divisor(cfg), Xor(reg, x), fin, WIDTH);
      BitsInjective(o, t, SumBytes(cfg.bigEnd, s));
    }
  }

  function StepsReflected(poly: Word, c: Word, n: nat): Word
    decreases n
  {
    if n == 0 then c else StepsReflected(poly, if c & 1 == 1 then (c >> 1) ^ poly else c >> 1, n - 1)
  }

  lemma {:induction false} StepsReflectedView(poly: Word, c: Word, n: nat)
    ensures View(Reflected, StepsReflected(poly, c, n)) == Iter(View(Reflected, poly), View(Reflected, c), n)
    decreases n
  {
    if n > 0 {
      StepReflected(poly, c, n);
      StepsReflectedView(poly, if c & 1 == 1 then (c >> 1) ^ poly else c >> 1, n - 1);
    }
  }

  /** 0x8408 is 0x1021 with its bits reversed. */
  lemma X25Reversed()
    ensures View(Reflected, 0x8408) == View(Direct, 0x1021)
  {
    forall i | 0 <= i < WIDTH ensures Bit(0x8408, i) == Bit(0x1021, WIDTH - 1 - i) {
      ConstantBits(i);
      ConstantBits(WIDTH - 1 - i);
    }
  }

  lemma ConstantBits(i: nat)
    requires i < WIDTH
    ensures Bit(0x8408, i) == (i == 3 || i == 10 || i == 15)
    ensures Bit(0x1021, i) == (i == 0 || i == 5 || i == 12)
  {
    if i < 8 {
      assert !Bit(0x8408, 0) && !Bit(0x8408, 1) && !Bit(0x8408, 2) && Bit(0x8408, 3);
      assert !Bit(0x8408, 4) && !Bit(0x8408, 5) && !Bit(0x8408, 6) && !Bit(0x8408, 7);
      assert Bit(0x1021, 0) && !Bit(0x1021, 1) && !Bit(0x1021, 2) && !Bit(0x1021, 3);
      assert !Bit(0x1021, 4) && Bit(0x1021, 5) && !Bit(0x1021, 6) && !Bit(0x1021, 7);
    } else {
      EightShifts(0x8408);
      EightShifts(0x1021);
      BitShrN(0x8408, 8, i - 8);
      BitShrN(0x1021, 8, i - 8);
      assert 0x8408 as Word >> 8 == 0x84 && 0x1021 as Word >> 8 == 0x10;
      assert !Bit(0x84, 0) && !Bit(0x84, 1) && Bit(0x84, 2) && !Bit(0x84, 3);
      assert !Bit(0x84, 4) && !Bit(0x84, 5) && !Bit(0x84, 6) && Bit(0x84, 7);
      assert !Bit(0x10, 0) && !Bit(0x10, 1) && !Bit(0x10, 2) && !Bit(0x10, 3);
      assert Bit(0x10, 4) && !Bit(0x10, 5) && !Bit(0x10, 6) && !Bit(0x10, 7);
    }
  }

  /** The good FCS of RFC 1662, Appendix C.2. */
  lemma X25Residue()
    ensures Residue(X25) == View(Reflected, 0xF0B8)
  {
    assert StepsReflected(0x8408, 0xffff, 4) == 0xf870;
    assert StepsReflected(0x8408, 0xf870, 4) == 0x0f87;
    assert StepsReflected(0x8408, 0x0f87, 4) == 0x737f;
    assert StepsReflected(0x8408, 0x737f, 4) == 0xf0b8;
    StepsReflectedView(0x8408, 0xffff, 4);
    StepsReflectedView(0x8408, 0xf870, 4);
    StepsReflectedView(0x8408, 0x0f87, 4);
    StepsReflectedView(0x8408, 0x737f, 4);
    X25Reversed();
    var ones := View(Reflected, 0xffff);
    IterAdd(Divisor(X25), ones, 4, 4);
    IterAdd(Divisor(X25), ones, 8, 4);
    IterAdd(Divisor(X25), ones, 12, 4);
  }
}
