/** internal/util/crc16: the published check values of the predefined
  * configurations, and what their initial register is for.
  *
  * The words below are computed with the source's own shifts, one step at a time.
  */
module CrcValues {
  import opened CrcBits
  import opened CrcWords
  import opened Crc16
  import opened Crc16Checksum

  // ------------------------------------------------------- a register as a word

  /** One division step of a word in either order. */
  function Turn(o: Order, poly: Word, c: Word): Word {
    match o
    case Reflected => if c & 1 == 1 then (c >> 1) ^ poly else c >> 1
    case Direct => if c & 0x8000 != 0 then (c << 1) ^ poly else c << 1
  }

  function FourTurns(o: Order, poly: Word, c: Word): Word {
    Turn(o, poly, Turn(o, poly, Turn(o, poly, Turn(o, poly, c))))
  }

  function EightTurns(o: Order, poly: Word, c: Word): Word {
    FourTurns(o, poly, FourTurns(o, poly, c))
  }

  lemma TurnView(o: Order, poly: Word, c: Word, n: nat)
    requires n > 0
    ensures Iter(View(o, poly), View(o, Turn(o, poly, c)), n - 1) == Iter(View(o, poly), View(o, c), n)
  {
    match o
    case Reflected => StepReflected(poly, c, n);
    case Direct => StepDirect(poly, c, n);
  }

  lemma FourTurnsView(o: Order, poly: Word, c: Word, n: nat)
    requires n >= 4
    ensures Iter(View(o, poly), View(o, FourTurns(o, poly, c)), n - 4) == Iter(View(o, poly), View(o, c), n)
  {
    hide Turn;
    hide View;
    hide Iter;
    var c1 := Turn(o, poly, c);
    var c2 := Turn(o, poly, c1);
    var c3 := Turn(o, poly, c2);
    TurnView(o, poly, c, n);
    TurnView(o, poly, c1, n - 1);
    TurnView(o, poly, c2, n - 2);
    TurnView(o, poly, c3, n - 3);
  }

  lemma EightTurnsView(o: Order, poly: Word, c: Word, n: nat)
    requires n == 8
    ensures View(o, EightTurns(o, poly, c)) == Iter(View(o, poly), View(o, c), n)
  {
    hide FourTurns;
    hide View;
    FourTurnsView(o, poly, c, n);
    FourTurnsView(o, poly, FourTurns(o, poly, c), n - 4);
  }

  lemma ByteDivides(o: Order, poly: Word, c: Word, v: Byte)
    ensures View(o, EightTurns(o, poly, c ^ Placed(o, v))) == Divide(View(o, poly), View(o, c), ByteBits(o, v))
  {
    hide EightTurns;
    hide View;
    hide ByteBits;
    EightTurnsView(o, poly, c ^ Placed(o, v), 8);
    ViewXor(o, c, Placed(o, v));
    ViewPlaced(o, v);
    DivideWord(View(o, poly), View(o, c), ByteBits(o, v));
  }

  /** `c` is the register, as a word, after the first n bytes. */
  ghost predicate At(cfg: Config, p: seq<Byte>, n: nat, c: Word) {
    n <= |p| && View(OrderOf(cfg), c) == Register(cfg, p[..n])
  }

  /** `rev` is the polynomial as MakeTable or MakeTableNBR gets it. */
  ghost predicate Fits(cfg: Config, rev: Word) {
    View(OrderOf(cfg), rev) == Divisor(cfg)
  }

  lemma FirstByte(cfg: Config, p: seq<Byte>)
    ensures At(cfg, p, 0, cfg.iniVal)
  {
    assert p[..0] == [];
  }

  lemma NextByte(cfg: Config, rev: Word, p: seq<Byte>, n: nat, v: Byte, c: Word, c': Word)
    requires Fits(cfg, rev) && At(cfg, p, n, c) && n < |p| && p[n] == v
    requires EightTurns(OrderOf(cfg), rev, c ^ Placed(OrderOf(cfg), v)) == c'
    ensures At(cfg, p, n + 1, c')
  {
    hide EightTurns;
    hide View;
    hide ByteBits;
    var o, q := OrderOf(cfg), p[..n];
    ByteDivides(o, rev, c, v);
    assert p[..n + 1] == q + [v];
    RegisterAppend(cfg, q, [v]);
    OneByte(o, v);
    assert Register(cfg, p[..n + 1]) == Divide(Divisor(cfg), Register(cfg, q), ByteBits(o, v));
  }

  lemma LastByte(cfg: Config, p: seq<Byte>, c: Word, r: Word)
    requires At(cfg, p, |p|, c) && r == c ^ cfg.finVal
    ensures IsChecksum(cfg, p, r)
  {
    assert p[..|p|] == p;
    FinalXor(cfg, p, c);
  }

  // --------------------------------------------------------------- check values

  /** 0xA001 is 0x8005 with its bits reversed, as 0x8408 is 0x1021. */
  lemma ModbusReversed()
    ensures View(Reflected, 0xA001) == View(Direct, 0x8005)
  {
    forall i | 0 <= i < WIDTH ensures Bit(0xA001, i) == Bit(0x8005, WIDTH - 1 - i) {
      ModbusBits(i);
      ModbusBits(WIDTH - 1 - i);
    }
  }

  lemma ModbusBits(i: nat)
    requires i < WIDTH
    ensures Bit(0xA001, i) == (i == 0 || i == 13 || i == 15)
    ensures Bit(0x8005, i) == (i == 0 || i == 2 || i == 15)
  {
    if i < 8 {
      assert Bit(0xA001, 0) && !Bit(0xA001, 1) && !Bit(0xA001, 2) && !Bit(0xA001, 3);
      assert !Bit(0xA001, 4) && !Bit(0xA001, 5) && !Bit(0xA001, 6) && !Bit(0xA001, 7);
      assert Bit(0x8005, 0) && !Bit(0x8005, 1) && Bit(0x8005, 2) && !Bit(0x8005, 3);
      assert !Bit(0x8005, 4) && !Bit(0x8005, 5) && !Bit(0x8005, 6) && !Bit(0x8005, 7);
    } else {
      EightShifts(0xA001);
      EightShifts(0x8005);
      BitShrN(0xA001, 8, i - 8);
      BitShrN(0x8005, 8, i - 8);
      assert 0xA001 as Word >> 8 == 0xA0 && 0x8005 as Word >> 8 == 0x80;
      assert !Bit(0xA0, 0) && !Bit(0xA0, 1) && !Bit(0xA0, 2) && !Bit(0xA0, 3);
      assert !Bit(0xA0, 4) && Bit(0xA0, 5) && !Bit(0xA0, 6) && Bit(0xA0, 7);
      assert !Bit(0x80, 0) && !Bit(0x80, 1) && !Bit(0x80, 2) && !Bit(0x80, 3);
      assert !Bit(0x80, 4) && !Bit(0x80, 5) && !Bit(0x80, 6) && Bit(0x80, 7);
    }
  }

  /** The nine digits whose checksum is the published check value. */
  const DIGITS: seq<Byte> := [0x31, 0x32, 0x33, 0x34, 0x35, 0x36, 0x37, 0x38, 0x39]

  lemma X25Words()
    ensures EightTurns(Reflected, 0x8408, 0xffff ^ 0x31) == 0x2f8d
    ensures EightTurns(Reflected, 0x8408, 0x2f8d ^ 0x32) == 0x4d53
    ensures EightTurns(Reflected, 0x8408, 0x4d53 ^ 0x33) == 0x634b
    ensures EightTurns(Reflected, 0x8408, 0x634b ^ 0x34) == 0x8b13
    ensures EightTurns(Reflected, 0x8408, 0x8b13 ^ 0x35) == 0x44bf
    ensures EightTurns(Reflected, 0x8408, 0x44bf ^ 0x36) == 0x198d
    ensures EightTurns(Reflected, 0x8408, 0x198d ^ 0x37) == 0x1ac8
    ensures EightTurns(Reflected, 0x8408, 0x1ac8 ^ 0x38) == 0xf795
    ensures EightTurns(Reflected, 0x8408, 0xf795 ^ 0x39) == 0x6f91
  {
  }

  lemma X25CheckValue()
    ensures IsChecksum(X25, DIGITS, 0x906E)
  {
    hide EightTurns;
    hide View;
    hide At;
    hide IsChecksum;
    X25Reversed();
    X25Words();
    FirstByte(X25, DIGITS);
    NextByte(X25, 0x8408, DIGITS, 0, 0x31, 0xffff, 0x2f8d);
    NextByte(X25, 0x8408, DIGITS, 1, 0x32, 0x2f8d, 0x4d53);
    NextByte(X25, 0x8408, DIGITS, 2, 0x33, 0x4d53, 0x634b);
    NextByte(X25, 0x8408, DIGITS, 3, 0x34, 0x634b, 0x8b13);
    NextByte(X25, 0x8408, DIGITS, 4, 0x35, 0x8b13, 0x44bf);
    NextByte(X25, 0x8408, DIGITS, 5, 0x36, 0x44bf, 0x198d);
    NextByte(X25, 0x8408, DIGITS, 6, 0x37, 0x198d, 0x1ac8);
    NextByte(X25, 0x8408, DIGITS, 7, 0x38, 0x1ac8, 0xf795);
    NextByte(X25, 0x8408, DIGITS, 8, 0x39, 0xf795, 0x6f91);
    LastByte(X25, DIGITS, 0x6f91, 0x906e);
  }

  lemma ModbusWords()
    ensures EightTurns(Reflected, 0xa001, 0xffff ^ 0x31) == 0x947e
    ensures EightTurns(Reflected, 0xa001, 0x947e ^ 0x32) == 0xf595
    ensures EightTurns(Reflected, 0xa001, 0xf595 ^ 0x33) == 0x7a75
    ensures EightTurns(Reflected, 0xa001, 0x7a75 ^ 0x34) == 0x30ba
    ensures EightTurns(Reflected, 0xa001, 0x30ba ^ 0x35) == 0xa471
    ensures EightTurns(Reflected, 0xa001, 0xa471 ^ 0x36) == 0x32e4
    ensures EightTurns(Reflected, 0xa001, 0x32e4 ^ 0x37) == 0x9d73
    ensures EightTurns(Reflected, 0xa001, 0x9d73 ^ 0x38) == 0x37dd
    ensures EightTurns(Reflected, 0xa001, 0x37dd ^ 0x39) == 0x4b37
  {
  }

  lemma ModbusCheckValue()
    ensures IsChecksum(MODBUS, DIGITS, 0x4B37)
  {
    hide EightTurns;
    hide View;
    hide At;
    hide IsChecksum;
    ModbusReversed();
    ModbusWords();
    FirstByte(MODBUS, DIGITS);
    NextByte(MODBUS, 0xa001, DIGITS, 0, 0x31, 0xffff, 0x947e);
    NextByte(MODBUS, 0xa001, DIGITS, 1, 0x32, 0x947e, 0xf595);
    NextByte(MODBUS, 0xa001, DIGITS, 2, 0x33, 0xf595, 0x7a75);
    NextByte(MODBUS, 0xa001, DIGITS, 3, 0x34, 0x7a75, 0x30ba);
    NextByte(MODBUS, 0xa001, DIGITS, 4, 0x35, 0x30ba, 0xa471);
    NextByte(MODBUS, 0xa001, DIGITS, 5, 0x36, 0xa471, 0x32e4);
    NextByte(MODBUS, 0xa001, DIGITS, 6, 0x37, 0x32e4, 0x9d73);
    NextByte(MODBUS, 0xa001, DIGITS, 7, 0x38, 0x9d73, 0x37dd);
    NextByte(MODBUS, 0xa001, DIGITS, 8, 0x39, 0x37dd, 0x4b37);
    LastByte(MODBUS, DIGITS, 0x4b37, 0x4b37);
  }

  lemma XmodemWords()
    ensures EightTurns(Direct, 0x1021, 0x0000 ^ 0x3100) == 0x2672
    ensures EightTurns(Direct, 0x1021, 0x2672 ^ 0x3200) == 0x20b5
    ensures EightTurns(Direct, 0x1021, 0x20b5 ^ 0x3300) == 0x9752
    ensures EightTurns(Direct, 0x1021, 0x9752 ^ 0x3400) == 0xd789
    ensures EightTurns(Direct, 0x1021, 0xd789 ^ 0x3500) == 0x546c
    ensures EightTurns(Direct, 0x1021, 0x546c ^ 0x3600) == 0x20e4
    ensures EightTurns(Direct, 0x1021, 0x20e4 ^ 0x3700) == 0x86d6
    ensures EightTurns(Direct, 0x1021, 0x86d6 ^ 0x3800) == 0x9015
    ensures EightTurns(Direct, 0x1021, 0x9015 ^ 0x3900) == 0x31c3
  {
  }

  lemma XmodemCheckValue()
    ensures IsChecksum(XMODEM, DIGITS, 0x31C3)
  {
    hide EightTurns;
    hide View;
    hide At;
    hide IsChecksum;
    XmodemWords();
    FirstByte(XMODEM, DIGITS);
    NextByte(XMODEM, 0x1021, DIGITS, 0, 0x31, 0x0000, 0x2672);
    NextByte(XMODEM, 0x1021, DIGITS, 1, 0x32, 0x2672, 0x20b5);
    NextByte(XMODEM, 0x1021, DIGITS, 2, 0x33, 0x20b5, 0x9752);
    NextByte(XMODEM, 0x1021, DIGITS, 3, 0x34, 0x9752, 0xd789);
    NextByte(XMODEM, 0x1021, DIGITS, 4, 0x35, 0xd789, 0x546c);
    NextByte(XMODEM, 0x1021, DIGITS, 5, 0x36, 0x546c, 0x20e4);
    NextByte(XMODEM, 0x1021, DIGITS, 6, 0x37, 0x20e4, 0x86d6);
    NextByte(XMODEM, 0x1021, DIGITS, 7, 0x38, 0x86d6, 0x9015);
    NextByte(XMODEM, 0x1021, DIGITS, 8, 0x39, 0x9015, 0x31c3);
    LastByte(XMODEM, DIGITS, 0x31c3, 0x31c3);
  }

  lemma KermitWords()
    ensures EightTurns(Reflected, 0x8408, 0x0000 ^ 0x31) == 0x200a
    ensures EightTurns(Reflected, 0x8408, 0x200a ^ 0x32) == 0xbdeb
    ensures EightTurns(Reflected, 0x8408, 0xbdeb ^ 0x33) == 0x5a78
    ensures EightTurns(Reflected, 0x8408, 0x5a78 ^ 0x34) == 0x8832
    ensures EightTurns(Reflected, 0x8408, 0x8832 ^ 0x35) == 0x7437
    ensures EightTurns(Reflected, 0x8408, 0x7437 ^ 0x36) == 0x11fd
    ensures EightTurns(Reflected, 0x8408, 0x11fd ^ 0x37) == 0x6947
    ensures EightTurns(Reflected, 0x8408, 0x6947 ^ 0x38) == 0x8b19
    ensures EightTurns(Reflected, 0x8408, 0x8b19 ^ 0x39) == 0x2189
  {
  }

  lemma KermitCheckValue()
    ensures IsChecksum(KERMIT, DIGITS, 0x2189)
  {
    hide EightTurns;
    hide View;
    hide At;
    hide IsChecksum;
    X25Reversed();
    KermitWords();
    FirstByte(KERMIT, DIGITS);
    NextByte(KERMIT, 0x8408, DIGITS, 0, 0x31, 0x0000, 0x200a);
    NextByte(KERMIT, 0x8408, DIGITS, 1, 0x32, 0x200a, 0xbdeb);
    NextByte(KERMIT, 0x8408, DIGITS, 2, 0x33, 0xbdeb, 0x5a78);
    NextByte(KERMIT, 0x8408, DIGITS, 3, 0x34, 0x5a78, 0x8832);
    NextByte(KERMIT, 0x8408, DIGITS, 4, 0x35, 0x8832, 0x7437);
    NextByte(KERMIT, 0x8408, DIGITS, 5, 0x36, 0x7437, 0x11fd);
    NextByte(KERMIT, 0x8408, DIGITS, 6, 0x37, 0x11fd, 0x6947);
    NextByte(KERMIT, 0x8408, DIGITS, 7, 0x38, 0x6947, 0x8b19);
    NextByte(KERMIT, 0x8408, DIGITS, 8, 0x39, 0x8b19, 0x2189);
    LastByte(KERMIT, DIGITS, 0x2189, 0x2189);
  }
  /** The bytes covered by the acknowledgement of a GT06 login with serial 1. */
  const LOGIN_ACK: seq<Byte> := [0x05, 0x01, 0x00, 0x01]

  lemma LoginAckWords()
    ensures EightTurns(Reflected, 0x8408, 0xffff ^ 0x05) == 0x582a
    ensures EightTurns(Reflected, 0x8408, 0x582a ^ 0x01) == 0x9f89
    ensures EightTurns(Reflected, 0x8408, 0x9f89 ^ 0x00) == 0x1956
    ensures EightTurns(Reflected, 0x8408, 0x1956 ^ 0x01) == 0x2623
  {
  }

  lemma LoginAckCheckValue()
    ensures IsChecksum(X25, LOGIN_ACK, 0xD9DC)
  {
    hide EightTurns;
    hide View;
    hide At;
    hide IsChecksum;
    X25Reversed();
    LoginAckWords();
    FirstByte(X25, LOGIN_ACK);
    NextByte(X25, 0x8408, LOGIN_ACK, 0, 0x05, 0xffff, 0x582a);
    NextByte(X25, 0x8408, LOGIN_ACK, 1, 0x01, 0x582a, 0x9f89);
    NextByte(X25, 0x8408, LOGIN_ACK, 2, 0x00, 0x9f89, 0x1956);
    NextByte(X25, 0x8408, LOGIN_ACK, 3, 0x01, 0x1956, 0x2623);
    LastByte(X25, LOGIN_ACK, 0x2623, 0xd9dc);
  }

  // ------------------------------------------------------- the initial register

  lemma ByteOfZeros(o: Order)
    ensures ByteBits(o, 0) == Zeros(8)
  {
    forall i | 0 <= i < 8 ensures !Bit(0, i) { BitZero(i); }
  }

  lemma {:induction false} ZeroBytesBits(o: Order, z: seq<Byte>)
    requires forall i :: 0 <= i < |z| ==> z[i] == 0
    ensures Bits(o, z) == Zeros(8 * |z|)
    decreases |z|
  {
    if z != [] {
      ByteOfZeros(o);
      ZeroBytesBits(o, z[1..]);
    }
  }

  lemma SameAfterDivision(poly: Reg, c: Reg, d: Reg, bits: seq<bool>)
    requires HasConstantTerm(poly)
    ensures Divide(poly, c, bits) == Divide(poly, d, bits) <==> c == d
  {
    DivideLinear(poly, c, d, bits, bits);
    XorZero(bits, bits);
    DivideZeros(poly, Xor(c, d), |bits|);
    IterKernel(poly, Xor(c, d), |bits|);
    XorZero(c, d);
    XorZero(Divide(poly, c, bits), Divide(poly, d, bits));
  }

  /** Zero bytes put in front of the data go unnoticed exactly when as many division
    * steps leave the initial register as it is. */
  lemma LeadingZeros(cfg: Config, z: seq<Byte>, data: seq<Byte>)
    requires cfg.poly & 1 == 1 && forall i :: 0 <= i < |z| ==> z[i] == 0
    ensures Register(cfg, z + data) == Register(cfg, data)
      <==> Iter(Divisor(cfg), View(OrderOf(cfg), cfg.iniVal), 8 * |z|) == View(OrderOf(cfg), cfg.iniVal)
  {
    var o := OrderOf(cfg);
    DivisorConstantTerm(cfg);
    RegisterAppend(cfg, z, data);
    ZeroBytesBits(o, z);
    DivideZeros(Divisor(cfg), View(o, cfg.iniVal), 8 * |z|);
    SameAfterDivision(Divisor(cfg), Register(cfg, z), View(o, cfg.iniVal), Bits(o, data));
  }

  /** A configuration that notices one zero byte put in front of any data. */
  ghost predicate SeesLeadingZero(cfg: Config) {
    forall data :: Register(cfg, [0] + data) != Register(cfg, data)
  }

  lemma SeesIff(cfg: Config, rev: Word)
    requires cfg.poly & 1 == 1 && Fits(cfg, rev)
    ensures SeesLeadingZero(cfg) <==> EightTurns(OrderOf(cfg), rev, cfg.iniVal) != cfg.iniVal
  {
    hide EightTurns;
    hide View;
    var o := OrderOf(cfg);
    EightTurnsView(o, rev, cfg.iniVal, 8);
    if EightTurns(o, rev, cfg.iniVal) != cfg.iniVal
       && View(o, EightTurns(o, rev, cfg.iniVal)) == View(o, cfg.iniVal) {
      ViewInjective(o, EightTurns(o, rev, cfg.iniVal), cfg.iniVal);
    }
    forall data ensures Register(cfg, [0] + data) == Register(cfg, data)
        <==> EightTurns(o, rev, cfg.iniVal) == cfg.iniVal {
      LeadingZeros(cfg, [0], data);
    }
    if EightTurns(o, rev, cfg.iniVal) == cfg.iniVal {
      assert Register(cfg, [0] + []) == Register(cfg, []);
    }
  }

  lemma InitialTurns()
    ensures EightTurns(Reflected, 0x8408, 0xffff) == 0x0f87
    ensures EightTurns(Reflected, 0xA001, 0xffff) == 0x40bf
    ensures EightTurns(Reflected, 0x8408, 0) == 0 == EightTurns(Direct, 0x1021, 0)
  {
  }

  /** The configurations that start from all ones see it, those that start from zero
    * do not. */
  lemma PredefinedLeadingZero()
    ensures SeesLeadingZero(X25) && SeesLeadingZero(PPP) && SeesLeadingZero(MODBUS)
    ensures !SeesLeadingZero(XMODEM) && !SeesLeadingZero(KERMIT)
  {
    InitialTurns();
    hide EightTurns;
    hide View;
    hide SeesLeadingZero;
    X25Reversed();
    ModbusReversed();
    SeesIff(X25, 0x8408);
    SeesIff(MODBUS, 0xA001);
    SeesIff(XMODEM, 0x1021);
    SeesIff(KERMIT, 0x8408);
  }

  /** All predefined configurations emit their checksum in the order in which it is
    * read back: data followed by it leaves the residue of the configuration. */
  lemma PredefinedTrailer(data: seq<Byte>, s: Word, cfg: Config)
    requires cfg in {X25, PPP, MODBUS, XMODEM, KERMIT} && IsChecksum(cfg, data, s)
    ensures Register(cfg, data + SumBytes(cfg.bigEnd, s)) == Residue(cfg)
  {
    ResidueCheck(cfg, data, s, SumBytes(cfg.bigEnd, s));
  }
}
