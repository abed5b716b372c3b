/** internal/gpsv2/device/device.go and internal/gpsv2/server/server.go: the packed
  * serial-number key, how the login handlers form it, and the registry indexed by it.
  *
  * A 64-bit key holds the serial type in its top four bits.  The lemmas use the
  * arithmetic form of the mask, shift and or; WordsCombine and WordsSplit show
  * that the 64-bit words have the same values.
  */
module DeviceRegistry {
  import opened Octets
  import opened Options

  const SN_SPACE: nat := 0x1000_0000_0000_0000       // 2^60
  const TYPES: nat := 16
  const UINT64: nat := 0x1_0000_0000_0000_0000

  // ------------------------------------------------------------------- the key

  /** (sn & 0x0fff...) | (uint64(snType) << 60): only the low four bits of the type
    * and the low sixty bits of the serial survive. */
  function CombineSn(snType: int, sn: nat): (nsn: nat)
    ensures nsn < UINT64
  {
    sn % SN_SPACE + snType % TYPES * SN_SPACE
  }

  function SplitSn(nsn: nat): (nat, nat) {
    (nsn / SN_SPACE, nsn % SN_SPACE)
  }

  // The source's own operators on 64-bit words.

  function CombineWords(snType: bv64, sn: bv64): bv64 {
    (sn & 0x0fff_ffff_ffff_ffff) | (snType << 60)
  }

  function SplitWord(nsn: bv64): (bv64, bv64) {
    (nsn >> 60, nsn & 0x0fff_ffff_ffff_ffff)
  }

  lemma WordHalves(x: bv64)
    ensures x as nat == (x >> 60) as nat * 0x1000_0000_0000_0000 + (x & 0x0fff_ffff_ffff_ffff) as nat
  {
  }

  lemma LowHalf(x: bv64)
    ensures (x & 0x0fff_ffff_ffff_ffff) as nat < 0x1000_0000_0000_0000
  {
    assert (x & 0x0fff_ffff_ffff_ffff) as nat == ((x & 0x0fff_ffff_ffff_ffff) as bv60) as nat;
  }

  lemma LowFour(t: bv64)
    ensures (t & 15) as nat < 16
  {
    assert (t & 15) as nat == ((t & 15) as bv4) as nat;
  }

  lemma WordJoin(t: bv64, x: bv64)
    ensures ((x & 0x0fff_ffff_ffff_ffff) | (t << 60)) as nat
         == (x & 0x0fff_ffff_ffff_ffff) as nat + (t & 15) as nat * 0x1000_0000_0000_0000
  {
  }

  lemma WordParts(t: bv64, x: bv64)
    ensures SplitWord(CombineWords(t, x)) == (t & 15, x & 0x0fff_ffff_ffff_ffff)
    ensures t < 16 ==> t & 15 == t
  {
  }

  lemma QuotientRemainder(x: nat, q: nat, r: nat)
    requires x == q * SN_SPACE + r && r < SN_SPACE
    ensures x / SN_SPACE == q && x % SN_SPACE == r
  {
  }

  lemma SmallRemainder(t: nat)
    requires t < TYPES
    ensures t % TYPES == t
  {
  }

  /** Shift and mask split a word as division does. */
  lemma WordsSplit(nsn: bv64)
    ensures SplitSn(nsn as nat) == (SplitWord(nsn).0 as nat, SplitWord(nsn).1 as nat)
  {
    var high, low := nsn >> 60, nsn & 0x0fff_ffff_ffff_ffff;
    WordHalves(nsn);
    LowHalf(nsn);
    QuotientRemainder(nsn as nat, high as nat, low as nat);
  }

  /** Mask, shift and or combine words as the sum does; of the type only the low four
    * bits matter. */
  lemma WordsCombine(snType: bv64, sn: bv64)
    ensures CombineWords(snType, sn) as nat == CombineSn((snType & 15) as int, sn as nat)
    ensures SplitWord(CombineWords(snType, sn)) == (snType & 15, sn & 0x0fff_ffff_ffff_ffff)
    ensures snType < 16 ==> snType & 15 == snType
  {
    WordParts(snType, sn);
    WordHalves(sn);
    LowHalf(sn);
    QuotientRemainder(sn as nat, (sn >> 60) as nat, (sn & 0x0fff_ffff_ffff_ffff) as nat);
    WordJoin(snType, sn);
    LowFour(snType);
    SmallRemainder((snType & 15) as nat);
  }

  datatype Serial = Serial(snType: int, nsn: nat, sn: nat)

  function NewSerial(snType: int, sn: nat): Serial {
    Serial(snType, CombineSn(snType, sn), sn)
  }

  function NewSerial2(nsn: nat): Serial {
    var (snType, sn) := SplitSn(nsn);
    Serial(snType, nsn, sn)
  }

  lemma SplitParts(q: nat, r: nat)
    requires r < SN_SPACE
    ensures SplitSn(q * SN_SPACE + r) == (q, r)
  {
  }

  /** Splitting undoes combining exactly on types 0 to 15 and serials below 2^60, and
    * there the two constructors of a serial agree. */
  lemma SplitCombine(snType: int, sn: nat)
    ensures SplitSn(CombineSn(snType, sn)) == (snType, sn) <==> 0 <= snType < TYPES && sn < SN_SPACE
    ensures NewSerial2(CombineSn(snType, sn)) == NewSerial(snType, sn) <==> 0 <= snType < TYPES && sn < SN_SPACE
  {
    SplitParts(snType % TYPES, sn % SN_SPACE);
  }

  /** Combining undoes splitting on every 64-bit key. */
  lemma CombineSplit(nsn: nat)
    requires nsn < UINT64
    ensures var (snType, sn) := SplitSn(nsn); snType < TYPES && sn < SN_SPACE && CombineSn(snType, sn) == nsn
    ensures NewSerial2(nsn).nsn == nsn
  {
    assert nsn == nsn / SN_SPACE * SN_SPACE + nsn % SN_SPACE;
  }

  /** Two keys are equal exactly when types and serials agree in the bits kept. */
  lemma KeysEqual(t1: int, sn1: nat, t2: int, sn2: nat)
    ensures CombineSn(t1, sn1) == CombineSn(t2, sn2) <==> t1 % TYPES == t2 % TYPES && sn1 % SN_SPACE == sn2 % SN_SPACE
  {
    SplitParts(t1 % TYPES, sn1 % SN_SPACE);
    SplitParts(t2 % TYPES, sn2 % SN_SPACE);
  }

  // ------------------------------------------------------------------ GT06 logins

  /** hex.EncodeToString, as the values of the digits. */
  function HexDigits(d: seq<Octet>): (h: seq<nat>)
    ensures |h| == 2 * |d|
  {
    if d == [] then [] else HexDigits(d[..|d| - 1]) + [d[|d| - 1] / 16, d[|d| - 1] % 16]
  }

  predicate AllDecimal(h: seq<nat>) {
    forall i :: 0 <= i < |h| ==> h[i] <= 9
  }

  function Decimal(h: seq<nat>): nat {
    if h == [] then 0 else 10 * Decimal(h[..|h| - 1]) + h[|h| - 1]
  }

  function Pow10(n: nat): (p: nat)
    ensures p >= 1
  {
    if n == 0 then 1 else 10 * Pow10(n - 1)
  }

  lemma {:induction false} DecimalBound(h: seq<nat>)
    requires AllDecimal(h)
    ensures Decimal(h) < Pow10(|h|)
    decreases |h|
  {
    if h != [] {
      DecimalBound(h[..|h| - 1]);
    }
  }

  lemma {:induction false} DecimalInjective(g: seq<nat>, h: seq<nat>)
    requires |g| == |h| && AllDecimal(g) && AllDecimal(h) && Decimal(g) == Decimal(h)
    ensures g == h
    decreases |g|
  {
    if g != [] {
      var n := |g| - 1;
      assert g[n] <= 9 && h[n] <= 9;
      DecimalInjective(g[..n], h[..n]);
      assert g == g[..n] + [g[n]] && h == h[..n] + [h[n]];
    }
  }

  lemma {:induction false} HexInjective(d: seq<Octet>, e: seq<Octet>)
    requires |d| == |e| && HexDigits(d) == HexDigits(e)
    ensures d == e
    decreases |d|
  {
    if d != [] {
      var n := |d| - 1;
      var g, h := HexDigits(d), HexDigits(e);
      assert g[..2 * n] == HexDigits(d[..n]) && h[..2 * n] == HexDigits(e[..n]);
      assert g[2 * n] == h[2 * n] && g[2 * n + 1] == h[2 * n + 1];
      HexInjective(d[..n], e[..n]);
      assert d[n] == e[n];
      assert d == d[..n] + [d[n]] && e == e[..n] + [e[n]];
    }
  }

  lemma SixteenDigits()
    ensures Pow10(16) <= SN_SPACE
  {
    assert Pow10(4) == 10000;
    assert Pow10(8) == 10000 * Pow10(4);
    assert Pow10(12) == 10000 * Pow10(8);
    assert Pow10(16) == 10000 * Pow10(12);
  }

  /** The serial of a login: the first eight bytes in hexadecimal, read as a decimal
    * number; None when that does not parse.  `payload` is the message buffer from
    * the payload on: the source's slice reaches past a shorter payload. */
  function LoginSn(payload: seq<Octet>): Option<nat>
    requires |payload| >= 8
  {
    var h := HexDigits(payload[..8]);
    if AllDecimal(h) then Some(Decimal(h)) else None
  }

  function LoginKey(payload: seq<Octet>): Option<nat>
    requires |payload| >= 8
  {
    var sn := LoginSn(payload);
    if sn.None? then None else Some(NewSerial(0, sn.value).nsn)
  }

  lemma LoginFits(payload: seq<Octet>)
    requires |payload| >= 8 && LoginSn(payload).Some?
    ensures LoginSn(payload).value < SN_SPACE && LoginKey(payload) == Some(LoginSn(payload).value)
    ensures SplitSn(LoginKey(payload).value) == (0, LoginSn(payload).value)
  {
    DecimalBound(HexDigits(payload[..8]));
    SixteenDigits();
    SplitCombine(0, LoginSn(payload).value);
  }

  /** A number as its decimal digits, two to a byte, the high digit in the upper half. */
  function Packed(sn: nat, n: nat): (d: seq<Octet>)
    ensures |d| == n
  {
    if n == 0 then [] else Packed(sn / 100, n - 1) + [sn / 10 % 10 * 16 + sn % 10]
  }

  lemma PackedByte(sn: nat)
    ensures var b := sn / 10 % 10 * 16 + sn % 10; b / 16 == sn / 10 % 10 && b % 16 == sn % 10
    ensures (sn / 100 * 10 + sn / 10 % 10) * 10 + sn % 10 == sn
  {
    var q := sn / 10;
    assert sn / 100 == q / 10 && q == q / 10 * 10 + q % 10 && sn == q * 10 + sn % 10;
  }

  lemma DecimalTwo(h: seq<nat>, x: nat, y: nat)
    ensures Decimal(h + [x, y]) == (Decimal(h) * 10 + x) * 10 + y
  {
    var g := h + [x];
    assert h + [x, y] == g + [y];
    assert (g + [y])[..|g|] == g && g[..|h|] == h;
  }

  lemma {:induction false} PackedDigits(sn: nat, n: nat)
    requires sn < Pow10(2 * n)
    ensures AllDecimal(HexDigits(Packed(sn, n))) && Decimal(HexDigits(Packed(sn, n))) == sn
    decreases n
  {
    if n > 0 {
      var d, front := Packed(sn, n), Packed(sn / 100, n - 1);
      assert d[..n - 1] == front;
      assert Pow10(2 * n) == 10 * (10 * Pow10(2 * (n - 1)));
      PackedDigits(sn / 100, n - 1);
      PackedByte(sn);
      assert HexDigits(d) == HexDigits(front) + [sn / 10 % 10, sn % 10];
      DecimalTwo(HexDigits(front), sn / 10 % 10, sn % 10);
    }
  }

  /** A login carries the serial sn exactly when its first eight bytes hold the sixteen
    * decimal digits of sn. */
  lemma LoginSnIff(payload: seq<Octet>, sn: nat)
    requires |payload| >= 8
    ensures LoginSn(payload) == Some(sn) <==> sn < Pow10(16) && payload[..8] == Packed(sn, 8)
  {
    var d := payload[..8];
    var h := HexDigits(d);
    assert LoginSn(payload) == if AllDecimal(h) then Some(Decimal(h)) else None;
    hide Packed;
    hide HexDigits;
    hide Decimal;
    hide Pow10;
    if LoginSn(payload) == Some(sn) {
      DecimalBound(h);
      PackedDigits(sn, 8);
      DecimalInjective(h, HexDigits(Packed(sn, 8)));
      HexInjective(d, Packed(sn, 8));
    } else if sn < Pow10(16) && d == Packed(sn, 8) {
      PackedDigits(sn, 8);
    }
  }

  lemma PackedStep(sn: nat, n: nat, q: nat, hi: nat, lo: nat)
    requires n > 0 && hi < 10 && lo < 10 && sn == 100 * q + 10 * hi + lo
    ensures Packed(sn, n) == Packed(q, n - 1) + [hi * 16 + lo]
  {
    PackedByte(sn);
  }

  /** For instance the IMEI 123456789012345. */
  lemma LoginExample()
    ensures Packed(123456789012345, 8) == [0x01, 0x23, 0x45, 0x67, 0x89, 0x01, 0x23, 0x45]
  {
    var none: seq<Octet> := Packed(0, 0);
    hide Packed;
    PackedStep(1, 1, 0, 0, 1);
    PackedStep(123, 2, 1, 2, 3);
    PackedStep(12345, 3, 123, 4, 5);
    PackedStep(1234567, 4, 12345, 6, 7);
    PackedStep(123456789, 5, 1234567, 8, 9);
    PackedStep(12345678901, 6, 123456789, 0, 1);
    PackedStep(1234567890123, 7, 12345678901, 2, 3);
    PackedStep(123456789012345, 8, 1234567890123, 4, 5);
  }

  /** Two accepted GT06 logins have the same key exactly when their eight identity
    * bytes are the same. */
  lemma LoginKeysEqual(p: seq<Octet>, q: seq<Octet>)
    requires |p| >= 8 && |q| >= 8 && LoginKey(p).Some? && LoginKey(q).Some?
    ensures LoginKey(p) == LoginKey(q) <==> p[..8] == q[..8]
  {
    LoginFits(p);
    LoginFits(q);
    if LoginKey(p) == LoginKey(q) {
      DecimalInjective(HexDigits(p[..8]), HexDigits(q[..8]));
      HexInjective(p[..8], q[..8]);
    }
  }

  /** The serial types of simplejson logins. */
  function JsonType(name: string): int {
    if name == "mac" then 1 else if name == "aid" then 2 else 5
  }

  /** A GT06 login never takes the key of a simplejson login, whose serial may use
    * all 64 bits. */
  lemma ProtocolsApart(p: seq<Octet>, name: string, sn: nat)
    requires |p| >= 8 && sn < UINT64
    ensures LoginKey(p) != Some(NewSerial(JsonType(name), sn).nsn)
  {
    if LoginKey(p).Some? {
      LoginFits(p);
      KeysEqual(0, LoginSn(p).value, JsonType(name), sn);
    }
  }

  /** The name shown for a serial type. */
  function SnTypeString(snType: int): string {
    match snType
    case 0 => "imei"
    case 1 => "mac"
    case 2 => "aid"
    case 3 => "misc1"
    case 4 => "misc2"
    case _ => "other"
  }

  /** Every type below 5 has a name of its own. */
  lemma TypeNamesApart(t1: int, t2: int)
    ensures SnTypeString(t1) == SnTypeString(t2) <==> t1 == t2 || (t1 !in {0, 1, 2, 3, 4} && t2 !in {0, 1, 2, 3, 4})
  {
    assert |"imei"| == 4 && |"mac"| == 3 && |"aid"| == 3 && |"misc1"| == 5 && |"misc2"| == 5 && |"other"| == 5;
    assert "mac"[0] == 'm' && "aid"[0] == 'a' && "other"[0] == 'o';
    assert "misc1"[0] == 'm' && "misc1"[4] == '1' && "misc2"[0] == 'm' && "misc2"[4] == '2';
  }

  /** A key shows the type that the device logged in with. */
  lemma TypeKept(p: seq<Octet>, name: string, sn: nat)
    requires |p| >= 8
    ensures SnTypeString(SplitSn(NewSerial(JsonType(name), sn).nsn).0)
         == if name in ["mac", "aid"] then name else "other"
    ensures name !in ["mac", "aid"] ==> SplitSn(NewSerial(JsonType(name), sn).nsn).0 == 5
    ensures LoginKey(p).Some? ==> SnTypeString(SplitSn(LoginKey(p).value).0) == "imei"
  {
    SplitParts(JsonType(name), sn % SN_SPACE);
    if LoginKey(p).Some? {
      LoginFits(p);
    }
  }

  /** The names without a type of their own share one. */
  predicate SameType(name1: string, name2: string) {
    name1 == name2 || (name1 !in ["mac", "aid"] && name2 !in ["mac", "aid"])
  }

  /** Simplejson logins collide exactly when they are of one type and their serials
    * agree in the low sixty bits. */
  lemma JsonKeysEqual(name1: string, sn1: nat, name2: string, sn2: nat)
    ensures NewSerial(JsonType(name1), sn1).nsn == NewSerial(JsonType(name2), sn2).nsn
      <==> SameType(name1, name2) && sn1 % SN_SPACE == sn2 % SN_SPACE
  {
    KeysEqual(JsonType(name1), sn1, JsonType(name2), sn2);
  }

  // ------------------------------------------------------------------ the registry

  /** `dev` is the device object, by number. */
  datatype Device = Device(dev: nat, trackerId: nat, serial: Serial)

  datatype Registry = Registry(list: map<nat, Device>, nsnlist: map<nat, nat>)

  datatype Entry = Entry(serial: Serial, trackerId: nat, dev: nat)

  function Add(r: Registry, e: Entry): Registry {
    Registry(r.list[e.trackerId := Device(e.dev, e.trackerId, e.serial)], r.nsnlist[e.serial.nsn := e.trackerId])
  }

  function Lookup(r: Registry, nsn: nat): Option<Device> {
    if nsn !in r.nsnlist || r.nsnlist[nsn] !in r.list then None else Some(r.list[r.nsnlist[nsn]])
  }

  function AddAll(es: seq<Entry>): Registry {
    if es == [] then Registry(map[], map[]) else Add(AddAll(es[..|es| - 1]), es[|es| - 1])
  }

  class DeviceList {
    var list: map<nat, Device>
    var nsnlist: map<nat, nat>
    ghost var added: seq<Entry>

    ghost predicate Valid()
      reads this
    {
      AddAll(added) == Registry(list, nsnlist)
    }

    constructor ()
      ensures Valid() && added == []
    {
      list, nsnlist, added := map[], map[], [];
    }

    method AddDevice(serial: Serial, trackerId: nat, dev: nat)
      requires Valid()
      modifies this
      ensures Valid() && added == old(added) + [Entry(serial, trackerId, dev)]
    {
      added := added + [Entry(serial, trackerId, dev)];
      assert added[..|added| - 1] == old(added);
      nsnlist := nsnlist[serial.nsn := trackerId];
      list := list[trackerId := Device(dev, trackerId, serial)];
    }

    /** Every key that was added is found. */
    method DeviceNsn(nsn: nat) returns (device: Option<Device>)
      requires Valid()
      ensures device == Lookup(AddAll(added), nsn)
      ensures device.Some? <==> exists e :: e in added && e.serial.nsn == nsn
    {
      LookupFinds(added, nsn);
      if nsn !in nsnlist {
        return None;
      }
      if nsnlist[nsn] !in list {
        return None;
      }
      device := Some(list[nsnlist[nsn]]);
    }
  }

  datatype LoginResult = Replaced(device: Device) | Created | Refused

  /** The registry part of a login handler: a known key hands the connection to its
    * device, a new one adds a device if the tracker's configuration allows it. */
  method HandleLogin(devices: DeviceList, serial: Serial, trackerId: nat, allowed: bool, dev: nat)
    returns (r: LoginResult)
    requires devices.Valid()
    modifies devices
    ensures devices.Valid()
    ensures r.Replaced? <==> exists e :: e in old(devices.added) && e.serial.nsn == serial.nsn
    ensures r.Replaced? ==> Lookup(AddAll(old(devices.added)), serial.nsn) == Some(r.device)
    ensures r.Created? ==> allowed && devices.added == old(devices.added) + [Entry(serial, trackerId, dev)]
    ensures !r.Created? ==> devices.added == old(devices.added)
    ensures r.Refused? ==> !allowed
  {
    var found := devices.DeviceNsn(serial.nsn);
    if found.Some? {
      return Replaced(found.value);
    }
    if !allowed {
      return Refused;
    }
    devices.AddDevice(serial, trackerId, dev);
    r := Created;
  }

  lemma {:induction false} LookupFinds(es: seq<Entry>, nsn: nat)
    ensures Lookup(AddAll(es), nsn).Some? <==> exists e :: e in es && e.serial.nsn == nsn
    ensures forall n :: n in AddAll(es).nsnlist ==> AddAll(es).nsnlist[n] in AddAll(es).list
    decreases |es|
  {
    if es != [] {
      var front, last := es[..|es| - 1], es[|es| - 1];
      LookupFinds(front, nsn);
      assert forall e :: e in es <==> e in front || e == last;
    }
  }

  /** The place of the last addition with the given property. */
  predicate LastWithKey(es: seq<Entry>, i: nat, nsn: nat) {
    i < |es| && es[i].serial.nsn == nsn && forall j :: i < j < |es| ==> es[j].serial.nsn != nsn
  }

  predicate LastWithTracker(es: seq<Entry>, i: nat, tid: nat) {
    i < |es| && es[i].trackerId == tid && forall j :: i < j < |es| ==> es[j].trackerId != tid
  }

  lemma {:induction false} RegistryHolds(es: seq<Entry>, i: nat, nsn: nat)
    requires LastWithKey(es, i, nsn)
    ensures nsn in AddAll(es).nsnlist && AddAll(es).nsnlist[nsn] == es[i].trackerId
    decreases |es|
  {
    var front := es[..|es| - 1];
    if i < |front| {
      assert LastWithKey(front, i, nsn);
      RegistryHolds(front, i, nsn);
    }
  }

  lemma {:induction false} ListHolds(es: seq<Entry>, i: nat, tid: nat)
    requires LastWithTracker(es, i, tid)
    ensures tid in AddAll(es).list && AddAll(es).list[tid] == Device(es[i].dev, tid, es[i].serial)
    decreases |es|
  {
    var front := es[..|es| - 1];
    if i < |front| {
      assert LastWithTracker(front, i, tid);
      ListHolds(front, i, tid);
    }
  }

  /** A key resolves to the device last added for the tracker that the key was last
    * added with. */
  lemma LookupResult(es: seq<Entry>, i: nat, j: nat, nsn: nat)
    requires LastWithKey(es, i, nsn) && LastWithTracker(es, j, es[i].trackerId)
    ensures Lookup(AddAll(es), nsn) == Some(Device(es[j].dev, es[i].trackerId, es[j].serial))
  {
    RegistryHolds(es, i, nsn);
    ListHolds(es, j, es[i].trackerId);
  }

  lemma {:induction false} SomeLastKey(es: seq<Entry>, i: nat) returns (k: nat)
    requires i < |es|
    ensures i <= k && LastWithKey(es, k, es[i].serial.nsn)
    decreases |es| - i
  {
    k := i;
    if j :| i < j < |es| && es[j].serial.nsn == es[i].serial.nsn {
      k := SomeLastKey(es, j);
    }
  }

  lemma {:induction false} SomeLastTracker(es: seq<Entry>, i: nat) returns (k: nat)
    requires i < |es|
    ensures i <= k && LastWithTracker(es, k, es[i].trackerId)
    decreases |es| - i
  {
    k := i;
    if j :| i < j < |es| && es[j].trackerId == es[i].trackerId {
      k := SomeLastTracker(es, j);
    }
  }

  /** Every added key resolves to a device with that very key. */
  ghost predicate ResolvesAll(es: seq<Entry>) {
    forall i :: 0 <= i < |es| ==>
      var d := Lookup(AddAll(es), es[i].serial.nsn);
      d.Some? && d.value.serial.nsn == es[i].serial.nsn
  }

  /** No tracker was given to two different keys. */
  predicate TrackersUnique(es: seq<Entry>) {
    forall i, j :: 0 <= i < j < |es| && es[i].trackerId == es[j].trackerId ==> es[i].serial.nsn == es[j].serial.nsn
  }

  /** The same key always gets the same tracker, as the database assigns it. */
  predicate TrackersStable(es: seq<Entry>) {
    forall i, j :: 0 <= i < j < |es| && es[i].serial.nsn == es[j].serial.nsn ==> es[i].trackerId == es[j].trackerId
  }

  lemma UniqueResolves(es: seq<Entry>, i: nat)
    requires TrackersUnique(es) && i < |es|
    ensures var d := Lookup(AddAll(es), es[i].serial.nsn); d.Some? && d.value.serial.nsn == es[i].serial.nsn
  {
    var k := SomeLastKey(es, i);
    var t := SomeLastTracker(es, k);
    LookupResult(es, k, t, es[i].serial.nsn);
    assert es[k].trackerId == es[t].trackerId;
  }

  /** When the database always assigns a key the same tracker, every added key
    * resolves to a device with that key exactly when no two keys share a tracker. */
  lemma ResolvesIff(es: seq<Entry>)
    requires TrackersStable(es)
    ensures ResolvesAll(es) <==> TrackersUnique(es)
  {
    if TrackersUnique(es) {
      forall i | 0 <= i < |es|
        ensures var d := Lookup(AddAll(es), es[i].serial.nsn); d.Some? && d.value.serial.nsn == es[i].serial.nsn
      {
        UniqueResolves(es, i);
      }
    } else {
      var i, j :| 0 <= i < j < |es| && es[i].trackerId == es[j].trackerId && es[i].serial.nsn != es[j].serial.nsn;
      SharedTracker(es, i, j);
    }
  }

  /** Of two keys with one tracker, the one added earlier is lost. */
  lemma SharedTracker(es: seq<Entry>, i: nat, j: nat)
    requires TrackersStable(es) && i < j < |es|
    requires es[i].trackerId == es[j].trackerId && es[i].serial.nsn != es[j].serial.nsn
    ensures !ResolvesAll(es)
  {
    var k := SomeLastKey(es, i);
    var l := SomeLastKey(es, j);
    var t := SomeLastTracker(es, i);
    assert es[k].trackerId == es[i].trackerId && es[l].trackerId == es[j].trackerId;
    LookupResult(es, k, t, es[i].serial.nsn);
    LookupResult(es, l, t, es[j].serial.nsn);
  }
}
