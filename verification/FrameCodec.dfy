/** internal/gpsv2/device/gt06/frame.go and parser.go: frames are built in place
  * and read back from a byte stream into a reused buffer.
  *
  * The stream delivers its bytes in pieces of any size.  The frame check sequence
  * is written but never looked at on receipt.
  */
module FrameCodec {
  import opened Options
  import opened Octets
  import opened CrcWords
  import Crc16Checksum
  import CrcValues

  const START_SHORT: Octet := 0x78
  const START_LONG: Octet := 0x79
  const CR: Octet := 0x0d
  const LF: Octet := 0x0a
  const LOGIN: Octet := 0x01
  const SERVER_COMMAND: Octet := 0x80

  // ------------------------------------------------------------- the wire format

  /** Two bytes, most significant first. */
  function BE16(n: nat): (b: seq<Octet>)
    ensures |b| == 2
  {
    [n / 256 % 256, n % 256]
  }

  function FromBE16(hi: Octet, lo: Octet): nat {
    hi * 256 + lo
  }

  lemma TwoBytes(n: nat)
    ensures n / 256 % 256 * 256 + n % 256 == n % 65536
  {
    var q := n / 256;
    var h := q / 256;
    assert n == 256 * q + n % 256;
    assert q == 256 * h + q % 256;
    assert n == 65536 * h + (q % 256 * 256 + n % 256);
  }

  lemma TwoWords(n: nat)
    ensures n / 65536 % 65536 * 65536 + n % 65536 == n % 0x1_0000_0000
  {
    var q := n / 65536;
    var h := q / 65536;
    assert n == 65536 * q + n % 65536;
    assert q == 65536 * h + q % 65536;
    assert n == 0x1_0000_0000 * h + (q % 65536 * 65536 + n % 65536);
  }

  lemma BE16RoundTrip(n: nat)
    ensures FromBE16(BE16(n)[0], BE16(n)[1]) == n % 65536
  {
    TwoBytes(n);
  }

  /** Start bytes and length field; the length covers protocol, payload, serial and
    * check. */
  function Header(long: bool, n: nat): (h: seq<Octet>)
    ensures |h| == if long then 4 else 3
  {
    if long then [START_LONG, START_LONG] + BE16(n) else [START_SHORT, START_SHORT, n % 256]
  }

  /** `check` is the frame check sequence. */
  function Frame(long: bool, protocol: Octet, payload: seq<Octet>, serial: nat, check: seq<Octet>): (f: seq<Octet>)
    requires |check| == 2
    ensures |f| == |payload| + if long then 11 else 10
  {
    Header(long, |payload| + 5) + [protocol] + payload + BE16(serial) + check + [CR, LF]
  }

  /** The bytes as the checksum reads them. */
  function Bytes(s: seq<Octet>): (b: seq<Byte>)
    ensures |b| == |s|
  {
    seq(|s|, i requires 0 <= i < |s| => ByteOf(s[i]))
  }

  /** The checksum X25 covers everything from the length field to the serial and is
    * written with its high byte first. */
  ghost predicate IsCheck(covered: seq<Octet>, check: seq<Octet>) {
    exists crc ::
      && Crc16Checksum.IsChecksum(Crc16Checksum.X25, Bytes(covered), crc)
      && Bytes(check) == Crc16Checksum.SumBytes(true, crc)
  }

  /** The two octets of a checksum, high byte first. */
  function CheckOctets(crc: Word): (check: seq<Octet>)
    ensures |check| == 2 && Bytes(check) == Crc16Checksum.SumBytes(true, crc)
  {
    var b := Crc16Checksum.SumBytes(true, crc);
    ByteOfValue(b[0]);
    ByteOfValue(b[1]);
    [Value(b[0]), Value(b[1])]
  }

  /** A frame as newFrame builds it. */
  ghost predicate IsFrame(f: seq<Octet>, protocol: Octet, payload: seq<Octet>, serial: int) {
    && |f| == |payload| + 10
    && f == Frame(false, protocol, payload, serial % 65536, f[|f| - 4..|f| - 2])
    && IsCheck(f[2..|f| - 4], f[|f| - 4..|f| - 2])
  }

  // ------------------------------------------------------------------- building

  lemma CopyStep(f0: seq<Octet>, at: nat, bytes: seq<Octet>, i: nat, f: seq<Octet>)
    requires at + |bytes| <= |f0| && i < |bytes| && f == f0[..at] + bytes[..i] + f0[at + i..]
    ensures f[at + i := bytes[i]] == f0[..at] + bytes[..i + 1] + f0[at + i + 1..]
  {
    assert bytes[..i + 1] == bytes[..i] + [bytes[i]];
  }

  /** copy(frame[at:], bytes). */
  method Copy(frame: array<Octet>, at: nat, bytes: seq<Octet>)
    requires at + |bytes| <= frame.Length
    modifies frame
    ensures frame[..] == old(frame[..at]) + bytes + old(frame[at + |bytes|..])
  {
    ghost var f0 := frame[..];
    var i := 0;
    while i < |bytes|
      invariant 0 <= i <= |bytes|
      invariant frame[..] == f0[..at] + bytes[..i] + f0[at + i..]
    {
      ghost var f := frame[..];
      CopyStep(f0, at, bytes, i, f);
      frame[at + i] := bytes[i];
      assert frame[..] == f[at + i := bytes[i]];
      i := i + 1;
    }
    assert bytes[..i] == bytes;
  }

  method Check(x25: Crc16Checksum.Conf, covered: seq<Octet>) returns (check: seq<Octet>)
    requires x25.Valid() && x25.cfg == Crc16Checksum.X25
    modifies x25
    ensures x25.Valid() && |check| == 2 && IsCheck(covered, check)
    ensures x25.table == old(x25.table) || fresh(x25.table)
  {
    var crc := x25.Checksum(Bytes(covered));
    check := CheckOctets(crc);
  }

  /** Everything in front of the check. */
  function Body(protocol: Octet, payload: seq<Octet>, serial: nat): (b: seq<Octet>)
    ensures |b| == |payload| + 6
  {
    Header(false, |payload| + 5) + [protocol] + payload + BE16(serial)
  }

  method PutBody(frame: array<Octet>, protocol: Octet, payload: seq<Octet>, serial: nat)
    requires frame.Length == |payload| + 10
    modifies frame
    ensures frame[..|payload| + 6] == Body(protocol, payload, serial)
  {
    frame[0] := START_SHORT;
    frame[1] := START_SHORT;
    frame[2] := (|payload| + 5) % 256;
    frame[3] := protocol;
    assert frame[..4] == Header(false, |payload| + 5) + [protocol];
    Copy(frame, 4, payload);
    assert frame[..4 + |payload|] == Header(false, |payload| + 5) + [protocol] + payload;
    Copy(frame, |payload| + 4, BE16(serial));
  }

  method PutTrailer(frame: array<Octet>, n: nat, check: seq<Octet>)
    requires frame.Length == n + 10 && |check| == 2
    modifies frame
    ensures frame[..] == old(frame[..n + 6]) + check + [CR, LF]
  {
    Copy(frame, n + 6, check);
    frame[n + 8] := CR;
    frame[n + 9] := LF;
  }

  lemma FrameBuilt(f: seq<Octet>, protocol: Octet, payload: seq<Octet>, serial: int, body: seq<Octet>,
      check: seq<Octet>)
    requires |check| == 2 && body == Body(protocol, payload, serial % 65536)
    requires IsCheck(body[2..], check)
    requires f == body + check + [CR, LF]
    ensures IsFrame(f, protocol, payload, serial)
  {
    assert f[2..|f| - 4] == body[2..];
    assert f[|f| - 4..|f| - 2] == check;
  }

  method NewFrame(x25: Crc16Checksum.Conf, protocol: Octet, payload: seq<Octet>, serial: int)
    returns (frame: array<Octet>)
    requires x25.Valid() && x25.cfg == Crc16Checksum.X25
    modifies x25
    ensures x25.Valid() && fresh(frame) && IsFrame(frame[..], protocol, payload, serial)
  {
    var lp := |payload|;
    frame := new Octet[lp + 10];
    PutBody(frame, protocol, payload, serial % 65536);
    ghost var body := frame[..lp + 6];
    assert frame[2..lp + 6] == body[2..];
    var check := Check(x25, frame[2..lp + 6]);
    PutTrailer(frame, lp, check);
    FrameBuilt(frame[..], protocol, payload, serial, body, check);
  }

  lemma SmallBytes()
    ensures ByteOf(0) == 0 && ByteOf(1) == 0x01 && ByteOf(5) == 0x05
    ensures ByteOf(0xD9) == 0xD9 && ByteOf(0xDC) == 0xDC
  {
    assert ByteOf(2) == 2 && ByteOf(3) == 3 && ByteOf(6) == 6 && ByteOf(13) == 13;
    assert ByteOf(27) == 27 && ByteOf(54) == 54 && ByteOf(108) == 108;
    assert ByteOf(55) == 55 && ByteOf(110) == 110;
  }

  lemma OctetOf(n: Octet, m: Octet, b: Byte)
    requires ByteOf(n) == b && ByteOf(m) == b
    ensures n == m
  {
    ValueOfByte(n);
    ValueOfByte(m);
  }

  /** The acknowledgement of a login with serial 1, byte for byte. */
  lemma LoginAck(f: seq<Octet>)
    requires IsFrame(f, LOGIN, [], 1)
    ensures f == [0x78, 0x78, 0x05, 0x01, 0x00, 0x01, 0xD9, 0xDC, 0x0D, 0x0A]
  {
    hide ByteOf;
    hide Crc16Checksum.IsChecksum;
    SmallBytes();
    var covered, check := f[2..6], f[6..8];
    assert covered == [5, 1, 0, 1];
    assert Bytes(covered) == CrcValues.LOGIN_ACK;
    var crc :| Crc16Checksum.IsChecksum(Crc16Checksum.X25, Bytes(covered), crc)
            && Bytes(check) == Crc16Checksum.SumBytes(true, crc);
    CrcValues.LoginAckCheckValue();
    Crc16Checksum.ChecksumUnique(Crc16Checksum.X25, CrcValues.LOGIN_ACK, crc, 0xD9DC);
    assert Bytes(check)[0] == 0xD9 && Bytes(check)[1] == 0xDC;
    OctetOf(check[0], 0xD9, 0xD9);
    OctetOf(check[1], 0xDC, 0xDC);
  }

  /** The payload of a server command; flag is the server flag as four bytes. */
  function CommandPayload(msg: seq<Octet>, flag: seq<Octet>): seq<Octet>
    requires |flag| >= 4
  {
    [|msg| % 256] + flag[..4] + msg
  }

  method NewCommand(x25: Crc16Checksum.Conf, msg: seq<Octet>, flag: seq<Octet>, serial: int)
    returns (frame: array<Octet>)
    requires x25.Valid() && x25.cfg == Crc16Checksum.X25 && |flag| >= 4
    modifies x25
    ensures x25.Valid() && fresh(frame) && IsFrame(frame[..], SERVER_COMMAND, CommandPayload(msg, flag), serial)
  {
    var payload := new Octet[|msg| + 5];
    payload[0] := |msg| % 256;
    Copy(payload, 1, flag[..4]);
    Copy(payload, 5, msg);
    assert payload[..] == CommandPayload(msg, flag);
    frame := NewFrame(x25, SERVER_COMMAND, payload[..], serial);
  }

  /** A command as it goes out: protocol, lengths and the server flag in their places. */
  lemma CommandOnWire(f: seq<Octet>, msg: seq<Octet>, flag: seq<Octet>, serial: int)
    returns (s1: Octet, s2: Octet, check: seq<Octet>)
    requires |flag| == 4 && |msg| <= 245 && IsFrame(f, SERVER_COMMAND, CommandPayload(msg, flag), serial)
    ensures s1 * 256 + s2 == serial % 65536 && |check| == 2 && IsCheck(f[2..|f| - 4], check)
    ensures f == [0x78, 0x78, |msg| + 10, 0x80, |msg|] + flag + msg + [s1, s2] + check + [0x0d, 0x0a]
  {
    hide IsCheck;
    var number := serial % 65536;
    check := f[|f| - 4..|f| - 2];
    s1, s2 := BE16(number)[0], BE16(number)[1];
    BE16RoundTrip(number);
    assert BE16(number) == [s1, s2];
    hide BE16;
    assert flag[..4] == flag;
  }

  // -------------------------------------------------------------------- reading

  datatype ReadError = Eof | UnexpectedEof | Timeout | Broken(code: nat)

  datatype Outcome =
    | Ready
    | TooSmall
    | ReadFailed(e: ReadError)
    | BadFrame
    | OutOfRange  // the length field is below 5: slicing panics

  /** `b` with a piece written over it from `lo` on. */
  function Patched(b: seq<Octet>, lo: nat, piece: seq<Octet>): (p: seq<Octet>)
    requires lo + |piece| <= |b|
    ensures |p| == |b|
  {
    b[..lo] + piece + b[lo + |piece|..]
  }

  /** A connection: the bytes it will deliver and the error that follows them. */
  class Conn {
    const input: seq<Octet>
    const end: ReadError
    var pos: nat

    ghost predicate Valid()
      reads this
    {
      pos <= |input|
    }

    ghost function Rest(): seq<Octet>
      reads this
      requires Valid()
    {
      input[pos..]
    }

    constructor (input: seq<Octet>, end: ReadError)
      ensures Valid() && this.input == input && this.end == end && Rest() == input
    {
      this.input := input;
      this.end := end;
      pos := 0;
    }

    /** Delivers at least one byte, and as many more as it likes. */
    method Read(buf: array<Octet>, lo: nat, hi: nat) returns (n: nat, err: Option<ReadError>)
      requires Valid() && lo < hi <= buf.Length
      modifies this, buf
      ensures Valid()
      ensures old(Rest()) == [] ==> n == 0 && err == Some(end)
      ensures old(Rest()) != [] ==> 0 < n <= hi - lo && n <= |old(Rest())| && err == None
      ensures Rest() == old(Rest())[n..]
      ensures buf[..] == Patched(old(buf[..]), lo, old(Rest())[..n])
    {
      if pos == |input| {
        return 0, Some(end);
      }
      n :| 0 < n <= hi - lo && n <= |input| - pos;
      Copy(buf, lo, input[pos..pos + n]);
      pos := pos + n;
      err := None;
    }

    /** io.ReadFull into buf[lo..hi]. */
    method ReadFull(buf: array<Octet>, lo: nat, hi: nat) returns (err: Option<ReadError>)
      requires Valid() && lo < hi <= buf.Length
      modifies this, buf
      ensures Valid()
      ensures err == Shortfall(old(Rest()), hi - lo, end)
      ensures Rest() == old(Rest())[Fill(old(Rest()), hi - lo)..]
      ensures var n := Fill(old(Rest()), hi - lo);
        buf[..] == Patched(old(buf[..]), lo, old(Rest())[..n])
    {
      var got := 0;
      ghost var b0, rest := buf[..], Rest();
      assert b0 == Patched(b0, lo, rest[..0]);
      hide Patched;
      while got < hi - lo
        invariant Valid() && got <= |rest| && got <= hi - lo
        invariant Rest() == rest[got..]
        invariant buf[..] == Patched(b0, lo, rest[..got])
      {
        ghost var b1 := buf[..];
        var n, e := Read(buf, lo + got, hi);
        Grown(b0, rest, lo, got, n, b1, buf[..]);
        got := got + n;
        if e.Some? {
          assert got == |rest| == Fill(rest, hi - lo);
          return if got > 0 && e.value.Eof? then Some(UnexpectedEof) else e;
        }
      }
      assert got == Fill(rest, hi - lo);
      err := None;
    }
  }

  /** How many of the wanted bytes there are. */
  function Fill(rest: seq<Octet>, want: nat): (n: nat)
    ensures n <= |rest| && n <= want
  {
    if |rest| < want then |rest| else want
  }

  /** What io.ReadFull reports. */
  function Shortfall(rest: seq<Octet>, want: nat, end: ReadError): Option<ReadError> {
    if want <= |rest| then None
    else if rest != [] && end.Eof? then Some(UnexpectedEof)
    else Some(end)
  }

  lemma Grown(b0: seq<Octet>, rest: seq<Octet>, lo: nat, got: nat, n: nat, b1: seq<Octet>, b2: seq<Octet>)
    requires got + n <= |rest| && lo + got + n <= |b0|
    requires b1 == Patched(b0, lo, rest[..got]) && b2 == Patched(b1, lo + got, rest[got..][..n])
    ensures b2 == Patched(b0, lo, rest[..got + n])
    ensures rest[got..][n..] == rest[got + n..]
  {
    assert b1[..lo + got] == b0[..lo] + rest[..got];
    assert rest[..got] + rest[got..][..n] == rest[..got + n];
  }

  /** What one readMessage makes of the bytes that follow: a message, or the
    * reason there is none, and how many bytes it took. */
  datatype Parsed =
    | Got(long: bool, protocol: Octet, payload: seq<Octet>, serial: nat, used: nat)
    | Failed(why: Outcome, used: nat)

  function Parse(input: seq<Octet>, size: nat, end: ReadError): (p: Parsed)
    ensures p.used <= |input| && (p.Got? ==> 10 <= p.used <= size)
  {
    if size < 4 then Failed(TooSmall, 0)
    else if |input| < 4 then Failed(ReadFailed(Shortfall(input, 4, end).value), |input|)
    else if input[0] == START_SHORT then ParseBody(input, size, end, false, input[2])
    else if input[1] == START_LONG then ParseBody(input, size, end, true, FromBE16(input[2], input[3]))
    else Failed(BadFrame, 4)
  }

  /** `n` is the value of the length field. */
  function ParseBody(input: seq<Octet>, size: nat, end: ReadError, long: bool, n: nat): (p: Parsed)
    requires 4 <= size && 4 <= |input|
    ensures p.used <= |input| && (p.Got? ==> 10 <= p.used <= size)
  {
    var start := if long then 4 else 3;
    var total := n + start + 2;
    if size < total then Failed(TooSmall, 4)
    else if |input| < total then Failed(ReadFailed(Shortfall(input[4..], total - 4, end).value), |input|)
    else ParseFields(input, long, n)
  }

  /** The whole frame is there: trailer and fields. */
  function ParseFields(input: seq<Octet>, long: bool, n: nat): (p: Parsed)
    requires n + (if long then 6 else 5) <= |input|
    ensures p.used == n + if long then 6 else 5
    ensures p.Got? ==> 10 <= p.used
  {
    var start := if long then 4 else 3;
    var total := n + start + 2;
    if input[total - 2] != CR || input[total - 1] != LF then Failed(BadFrame, total)
    else if n < 5 then Failed(OutOfRange, total)
    else
      var serial := FromBE16(input[start + n - 4], input[start + n - 3]);
      Got(long, input[start], input[start + 1..start + n - 4], serial, total)
  }

  lemma Joined(b0: seq<Octet>, b1: seq<Octet>, input: seq<Octet>, total: nat)
    requires 4 <= total <= |b0| && total <= |input| && b0[..4] == input[..4]
    requires b1 == b0[..4] + input[4..][..total - 4] + b0[total..]
    ensures |b1| == |b0| && b1[..total] == input[..total]
    ensures input[4..][total - 4..] == input[total..]
  {
    assert input[..4] + input[4..][..total - 4] == input[..total];
  }

  datatype Item = Item(protocol: Octet, payload: seq<Octet>, serial: nat)

  lemma SameSlice(a: seq<Octet>, b: seq<Octet>, n: nat, lo: nat, hi: nat)
    requires lo <= hi <= n <= |a| && n <= |b| && a[..n] == b[..n]
    ensures a[lo..hi] == b[lo..hi]
  {
    assert a[lo..hi] == a[..n][lo..hi];
    assert b[lo..hi] == b[..n][lo..hi];
  }

  class Message {
    var extended: bool
    var protocol: Octet
    var length: nat
    var serial: nat
    var lo: nat  // the payload is buffer[lo..hi], not a copy
    var hi: nat
    const buffer: array<Octet>

    ghost predicate Valid()
      reads this
    {
      lo <= hi <= buffer.Length
    }

    ghost function Payload(): seq<Octet>
      reads this, buffer
      requires Valid()
    {
      buffer[lo..hi]
    }

    /** What the fields say now. */
    ghost function Held(): Item
      reads this, buffer
      requires Valid()
    {
      Item(protocol, Payload(), serial)
    }

    constructor (size: nat)
      ensures Valid() && buffer.Length == size && !extended && fresh(buffer)
    {
      extended, protocol, length, serial, lo, hi := false, 0, 0, 0, 0, 0;
      buffer := new Octet[size];
    }

    /** Once the frame is in the buffer: trailer and fields. */
    method TakeFields(long: bool, n: nat, ghost input: seq<Octet>) returns (outcome: Outcome)
      requires Valid() && length == n + (if long then 6 else 5)
      requires length <= buffer.Length && length <= |input| && buffer[..length] == input[..length]
      modifies `protocol, `lo, `hi, `serial
      ensures Valid()
      ensures Agrees(ParseFields(input, long, n), outcome)
      ensures !outcome.Ready? && !outcome.OutOfRange? ==> Fields() == old(Fields())
    {
      var start := if long then 4 else 3;
      assert forall i :: 0 <= i < length ==> buffer[i] == input[i];
      if buffer[length - 2] != CR || buffer[length - 1] != LF {
        return BadFrame;
      }
      protocol := buffer[start];
      if n < 5 {
        return OutOfRange;
      }
      lo, hi := start + 1, start + n - 4;
      serial := FromBE16(buffer[start + n - 4], buffer[start + n - 3]);
      SameSlice(buffer[..], input, length, lo, hi);
      outcome := Ready;
    }

    ghost function Fields(): (Octet, nat, nat, nat)
      reads this
    {
      (protocol, lo, hi, serial)
    }

    /** The outcome and, for a message, the fields are those parsed. */
    ghost predicate Agrees(p: Parsed, outcome: Outcome)
      requires Valid()
      reads this, buffer
    {
      && outcome == (if p.Got? then Ready else p.why)
      && (p.Got? ==> protocol == p.protocol && Payload() == p.payload && serial == p.serial && length == p.used)
    }

    /** After the header: the rest of the frame.  `input` is what the connection
      * delivered from the header on. */
    method ReadBody(c: Conn, long: bool, n: nat, ghost input: seq<Octet>) returns (outcome: Outcome)
      requires Valid() && c.Valid() && 4 <= buffer.Length && 4 <= |input|
      requires buffer[..4] == input[..4] && c.Rest() == input[4..]
      modifies this, buffer, c
      ensures Valid() && c.Valid()
      ensures
        var p := ParseBody(input, buffer.Length, c.end, long, n);
        c.Rest() == input[p.used..] && Agrees(p, outcome)
      ensures !outcome.Ready? && !outcome.OutOfRange? ==> Fields() == old(Fields())
      ensures extended == (old(extended) || long)
    {
      length := n + if long then 6 else 5;
      extended := extended || long;
      if buffer.Length < length {
        return TooSmall;
      }
      ghost var b0 := buffer[..];
      var err := c.ReadFull(buffer, 4, length);
      if err.Some? {
        assert c.Rest() == [];
        return ReadFailed(err.value);
      }
      Joined(b0, buffer[..], input, length);
      outcome := TakeFields(long, n, input);
    }

    /** Extended is set but never cleared again. */
    method ReadMessage(c: Conn) returns (outcome: Outcome)
      requires Valid() && c.Valid()
      modifies this, buffer, c
      ensures Valid() && c.Valid()
      ensures
        var p := Parse(old(c.Rest()), buffer.Length, c.end);
        && c.Rest() == old(c.Rest())[p.used..] && Agrees(p, outcome)
        && (p.Got? ==> extended == (old(extended) || p.long))
      ensures !outcome.Ready? && !outcome.OutOfRange? ==> Fields() == old(Fields())
      ensures old(c.Rest()) == [] ==> !outcome.Ready? && !outcome.OutOfRange? && buffer[..] == old(buffer[..])
    {
      if buffer.Length < 4 {
        return TooSmall;
      }
      ghost var input := c.Rest();
      var err := c.ReadFull(buffer, 0, 4);
      if err.Some? {
        return ReadFailed(err.value);
      }
      assert buffer[..4] == input[..4];
      if buffer[0] == START_SHORT {
        outcome := ReadBody(c, false, buffer[2], input);
      } else if buffer[1] == START_LONG {
        outcome := ReadBody(c, true, FromBE16(buffer[2], buffer[3]), input);
      } else {
        outcome := BadFrame;
      }
    }
  }

  // ----------------------------------------------------------------- round trips

  /** The longest payload whose length field does not overflow. */
  function Limit(long: bool): nat {
    if long then 65530 else 250
  }

  lemma FrameLayout(long: bool, protocol: Octet, payload: seq<Octet>, serial: nat, check: seq<Octet>, rest: seq<Octet>)
    requires |check| == 2
    ensures
      var input := Frame(long, protocol, payload, serial, check) + rest;
      var h, n := if long then 4 else 3, |payload|;
      && |input| == h + n + 7 + |rest|
      && input[..h] == Header(long, n + 5) && input[h] == protocol && input[h + 1..h + 1 + n] == payload
      && input[h + n + 1..h + n + 3] == BE16(serial) && input[h + n + 5] == CR && input[h + n + 6] == LF
      && input[h + n + 7..] == rest
  {
  }

  lemma ShortHeader(n: nat, input: seq<Octet>, size: nat, end: ReadError)
    requires n < 256 && size >= 4 && |input| >= 4 && input[..3] == Header(false, n)
    ensures Parse(input, size, end) == ParseBody(input, size, end, false, n)
  {
    var head := input[..3];
    assert head[0] == input[0] && head[2] == input[2];
    hide ParseBody;
  }

  lemma LongHeader(n: nat, input: seq<Octet>, size: nat, end: ReadError)
    requires n < 65536 && size >= 4 && |input| >= 4 && input[..4] == Header(true, n)
    ensures Parse(input, size, end) == ParseBody(input, size, end, true, n)
  {
    hide BE16;
    hide FromBE16;
    hide ParseBody;
    BE16RoundTrip(n);
    var head, two := input[..4], BE16(n);
    assert head[0] == input[0] && head[1] == input[1] && head[2] == input[2] && head[3] == input[3];
    assert input[2] == two[0] && input[3] == two[1];
    assert FromBE16(input[2], input[3]) == n;
  }

  lemma HeaderParses(long: bool, n: nat, input: seq<Octet>, size: nat, end: ReadError)
    requires 5 <= n <= Limit(long) + 5 && size >= 4 && |input| >= 4
    requires var h := if long then 4 else 3; input[..h] == Header(long, n)
    ensures Parse(input, size, end) == ParseBody(input, size, end, long, n)
  {
    if long {
      LongHeader(n, input, size, end);
    } else {
      ShortHeader(n, input, size, end);
    }
  }

  /** What arrives on the wire as a short frame: every byte of it in its place. */
  lemma ShortOnWire(n: Octet, protocol: Octet, payload: seq<Octet>, s1: Octet, s2: Octet, check: seq<Octet>,
                    rest: seq<Octet>, size: nat, end: ReadError)
    requires n == |payload| + 5 && |check| == 2 && |payload| + 10 <= size
    ensures
      var input := [0x78, 0x78, n, protocol] + payload + [s1, s2] + check + [0x0d, 0x0a] + rest;
      Parse(input, size, end) == Got(false, protocol, payload, s1 * 256 + s2, |payload| + 10)
  {
    var input := [0x78, 0x78, n, protocol] + payload + [s1, s2] + check + [0x0d, 0x0a] + rest;
    assert input[0] == 0x78 && input[2] == n && input[3] == protocol && input[4..n - 1] == payload;
    assert input[n - 1] == s1 && input[n] == s2 && input[n + 3] == 0x0d && input[n + 4] == 0x0a;
    assert Parse(input, size, end) == ParseFields(input, false, n);
  }

  /** And as a long one, with a length field of two bytes. */
  lemma LongOnWire(n1: Octet, n2: Octet, protocol: Octet, payload: seq<Octet>, s1: Octet, s2: Octet, check: seq<Octet>,
                   rest: seq<Octet>, size: nat, end: ReadError)
    requires n1 * 256 + n2 == |payload| + 5 && |check| == 2 && |payload| + 11 <= size
    ensures
      var input := [0x79, 0x79, n1, n2, protocol] + payload + [s1, s2] + check + [0x0d, 0x0a] + rest;
      Parse(input, size, end) == Got(true, protocol, payload, s1 * 256 + s2, |payload| + 11)
  {
    var n := |payload| + 5;
    var input := [0x79, 0x79, n1, n2, protocol] + payload + [s1, s2] + check + [0x0d, 0x0a] + rest;
    assert input[0] == 0x79 && input[1] == 0x79 && input[2] == n1 && input[3] == n2 && input[4] == protocol;
    assert input[5..n] == payload && input[n] == s1 && input[n + 1] == s2;
    assert input[n + 4] == 0x0d && input[n + 5] == 0x0a;
    assert Parse(input, size, end) == ParseFields(input, true, n);
  }

  /** A frame at the head of the stream is read back exactly, whatever follows and
    * whatever its check bytes are. */
  lemma FrameParses(long: bool, protocol: Octet, payload: seq<Octet>, serial: nat, check: seq<Octet>, rest: seq<Octet>,
                    size: nat, end: ReadError)
    requires |check| == 2 && |payload| <= Limit(long) && |Frame(long, protocol, payload, serial, check)| <= size
    ensures
      var f := Frame(long, protocol, payload, serial, check);
      && Parse(f + rest, size, end) == Got(long, protocol, payload, serial % 65536, |f|)
      && (f + rest)[|f|..] == rest
  {
    var input := Frame(long, protocol, payload, serial, check) + rest;
    var h, n := if long then 4 else 3, |payload|;
    FrameLayout(long, protocol, payload, serial, check, rest);
    HeaderParses(long, n + 5, input, size, end);
    BE16RoundTrip(serial);
    var two := input[h + n + 1..h + n + 3];
    assert two[0] == input[h + n + 1] && two[1] == input[h + n + 2];
    assert ParseBody(input, size, end, long, n + 5) == ParseFields(input, long, n + 5);
  }

  /** The length field is one byte, so a frame of newFrame is read back with its
    * payload exactly when that has at most 250 bytes. */
  lemma ShortFrameIff(f: seq<Octet>, protocol: Octet, payload: seq<Octet>, serial: int, rest: seq<Octet>, size: nat,
      end: ReadError)
    requires IsFrame(f, protocol, payload, serial) && |f| <= size
    ensures
      var p := Parse(f + rest, size, end);
      p.Got? && p.payload == payload <==> |payload| <= 250
    ensures |payload| <= 250 ==> Parse(f + rest, size, end) == Got(false, protocol, payload, serial % 65536, |f|)
  {
    hide IsCheck;
    hide ParseBody;
    var check := f[|f| - 4..|f| - 2];
    if |payload| <= 250 {
      FrameParses(false, protocol, payload, serial % 65536, check, rest, size, end);
    } else {
      LengthWraps(f, protocol, payload, serial % 65536, check, rest, size, end);
    }
  }

  lemma LengthWraps(f: seq<Octet>, protocol: Octet, payload: seq<Octet>, serial: nat, check: seq<Octet>,
      rest: seq<Octet>, size: nat, end: ReadError)
    requires |check| == 2 && f == Frame(false, protocol, payload, serial, check) && |payload| > 250 && |f| <= size
    ensures var p := Parse(f + rest, size, end); p.Got? ==> |p.payload| != |payload|
  {
    var input, n := f + rest, (|payload| + 5) % 256;
    FrameLayout(false, protocol, payload, serial, check, rest);
    assert Header(false, |payload| + 5) == Header(false, n);
    ShortHeader(n, input, size, end);
  }

  /** A command is read back exactly when its text has at most 245 bytes. */
  lemma CommandIff(f: seq<Octet>, msg: seq<Octet>, flag: seq<Octet>, serial: int, rest: seq<Octet>, size: nat,
      end: ReadError)
    requires |flag| >= 4 && IsFrame(f, SERVER_COMMAND, CommandPayload(msg, flag), serial) && |f| <= size
    ensures
      var p := Parse(f + rest, size, end);
      p.Got? && p.payload == CommandPayload(msg, flag) <==> |msg| <= 245
  {
    ShortFrameIff(f, SERVER_COMMAND, CommandPayload(msg, flag), serial, rest, size, end);
  }

  // --------------------------------------------------------------- whole streams

  /** What repeated reading yields, and the reason it stops. */
  datatype Session = Session(items: seq<Item>, stop: Outcome)

  function ReadAllFrom(input: seq<Octet>, size: nat, end: ReadError): Session
    decreases |input|
  {
    var p := Parse(input, size, end);
    if p.Failed? then Session([], p.why)
    else
      var later := ReadAllFrom(input[p.used..], size, end);
      Session([Item(p.protocol, p.payload, p.serial)] + later.items, later.stop)
  }

  function Prepend(items: seq<Item>, s: Session): Session {
    Session(items + s.items, s.stop)
  }

  lemma NextItem(items: seq<Item>, input: seq<Octet>, size: nat, end: ReadError)
    ensures var p := Parse(input, size, end);
      && (p.Got? ==> Prepend(items, ReadAllFrom(input, size, end))
                     == Prepend(items + [Item(p.protocol, p.payload, p.serial)],
                                ReadAllFrom(input[p.used..], size, end)))
      && (p.Failed? ==> Prepend(items, ReadAllFrom(input, size, end)) == Session(items, p.why))
  {
    var p := Parse(input, size, end);
    if p.Got? {
      var later := ReadAllFrom(input[p.used..], size, end).items;
      var item := Item(p.protocol, p.payload, p.serial);
      assert items + ([item] + later) == items + [item] + later;
    }
  }

  /** The stream ends between two frames. */
  predicate Clean(input: seq<Octet>, size: nat, end: ReadError)
    decreases |input|
  {
    var p := Parse(input, size, end);
    if p.Got? then Clean(input[p.used..], size, end) else input == []
  }

  function LastOr(held: Item, items: seq<Item>): Item {
    if items == [] then held else items[|items| - 1]
  }

  /** Reads one message and copies its payload out; `all` is what the whole session
    * yields, of which `items` came before. */
  method ReadItem(c: Conn, msg: Message, ghost items: seq<Item>, ghost all: Session)
    returns (item: Item, outcome: Outcome)
    requires msg.Valid() && c.Valid()
    requires all == Prepend(items, ReadAllFrom(c.Rest(), msg.buffer.Length, c.end))
    modifies msg, msg.buffer, c
    ensures msg.Valid() && c.Valid()
    ensures outcome.Ready? ==>
      |c.Rest()| < |old(c.Rest())| && all == Prepend(items + [item], ReadAllFrom(c.Rest(), msg.buffer.Length, c.end))
    ensures outcome.Ready? ==>
      msg.Held() == item && Clean(old(c.Rest()), msg.buffer.Length, c.end) == Clean(c.Rest(), msg.buffer.Length, c.end)
    ensures !outcome.Ready? ==> all == Session(items, outcome)
    ensures !outcome.Ready? && Clean(old(c.Rest()), msg.buffer.Length, c.end) ==> msg.Held() == old(msg.Held())
  {
    NextItem(items, c.Rest(), msg.buffer.Length, c.end);
    outcome := msg.ReadMessage(c);
    item := Item(msg.protocol, msg.buffer[msg.lo..msg.hi], msg.serial);
  }

  /** Reading until an error.  If that came between two frames, the buffer still holds
    * the last message. */
  method ReadAll(c: Conn, msg: Message) returns (items: seq<Item>, outcome: Outcome)
    requires msg.Valid() && c.Valid()
    modifies msg, msg.buffer, c
    ensures msg.Valid() && c.Valid()
    ensures Session(items, outcome) == ReadAllFrom(old(c.Rest()), msg.buffer.Length, c.end)
    ensures Clean(old(c.Rest()), msg.buffer.Length, c.end) ==> msg.Held() == LastOr(old(msg.Held()), items)
  {
    hide Parse;
    hide ReadAllFrom;
    hide Clean;
    items := [];
    ghost var all, clean := ReadAllFrom(c.Rest(), msg.buffer.Length, c.end), Clean(c.Rest(), msg.buffer.Length, c.end);
    assert all == Prepend([], all);
    while true
      invariant msg.Valid() && c.Valid()
      invariant all == Prepend(items, ReadAllFrom(c.Rest(), msg.buffer.Length, c.end))
      invariant clean == Clean(c.Rest(), msg.buffer.Length, c.end) && msg.Held() == LastOr(old(msg.Held()), items)
      decreases |c.Rest()|
    {
      var item;
      item, outcome := ReadItem(c, msg, items, all);
      if !outcome.Ready? {
        return;
      }
      items := items + [item];
    }
  }

  /** The reading side of one pass: after a first timeout the message in the buffer is
    * handed on once more, and reading continues with what the connection delivers
    * then (`after`).  When the timeout came between two frames that message is the
    * last one received. */
  method ReadPass(c: Conn, after: Conn, msg: Message) returns (items: seq<Item>, again: Item, outcome: Outcome)
    requires msg.Valid() && c.Valid() && after.Valid() && c != after
    modifies msg, msg.buffer, c, after
    ensures
      var size := msg.buffer.Length;
      var first := ReadAllFrom(old(c.Rest()), size, c.end);
      var second := ReadAllFrom(old(after.Rest()), size, after.end);
      if first.stop == ReadFailed(Timeout) then
        && items == first.items + [again] + second.items && outcome == second.stop
        && (Clean(old(c.Rest()), size, c.end) ==> again == LastOr(old(msg.Held()), first.items))
      else Session(items, outcome) == first
  {
    hide ReadAllFrom;
    hide Clean;
    items, outcome := ReadAll(c, msg);
    again := Item(msg.protocol, msg.buffer[msg.lo..msg.hi], msg.serial);
    if outcome == ReadFailed(Timeout) {
      var more;
      more, outcome := ReadAll(after, msg);
      items := items + [again] + more;
    }
  }

  datatype Sent = Sent(protocol: Octet, payload: seq<Octet>, serial: int)

  function Flatten(frames: seq<seq<Octet>>): seq<Octet> {
    if frames == [] then [] else frames[0] + Flatten(frames[1..])
  }

  function Received(msgs: seq<Sent>): seq<Item> {
    if msgs == [] then []
    else [Item(msgs[0].protocol, msgs[0].payload, msgs[0].serial % 65536)] + Received(msgs[1..])
  }

  /** Reading the frames of any list of messages returns them in order, with their
    * serials modulo 2^16, and stops exactly at the end of the input. */
  lemma {:induction false} StreamRoundTrip(msgs: seq<Sent>, frames: seq<seq<Octet>>, size: nat, end: ReadError)
    requires |frames| == |msgs| && size >= 4
    requires forall i :: 0 <= i < |msgs| ==>
      && IsFrame(frames[i], msgs[i].protocol, msgs[i].payload, msgs[i].serial)
      && |msgs[i].payload| <= 250 && |frames[i]| <= size
    ensures ReadAllFrom(Flatten(frames), size, end) == Session(Received(msgs), ReadFailed(end))
    ensures Clean(Flatten(frames), size, end)
    decreases |msgs|
  {
    if msgs != [] {
      var rest := Flatten(frames[1..]);
      ShortFrameIff(frames[0], msgs[0].protocol, msgs[0].payload, msgs[0].serial, rest, size, end);
      assert (frames[0] + rest)[|frames[0]|..] == rest;
      StreamRoundTrip(msgs[1..], frames[1..], size, end);
    }
  }

  lemma {:induction false} ReceivedAppend(a: seq<Sent>, b: seq<Sent>)
    ensures Received(a + b) == Received(a) + Received(b)
    decreases |a|
  {
    if a == [] {
      assert a + b == b;
    } else {
      assert (a + b)[1..] == a[1..] + b;
      ReceivedAppend(a[1..], b);
    }
  }

  /** Frames whole before and after a timeout: what a pass hands on is every message,
    * in order, and the last one before the timeout a second time. */
  lemma PassRoundTrip(msgs: seq<Sent>, frames: seq<seq<Octet>>, later: seq<Sent>, laterFrames: seq<seq<Octet>>,
                      size: nat, end: ReadError, held: Item)
    requires size >= 4 && |frames| == |msgs| && |laterFrames| == |later|
    requires forall i :: 0 <= i < |msgs| ==>
      && IsFrame(frames[i], msgs[i].protocol, msgs[i].payload, msgs[i].serial)
      && |msgs[i].payload| <= 250 && |frames[i]| <= size
    requires forall i :: 0 <= i < |later| ==>
      && IsFrame(laterFrames[i], later[i].protocol, later[i].payload, later[i].serial)
      && |later[i].payload| <= 250 && |laterFrames[i]| <= size
    ensures
      var first := ReadAllFrom(Flatten(frames), size, Timeout);
      var second := ReadAllFrom(Flatten(laterFrames), size, end);
      && first.stop == ReadFailed(Timeout) && Clean(Flatten(frames), size, Timeout)
      && first.items + second.items == Received(msgs + later)
      && first.items + [LastOr(held, first.items)] + second.items
         == Received(msgs) + [LastOr(held, Received(msgs))] + Received(later)
  {
    StreamRoundTrip(msgs, frames, size, Timeout);
    StreamRoundTrip(later, laterFrames, size, end);
    ReceivedAppend(msgs, later);
  }

  // ------------------------------------------------------------ command responses

  function BE32(n: nat): (b: seq<Octet>)
    ensures |b| == 4
  {
    BE16(n / 65536) + BE16(n)
  }

  function FromBE32(b: seq<Octet>): nat
    requires |b| == 4
  {
    FromBE16(b[0], b[1]) * 65536 + FromBE16(b[2], b[3])
  }

  datatype CommandResponse = CommandResponse(flag: nat, message: seq<Octet>)

  /** None stands for a slice out of range. */
  function ParseGK310(d: seq<Octet>): Option<CommandResponse> {
    if |d| < 5 then None else Some(CommandResponse(FromBE32(d[..4]), d[5..]))
  }

  function ParseGT06(d: seq<Octet>): Option<CommandResponse> {
    if |d| < 7 then None else Some(CommandResponse(FromBE32(d[1..5]), d[5..|d| - 2]))
  }

  lemma BE32RoundTrip(n: nat)
    ensures FromBE32(BE32(n)) == n % 0x1_0000_0000
  {
    BE16RoundTrip(n / 65536);
    BE16RoundTrip(n);
    TwoWords(n);
  }

  lemma SplitGK310(b: seq<Octet>, sep: Octet, message: seq<Octet>)
    requires |b| == 4
    ensures ParseGK310(b + [sep] + message) == Some(CommandResponse(FromBE32(b), message))
  {
    var d := b + [sep] + message;
    assert d[..4] == b;
    assert d[5..] == message;
  }

  lemma SplitGT06(b: seq<Octet>, n: Octet, message: seq<Octet>, language: seq<Octet>)
    requires |b| == 4 && |language| == 2
    ensures ParseGT06([n] + b[..4] + message + language) == Some(CommandResponse(FromBE32(b), message))
  {
    var d := [n] + b[..4] + message + language;
    assert d[1..5] == b;
    assert d[5..|d| - 2] == message;
  }

  /** A terminal that answers with the flag of the command is understood; the GT06
    * response has the layout of the command, with two more bytes. */
  lemma ResponsesCarryFlag(flag: nat, message: seq<Octet>, sep: Octet, language: seq<Octet>)
    requires flag < 0x1_0000_0000 && |language| == 2
    ensures ParseGK310(BE32(flag) + [sep] + message) == Some(CommandResponse(flag, message))
    ensures ParseGT06(CommandPayload(message, BE32(flag)) + language) == Some(CommandResponse(flag, message))
  {
    hide BE32;
    hide FromBE32;
    hide BE16;
    hide ParseGK310;
    hide ParseGT06;
    BE32RoundTrip(flag);
    var b := BE32(flag);
    SplitGK310(b, sep, message);
    SplitGT06(b, |message| % 256, message, language);
  }
}
