/** internal/webapp/tracker: the row loop and trailer of the location history
  * endpoint.
  *
  * Rows become 48 bytes each and are written in chunks; the JSON text of the row
  * counts per tracker and its length follow.  Floating-point fields are their bit
  * patterns, `json` stands for the JSON encoder, and the response writer may fail
  * after any number of bytes.
  */
module HistoryWriter {
  import opened Octets
  import opened Options

  const ROW_SIZE: nat := 48
  const UINT32: nat := 0x1_0000_0000
  const UINT64: nat := 0x1_0000_0000_0000_0000

  datatype Row = Row(nsn: nat, lat: nat, lon: nat, alt: nat, speed: nat, gpsTime: int, serverTime: int)

  // ---------------------------------------------------------------- little endian

  function Digit(n: nat, i: nat): Octet
    decreases i
  {
    if i == 0 then n % 256 else Digit(n / 256, i - 1)
  }

  /** k bytes, least significant first. */
  function LE(n: nat, k: nat): (b: seq<Octet>)
    ensures |b| == k
  {
    seq(k, i requires 0 <= i < k => Digit(n, i))
  }

  function FromLE(b: seq<Octet>): nat {
    if b == [] then 0 else b[0] + 256 * FromLE(b[1..])
  }

  /** Values that k bytes can hold. */
  function Room(k: nat): (r: nat)
    ensures r >= 1
  {
    if k == 0 then 1 else 256 * Room(k - 1)
  }

  lemma {:induction false} LERoundTrip(n: nat, k: nat)
    requires n < Room(k)
    ensures FromLE(LE(n, k)) == n
    decreases k
  {
    if k > 0 {
      LERoundTrip(n / 256, k - 1);
      assert LE(n, k)[0] == n % 256 && LE(n, k)[1..] == LE(n / 256, k - 1);
    }
  }

  lemma Word32(n: nat)
    requires n < UINT32
    ensures FromLE(LE(n, 4)) == n
  {
    assert Room(4) == UINT32;
    LERoundTrip(n, 4);
  }

  lemma Word64(n: nat)
    requires n < UINT64
    ensures FromLE(LE(n, 8)) == n
  {
    assert Room(4) == UINT32;
    assert Room(6) == 256 * (256 * Room(4));
    assert Room(8) == 256 * (256 * Room(6));
    LERoundTrip(n, 8);
  }

  // ------------------------------------------------------------------------- rows

  /** The field values that fit their encoding; times are milliseconds in int64. */
  predicate Encodable(r: Row) {
    && r.nsn < 0x1_0000_0000_0000_0000 && r.lat < 0x1_0000_0000_0000_0000 && r.lon < 0x1_0000_0000_0000_0000
    && r.alt < 0x1_0000_0000 && r.speed < 0x1_0000_0000
    && -0x8000_0000_0000_0000 <= r.gpsTime < 0x8000_0000_0000_0000
    && -0x8000_0000_0000_0000 <= r.serverTime < 0x8000_0000_0000_0000
  }

  function EncodeRow(r: Row): (b: seq<Octet>)
    ensures |b| == ROW_SIZE
  {
    LE(r.nsn, 8) + LE(r.lat, 8) + LE(r.lon, 8) + LE(r.alt, 4) + LE(r.speed, 4)
    + LE(r.gpsTime % UINT64, 8) + LE(r.serverTime % UINT64, 8)
  }

  function Signed(n: nat): int {
    if n < UINT64 / 2 then n else n - UINT64
  }

  function DecodeRow(b: seq<Octet>): Row
    requires |b| == ROW_SIZE
  {
    Row(FromLE(b[..8]), FromLE(b[8..16]), FromLE(b[16..24]), FromLE(b[24..28]), FromLE(b[28..32]),
        Signed(FromLE(b[32..40])), Signed(FromLE(b[40..])))
  }

  function EncodeRows(rows: seq<Row>): (b: seq<Octet>)
    ensures |b| == ROW_SIZE * |rows| && |b| % ROW_SIZE == 0
  {
    if rows == [] then [] else EncodeRows(rows[..|rows| - 1]) + EncodeRow(rows[|rows| - 1])
  }

  function DecodeRows(b: seq<Octet>): seq<Row>
    requires |b| % ROW_SIZE == 0
  {
    if b == [] then [] else DecodeRows(b[..|b| - ROW_SIZE]) + [DecodeRow(b[|b| - ROW_SIZE..])]
  }

  lemma Slices(a: seq<Octet>, b: seq<Octet>, c: seq<Octet>, d: seq<Octet>, e: seq<Octet>, f: seq<Octet>, g: seq<Octet>)
    requires |a| == |b| == |c| == |f| == |g| == 8 && |d| == |e| == 4
    ensures var s := a + b + c + d + e + f + g;
      && s[..8] == a && s[8..16] == b && s[16..24] == c
      && s[24..28] == d && s[28..32] == e && s[32..40] == f && s[40..] == g
  {
  }

  lemma RowRoundTrip(r: Row)
    requires Encodable(r)
    ensures DecodeRow(EncodeRow(r)) == r
  {
    Slices(LE(r.nsn, 8), LE(r.lat, 8), LE(r.lon, 8), LE(r.alt, 4), LE(r.speed, 4),
           LE(r.gpsTime % UINT64, 8), LE(r.serverTime % UINT64, 8));
    Word64(r.nsn);
    Word64(r.lat);
    Word64(r.lon);
    Word32(r.alt);
    Word32(r.speed);
    Word64(r.gpsTime % UINT64);
    Word64(r.serverTime % UINT64);
  }

  lemma {:induction false} RowsRoundTrip(rows: seq<Row>)
    requires forall r :: r in rows ==> Encodable(r)
    ensures DecodeRows(EncodeRows(rows)) == rows
    decreases |rows|
  {
    hide EncodeRow;
    hide DecodeRow;
    if rows != [] {
      var front, r := rows[..|rows| - 1], rows[|rows| - 1];
      RowsRoundTrip(front);
      RowRoundTrip(r);
      var b := EncodeRows(rows);
      assert b[..|b| - ROW_SIZE] == EncodeRows(front);
      assert b[|b| - ROW_SIZE..] == EncodeRow(r);
    }
  }

  // ----------------------------------------------------------------------- counts

  function CountOf(rows: seq<Row>, nsn: nat): nat {
    if rows == [] then 0
    else CountOf(rows[..|rows| - 1], nsn) + if rows[|rows| - 1].nsn == nsn then 1 else 0
  }

  /** The number of rows of every tracker that has any. */
  ghost predicate IsCount(counts: map<nat, nat>, rows: seq<Row>) {
    && (forall r :: r in rows ==> r.nsn in counts)
    && (forall k :: k in counts ==> counts[k] == CountOf(rows, k) > 0)
  }

  function Counts(rows: seq<Row>): (counts: map<nat, nat>)
    ensures IsCount(counts, rows)
  {
    if rows == [] then map[]
    else
      var nsn := rows[|rows| - 1].nsn;
      var before := Counts(rows[..|rows| - 1]);
      assert forall r :: r in rows ==> r in rows[..|rows| - 1] || r == rows[|rows| - 1];
      CountAbsent(rows[..|rows| - 1], nsn);
      before[nsn := (if nsn in before then before[nsn] else 0) + 1]
  }

  lemma {:induction false} CountAbsent(rows: seq<Row>, nsn: nat)
    ensures CountOf(rows, nsn) == 0 <==> forall r :: r in rows ==> r.nsn != nsn
    decreases |rows|
  {
    if rows != [] {
      var front, last := rows[..|rows| - 1], rows[|rows| - 1];
      CountAbsent(front, nsn);
      assert forall r :: r in rows <==> r in front || r == last;
    }
  }

  function Total(counts: map<nat, nat>, keys: seq<nat>): nat
    requires forall k :: k in keys ==> k in counts
  {
    if keys == [] then 0 else counts[keys[0]] + Total(counts, keys[1..])
  }

  function CountAll(rows: seq<Row>, keys: seq<nat>): nat {
    if keys == [] then 0 else CountOf(rows, keys[0]) + CountAll(rows, keys[1..])
  }

  predicate Distinct(keys: seq<nat>) {
    forall i, j :: 0 <= i < j < |keys| ==> keys[i] != keys[j]
  }

  /** One more row adds one to the count of exactly one key. */
  lemma {:induction false} CountAllNext(rows: seq<Row>, r: Row, keys: seq<nat>)
    requires Distinct(keys)
    ensures CountAll(rows + [r], keys) == CountAll(rows, keys) + if r.nsn in keys then 1 else 0
    decreases |keys|
  {
    if keys != [] {
      assert (rows + [r])[..|rows|] == rows;
      CountAllNext(rows, r, keys[1..]);
      if r.nsn == keys[0] && r.nsn in keys[1..] {
        assert false;
      }
    }
  }

  lemma {:induction false} CountAllRows(rows: seq<Row>, keys: seq<nat>)
    requires Distinct(keys) && forall r :: r in rows ==> r.nsn in keys
    ensures CountAll(rows, keys) == |rows|
    decreases |rows|
  {
    if rows == [] {
      CountNone(keys);
    } else {
      var front, r := rows[..|rows| - 1], rows[|rows| - 1];
      assert rows == front + [r];
      CountAllRows(front, keys);
      CountAllNext(front, r, keys);
    }
  }

  lemma {:induction false} CountNone(keys: seq<nat>)
    ensures CountAll([], keys) == 0
    decreases |keys|
  {
    if keys != [] {
      CountNone(keys[1..]);
    }
  }

  lemma {:induction false} TotalIsCountAll(counts: map<nat, nat>, rows: seq<Row>, keys: seq<nat>)
    requires IsCount(counts, rows) && forall k :: k in keys ==> k in counts
    ensures Total(counts, keys) == CountAll(rows, keys)
    decreases |keys|
  {
    if keys != [] {
      assert keys[0] in keys;
      TotalIsCountAll(counts, rows, keys[1..]);
    }
  }

  /** Added up in any order, the counts give the length of the row block. */
  lemma CountsMeasureBlock(counts: map<nat, nat>, rows: seq<Row>, keys: seq<nat>)
    requires IsCount(counts, rows)
    requires Distinct(keys) && forall k :: k in keys <==> k in counts
    ensures |EncodeRows(rows)| == ROW_SIZE * Total(counts, keys)
  {
    TotalIsCountAll(counts, rows, keys);
    CountAllRows(rows, keys);
  }

  // ------------------------------------------------------------------ the response

  /** An HTTP response body: `room` is how many more bytes it accepts, if limited, and
    * `pieces` are the sizes of the writes that succeeded. */
  class Response {
    var out: seq<Octet>
    var pieces: seq<nat>
    var limited: bool
    var room: nat

    constructor (limited: bool, room: nat)
      ensures out == [] && pieces == [] && this.limited == limited && this.room == room
    {
      out, pieces := [], [];
      this.limited := limited;
      this.room := room;
    }

    method Write(p: seq<Octet>) returns (ok: bool)
      modifies this
      ensures limited == old(limited)
      ensures ok <==> !limited || |p| <= old(room)
      ensures ok ==> out == old(out) + p && pieces == old(pieces) + [|p|]
      ensures !ok ==> old(out) <= out <= old(out) + p
    {
      if limited && room < |p| {
        out := out + p[..room];
        room := 0;
        return false;
      }
      out, pieces := out + p, pieces + [|p|];
      room := if limited then room - |p| else room;
      ok := true;
    }
  }

  /** The trailer: the metadata and its length, truncated to 32 bits. */
  function Trailer(meta: seq<Octet>): seq<Octet> {
    meta + LE(|meta| % UINT32, 4)
  }

  /** The whole response. */
  function Full(rows: seq<Row>, meta: seq<Octet>): seq<Octet> {
    EncodeRows(rows) + Trailer(meta)
  }

  /** The rows that can be scanned when an error follows the first `scanOk`. */
  function Scanned(rows: seq<Row>, scanOk: nat): seq<Row> {
    if scanOk < |rows| then rows[..scanOk] else rows
  }

  lemma {:induction false} EncodePrefix(rows: seq<Row>, i: nat)
    requires i <= |rows|
    ensures EncodeRows(rows[..i]) <= EncodeRows(rows)
    decreases |rows|
  {
    if i < |rows| {
      var front := rows[..|rows| - 1];
      assert front[..i] == rows[..i];
      EncodePrefix(front, i);
    } else {
      assert rows[..i] == rows;
    }
  }

  lemma ScannedStarts(rows: seq<Row>, scanOk: nat, i: nat)
    requires i <= |rows| && i <= scanOk
    ensures EncodeRows(rows[..i]) <= EncodeRows(Scanned(rows, scanOk))
  {
    assert Scanned(rows, scanOk)[..i] == rows[..i];
    EncodePrefix(Scanned(rows, scanOk), i);
  }

  lemma OneMoreRow(rows: seq<Row>, i: nat)
    requires i < |rows|
    ensures EncodeRows(rows[..i + 1]) == EncodeRows(rows[..i]) + EncodeRow(rows[i])
    ensures var before := Counts(rows[..i]);
      Counts(rows[..i + 1]) == before[rows[i].nsn := (if rows[i].nsn in before then before[rows[i].nsn] else 0) + 1]
  {
    assert rows[..i + 1][..i] == rows[..i];
  }

  /** The trailer, after the last row. */
  method WriteTrailer(w: Response, b: seq<Octet>) returns (ok: bool)
    modifies w
    ensures ok ==> w.out == old(w.out) + Trailer(b) && w.pieces == old(w.pieces) + [|b|, 4]
    ensures !old(w.limited) ==> ok
    ensures old(w.out) <= w.out <= old(w.out) + Trailer(b)
  {
    ok := w.Write(b);
    if ok {
      ok := w.Write(LE(|b| % UINT32, 4));
    }
  }

  /** The sizes in which n rows are written: a full chunk as often as there is one, then
    * the rest; all at once without a chunk size. */
  function Pieces(n: nat, chunk: int): seq<nat>
    decreases n
  {
    if 0 < chunk <= n then [ROW_SIZE * chunk] + Pieces(n - chunk, chunk)
    else if n > 0 then [ROW_SIZE * n]
    else []
  }

  /** `count` rows are buffered and `left` are still to come. */
  ghost predicate InChunks(p0: seq<nat>, pieces: seq<nat>, count: nat, left: nat, n: nat, chunk: int) {
    (chunk > 0 ==> count < chunk) && pieces + Pieces(count + left, chunk) == p0 + Pieces(n, chunk)
  }

  lemma NextChunk(p0: seq<nat>, pieces: seq<nat>, count: nat, left: nat, n: nat, chunk: int)
    requires InChunks(p0, pieces, count, left, n, chunk) && left > 0
    ensures count + 1 == chunk ==> InChunks(p0, pieces + [ROW_SIZE * chunk], 0, left - 1, n, chunk)
    ensures count + 1 != chunk ==> InChunks(p0, pieces, count + 1, left - 1, n, chunk)
  {
    if count + 1 == chunk {
      var piece := [ROW_SIZE * chunk];
      assert pieces + (piece + Pieces(left - 1, chunk)) == pieces + piece + Pieces(left - 1, chunk);
    }
  }

  /** The row loop's body once the row is encoded. */
  method WriteRow(w: Response, buf: seq<Octet>, e: seq<Octet>, count: nat, chunk: int)
    returns (ok: bool, rest: seq<Octet>, count': nat)
    requires |buf| == ROW_SIZE * count && |e| == ROW_SIZE
    modifies w
    ensures w.limited == old(w.limited) && (!w.limited ==> ok)
    ensures ok ==> w.out + rest == old(w.out) + buf + e && |rest| == ROW_SIZE * count'
    ensures ok && count + 1 == chunk ==> w.pieces == old(w.pieces) + [ROW_SIZE * chunk] && count' == 0
    ensures ok && count + 1 != chunk ==> w.pieces == old(w.pieces) && count' == count + 1
    ensures old(w.out) <= w.out <= old(w.out) + buf + e
  {
    ok, rest, count' := true, buf + e, count + 1;
    assert w.out + rest == w.out + buf + e;
    if chunk != 0 && count' == chunk {
      count' := 0;
      ok := w.Write(rest);
      if ok {
        rest := [];
        assert w.out + rest == w.out;
      }
    }
  }

  /** How the pieces written so far fit below the whole row block. */
  lemma Below(o: seq<Octet>, o1: seq<Octet>, buf: seq<Octet>, rows: seq<Octet>, e: seq<Octet>, rows1: seq<Octet>,
      all: seq<Octet>, o2: seq<Octet>)
    requires o <= o1 && o1 + buf == o + rows && rows1 == rows + e && rows1 <= all
    requires o1 <= o2 <= o1 + buf + e
    ensures o1 + buf + e == o + rows1
    ensures o <= o2 <= o + all
  {
    assert o + rows + e == o + rows1;
  }

  lemma LastPiece(p0: seq<nat>, pieces: seq<nat>, count: nat, n: nat, chunk: int)
    requires InChunks(p0, pieces, count, 0, n, chunk)
    ensures (if count > 0 then pieces + [ROW_SIZE * count] else pieces) == p0 + Pieces(n, chunk)
  {
  }

  /** After i rows: what is out and what is buffered make up their bytes, in chunks;
    * `o` and `p0` are the response before. */
  ghost predicate Written(o: seq<Octet>, p0: seq<nat>, out: seq<Octet>, pieces: seq<nat>, buf: seq<Octet>, count: nat,
      rows: seq<Row>, i: nat, chunk: int)
  {
    && i <= |rows| && out + buf == o + EncodeRows(rows[..i]) && o <= out
    && |buf| == ROW_SIZE * count && InChunks(p0, pieces, count, |rows| - i, |rows|, chunk)
  }

  /** One turn of the row loop, but for the count of its tracker. */
  method NextRow(w: Response, rows: seq<Row>, scanOk: nat, i: nat, buf: seq<Octet>, count: nat, chunk: int,
      ghost o: seq<Octet>, ghost p0: seq<nat>)
    returns (ok: bool, buf': seq<Octet>, count': nat)
    requires i < |rows| && i < scanOk && Written(o, p0, w.out, w.pieces, buf, count, rows, i, chunk)
    modifies w
    ensures w.limited == old(w.limited) && (!w.limited ==> ok)
    ensures ok ==> Written(o, p0, w.out, w.pieces, buf', count', rows, i + 1, chunk)
    ensures o <= w.out <= o + EncodeRows(Scanned(rows, scanOk))
  {
    hide EncodeRow;
    hide EncodeRows;
    hide InChunks;
    hide Scanned;
    ghost var o1 := w.out;
    OneMoreRow(rows, i);
    ScannedStarts(rows, scanOk, i + 1);
    NextChunk(p0, w.pieces, count, |rows| - i, |rows|, chunk);
    ok, buf', count' := WriteRow(w, buf, EncodeRow(rows[i]), count, chunk);
    Below(o, o1, buf, EncodeRows(rows[..i]), EncodeRow(rows[i]), EncodeRows(rows[..i + 1]),
          EncodeRows(Scanned(rows, scanOk)), w.out);
  }

  lemma Starts(o: seq<Octet>, p0: seq<nat>, rows: seq<Row>, chunk: int)
    ensures Written(o, p0, o, p0, [], 0, rows, 0, chunk)
  {
    assert rows[..0] == [];
  }

  lemma Ends(o: seq<Octet>, p0: seq<nat>, out: seq<Octet>, pieces: seq<nat>, buf: seq<Octet>, count: nat,
      rows: seq<Row>, chunk: int)
    requires Written(o, p0, out, pieces, buf, count, rows, |rows|, chunk)
    ensures out + buf == o + EncodeRows(rows) && o <= out
    ensures pieces + (if buf == [] then [] else [|buf|]) == p0 + Pieces(|rows|, chunk)
  {
    assert rows[..|rows|] == rows;
    LastPiece(p0, pieces, count, |rows|, chunk);
  }

  /** The write after the last row; a buffer without content is not written. */
  method WriteBuffer(w: Response, rows: seq<Row>, buf: seq<Octet>, count: nat, chunk: int,
      ghost o: seq<Octet>, ghost p0: seq<nat>)
    returns (ok: bool)
    requires Written(o, p0, w.out, w.pieces, buf, count, rows, |rows|, chunk)
    modifies w
    ensures w.limited == old(w.limited) && (!w.limited ==> ok)
    ensures ok ==> w.out == o + EncodeRows(rows) && w.pieces == p0 + Pieces(|rows|, chunk)
    ensures o <= w.out <= o + EncodeRows(rows)
  {
    Ends(o, p0, w.out, w.pieces, buf, count, rows, chunk);
    hide EncodeRows;
    hide Written;
    hide Pieces;
    ok := true;
    if buf != [] {
      ok := w.Write(buf);
    }
  }

  /** The row loop and the write after it; an error follows the first `scanOk` rows. */
  method WriteRows(w: Response, rows: seq<Row>, scanOk: nat, chunk: int) returns (ok: bool, groups: map<nat, nat>)
    modifies w
    ensures w.limited == old(w.limited)
    ensures ok ==> |rows| <= scanOk && w.out == old(w.out) + EncodeRows(rows) && groups == Counts(rows)
    ensures ok ==> w.pieces == old(w.pieces) + Pieces(|rows|, chunk)
    ensures !w.limited && |rows| <= scanOk ==> ok
    ensures old(w.out) <= w.out <= old(w.out) + EncodeRows(Scanned(rows, scanOk))
  {
    var buf: seq<Octet> := [];
    groups := map[];
    var count := 0;
    var i := 0;
    ghost var o, p0 := w.out, w.pieces;
    Starts(o, p0, rows, chunk);
    assert |rows| <= scanOk ==> Scanned(rows, scanOk) == rows;
    hide Written;
    hide EncodeRow;
    hide EncodeRows;
    hide Counts;
    hide Scanned;
    while i < |rows|
      invariant 0 <= i <= |rows| && i <= scanOk
      invariant w.limited == old(w.limited)
      invariant o <= w.out <= o + EncodeRows(Scanned(rows, scanOk))
      invariant groups == Counts(rows[..i])
      invariant Written(o, p0, w.out, w.pieces, buf, count, rows, i, chunk)
    {
      if i == scanOk {
        return false, groups;
      }
      ok, buf, count := NextRow(w, rows, scanOk, i, buf, count, chunk, o, p0);
      if !ok {
        return;
      }
      OneMoreRow(rows, i);
      groups := groups[rows[i].nsn := (if rows[i].nsn in groups then groups[rows[i].nsn] else 0) + 1];
      i := i + 1;
    }
    assert rows[..i] == rows;
    ok := WriteBuffer(w, rows, buf, count, chunk, o, p0);
  }

  /** On success the response is the same whatever the chunk size; otherwise what
    * was written is a prefix of it. */
  method WriteHistory(w: Response, rows: seq<Row>, scanOk: nat, chunk: int, json: map<nat, nat> -> seq<Octet>)
    returns (ok: bool)
    modifies w
    ensures ok ==> |rows| <= scanOk && w.out == old(w.out) + Full(rows, json(Counts(rows)))
    ensures ok ==> w.pieces == old(w.pieces) + Pieces(|rows|, chunk) + [|json(Counts(rows))|, 4]
    ensures !old(w.limited) && |rows| <= scanOk ==> ok
    ensures old(w.out) <= w.out <= old(w.out) + Full(rows, json(Counts(rows)))
  {
    ghost var o, meta := w.out, json(Counts(rows));
    var groups;
    ok, groups := WriteRows(w, rows, scanOk, chunk);
    ScannedBelow(rows, scanOk, meta, o);
    if ok {
      ok := WriteTrailer(w, json(groups));
    }
  }

  lemma ScannedBelow(rows: seq<Row>, scanOk: nat, meta: seq<Octet>, o: seq<Octet>)
    ensures o + EncodeRows(Scanned(rows, scanOk)) <= o + Full(rows, meta)
    ensures o + EncodeRows(rows) + Trailer(meta) == o + Full(rows, meta)
  {
    if scanOk < |rows| {
      EncodePrefix(rows, scanOk);
    }
  }

  // ---------------------------------------------------------------- reading it back

  /** Row block and metadata, by the length in the last four bytes. */
  function Locate(out: seq<Octet>): Option<(seq<Octet>, seq<Octet>)> {
    if |out| < 4 then None
    else
      var end := |out| - 4;
      var n := FromLE(out[end..]);
      if n > end then None else Some((out[..end - n], out[end - n..end]))
  }

  lemma LocateParts(block: seq<Octet>, meta: seq<Octet>, tail: seq<Octet>)
    requires |tail| == 4 && FromLE(tail) <= |block + meta|
    ensures Locate(block + (meta + tail)).Some?
    ensures Locate(block + (meta + tail)) == Some((block, meta)) <==> FromLE(tail) == |meta|
  {
    var out := block + (meta + tail);
    assert out[|out| - 4..] == tail;
    if FromLE(tail) == |meta| {
      assert out[|out| - 4 - |meta|..|out| - 4] == meta;
      assert out[..|out| - 4 - |meta|] == block;
    }
  }

  /** Reading the length from the tail finds metadata and rows exactly when the
    * metadata is shorter than 2^32 bytes. */
  lemma TailLocates(rows: seq<Row>, meta: seq<Octet>)
    ensures Locate(Full(rows, meta)) == Some((EncodeRows(rows), meta)) <==> |meta| < UINT32
  {
    Word32(|meta| % UINT32);
    LocateParts(EncodeRows(rows), meta, LE(|meta| % UINT32, 4));
  }

  /** Rows and metadata can be read back from the response, and the counts in the
    * metadata, added up in any order, measure the row block. */
  lemma HistoryRoundTrip(rows: seq<Row>, meta: seq<Octet>, keys: seq<nat>)
    requires |meta| < UINT32 && forall r :: r in rows ==> Encodable(r)
    requires Distinct(keys) && forall k :: k in keys <==> k in Counts(rows)
    ensures Locate(Full(rows, meta)) == Some((EncodeRows(rows), meta))
    ensures |EncodeRows(rows)| == ROW_SIZE * Total(Counts(rows), keys)
    ensures DecodeRows(EncodeRows(rows)) == rows
  {
    hide EncodeRows;
    hide Counts;
    hide DecodeRows;
    hide Total;
    hide Locate;
    hide Full;
    TailLocates(rows, meta);
    CountsMeasureBlock(Counts(rows), rows, keys);
    RowsRoundTrip(rows);
  }
}
