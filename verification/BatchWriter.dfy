/** The write side shared by internal/broker and internal/store/impl/pgstore:
  * records are appended to a write buffer which is published, with a sequence
  * number, when it is full or too old.
  *
  * All of it runs under the write lock, so it is sequential; BrokerPickup and
  * StorePickup model what consumers see of the published batches.
  */
module BatchWriter {

  const UINT64: nat := 0x1_0000_0000_0000_0000

  // -------------------------------------------------------------- specification

  datatype Batch<T> = Batch(seqno: nat, t1: int, t2: int, items: seq<T>)

  datatype Writer<T> = Writer(seqno: nat, t1: int, items: seq<T>, published: seq<Batch<T>>)

  function Empty<T>(): Writer<T> {
    Writer(0, 0, [], [])
  }

  /** Publishes the write buffer and starts the next one. */
  function Flush<T>(w: Writer<T>, now: int): Writer<T> {
    Writer((w.seqno + 1) % UINT64, 0, [], w.published + [Batch(w.seqno, w.t1, now, w.items)])
  }

  function Put<T>(w: Writer<T>, x: T, now: int, bufSize: nat): Writer<T> {
    var t1 := if w.items == [] then now else w.t1;
    var w' := w.(t1 := t1, items := w.items + [x]);
    if |w'.items| == bufSize then Flush(w', now) else w'
  }

  /** A tick delivered with time `t`, handled at time `now`. */
  function Tick<T>(w: Writer<T>, t: int, now: int, maxAge: int): Writer<T> {
    if w.items != [] && t - w.t1 > maxAge then Flush(w, now) else w
  }

  // ----------------------------------------------------------------- the object

  /** A buffer value as it is copied from wbuf to rbuf: the array is shared. */
  datatype Handle<T> = Handle(seqno: nat, t1: int, t2: int, arr: array<T>, len: nat)

  class Batcher<T(0)> {
    const bufSize: nat
    const maxAge: int
    var seqno: nat
    var t1: int
    var arr: array<T>
    var len: nat
    var rbuf: seq<Handle<T>>           // empty until the first flush, then the last batch
    ghost var handles: seq<Handle<T>>  // every buffer ever published
    ghost var model: Writer<T>

    ghost predicate Valid()
      reads this, arr, set h | h in handles :: h.arr
    {
      Held() && len < bufSize
    }

    /** The object mirrors the model; the write buffer may be full. */
    ghost predicate Held()
      reads this, arr, set h | h in handles :: h.arr
    {
      && 1 <= bufSize == arr.Length && len <= bufSize
      && model.seqno == seqno && (len > 0 ==> model.t1 == t1) && model.items == arr[..len]
      && |handles| == |model.published|
      && (forall i :: 0 <= i < |handles| ==>
            && handles[i].arr != arr
            && handles[i].len <= handles[i].arr.Length
            && model.published[i]
               == Batch(handles[i].seqno, handles[i].t1, handles[i].t2, handles[i].arr[..handles[i].len]))
      && rbuf == (if handles == [] then [] else [handles[|handles| - 1]])
    }

    constructor (bufSize: nat, maxAge: int)
      requires bufSize >= 1
      ensures Valid() && model == Empty() && handles == []
      ensures this.bufSize == bufSize && this.maxAge == maxAge && fresh(arr)
    {
      this.bufSize := bufSize;
      this.maxAge := maxAge;
      seqno := 0;
      t1 := 0;
      arr := new T[bufSize];
      len := 0;
      rbuf := [];
      handles := [];
      model := Empty();
    }

    /** Copies wbuf to rbuf and allocates a new array for the next batch. */
    method FlushBuffer(now: int)
      requires Held() && len > 0
      modifies this
      ensures Valid() && model == Flush(old(model), now)
      ensures rbuf == [Handle(old(seqno), old(t1), now, old(arr), old(len))]
      ensures handles == old(handles) + rbuf && fresh(arr)
    {
      model := Flush(model, now);
      rbuf := [Handle(seqno, t1, now, arr, len)];
      handles := handles + rbuf;
      seqno := (seqno + 1) % UINT64;
      t1 := 0;
      len := 0;
      arr := new T[bufSize];
    }

    method Store(x: T, now: int)
      requires Valid()
      modifies this, arr
      ensures Held() && len == old(len) + 1 && arr == old(arr) && handles == old(handles)
      ensures model == old(model).(t1 := if old(model).items == [] then now else old(model).t1,
                                   items := old(model).items + [x])
    {
      model := model.(t1 := if model.items == [] then now else model.t1, items := model.items + [x]);
      if len == 0 {
        t1 := now;
      }
      arr[len] := x;
      len := len + 1;
    }

    /** Broadcast and Put: only the current write array is written. */
    method Append(x: T, now: int)
      requires Valid()
      modifies this, arr
      ensures Valid() && model == Put(old(model), x, now, bufSize)
      ensures old(handles) <= handles
      ensures forall h :: h in old(handles) ==> h.arr[..] == old(h.arr[..])
      ensures arr == old(arr) || fresh(arr)
    {
      Store(x, now);
      assert len == |model.items|;
      if len == bufSize {
        FlushBuffer(now);
      }
    }

    /** One turn of timer_flusher. */
    method TimerTick(t: int, now: int)
      requires Valid()
      modifies this
      ensures Valid() && model == Tick(old(model), t, now, maxAge)
      ensures old(handles) <= handles
      ensures forall h :: h in old(handles) ==> h.arr[..] == old(h.arr[..])
      ensures arr == old(arr) || fresh(arr)
    {
      assert len == |model.items|;
      if len != 0 && t - t1 > maxAge {
        FlushBuffer(now);
      }
    }
  }

  // ------------------------------------------------------------- whole histories

  datatype Op<T> = DoPut(x: T, now: int) | DoTick(t: int, now: int)

  function Apply<T>(w: Writer<T>, op: Op<T>, bufSize: nat, maxAge: int): Writer<T> {
    match op
    case DoPut(x, now) => Put(w, x, now, bufSize)
    case DoTick(t, now) => Tick(w, t, now, maxAge)
  }

  function Run<T>(w: Writer<T>, ops: seq<Op<T>>, bufSize: nat, maxAge: int): Writer<T>
    decreases |ops|
  {
    if ops == [] then w else Run(Apply(w, ops[0], bufSize, maxAge), ops[1..], bufSize, maxAge)
  }

  lemma {:induction false} RunSnoc<T>(w: Writer<T>, ops: seq<Op<T>>, op: Op<T>, bufSize: nat, maxAge: int)
    ensures Run(w, ops + [op], bufSize, maxAge) == Apply(Run(w, ops, bufSize, maxAge), op, bufSize, maxAge)
    decreases |ops|
  {
    if ops == [] {
      assert ops + [op] == [op];
    } else {
      assert (ops + [op])[1..] == ops[1..] + [op];
      RunSnoc(Apply(w, ops[0], bufSize, maxAge), ops[1..], op, bufSize, maxAge);
    }
  }

  /** The records put, in order. */
  function Puts<T>(ops: seq<Op<T>>): seq<T>
    decreases |ops|
  {
    if ops == [] then []
    else (if ops[0].DoPut? then [ops[0].x] else []) + Puts(ops[1..])
  }

  function Contents<T>(batches: seq<Batch<T>>): seq<T> {
    if batches == [] then [] else batches[0].items + Contents(batches[1..])
  }

  /** Everything that went in, published or pending, in order. */
  function AllItems<T>(w: Writer<T>): seq<T> {
    Contents(w.published) + w.items
  }

  ghost predicate Sound<T>(w: Writer<T>, bufSize: nat) {
    && |w.items| < bufSize
    && w.seqno == |w.published| % UINT64
    && (forall i :: 0 <= i < |w.published| ==>
          w.published[i].seqno == i % UINT64 && 0 < |w.published[i].items| <= bufSize)
  }

  lemma {:induction false} ContentsAppend<T>(a: seq<Batch<T>>, b: Batch<T>)
    ensures Contents(a + [b]) == Contents(a) + b.items
    decreases |a|
  {
    if a == [] {
      assert a + [b] == [b];
      assert Contents([b]) == b.items + [];
    } else {
      assert (a + [b])[1..] == a[1..] + [b];
      ContentsAppend(a[1..], b);
    }
  }

  lemma FlushSound<T>(w: Writer<T>, now: int, bufSize: nat)
    requires bufSize >= 1 && 0 < |w.items| <= bufSize
    requires w.seqno == |w.published| % UINT64
    requires forall i :: 0 <= i < |w.published| ==>
      w.published[i].seqno == i % UINT64 && 0 < |w.published[i].items| <= bufSize
    ensures Sound(Flush(w, now), bufSize) && AllItems(Flush(w, now)) == AllItems(w)
  {
    ContentsAppend(w.published, Batch(w.seqno, w.t1, now, w.items));
    ModSucc(|w.published|);
  }

  lemma ModSucc(n: nat)
    ensures (n % UINT64 + 1) % UINT64 == (n + 1) % UINT64
  {
  }

  lemma ApplySound<T>(w: Writer<T>, op: Op<T>, bufSize: nat, maxAge: int)
    requires bufSize >= 1 && Sound(w, bufSize)
    ensures Sound(Apply(w, op, bufSize, maxAge), bufSize)
    ensures AllItems(Apply(w, op, bufSize, maxAge)) == AllItems(w) + Puts([op])
  {
    match op
    case DoPut(x, now) =>
      var w' := w.(t1 := if w.items == [] then now else w.t1, items := w.items + [x]);
      assert AllItems(w') == AllItems(w) + [x];
      if |w'.items| == bufSize {
        FlushSound(w', now, bufSize);
      }
    case DoTick(t, now) =>
      if w.items != [] && t - w.t1 > maxAge {
        FlushSound(w, now, bufSize);
      }
  }

  /** Over every sequence of puts and ticks nothing is lost, duplicated or
    * reordered, and batches are numbered consecutively. */
  lemma {:induction false} RunConserves<T>(w: Writer<T>, ops: seq<Op<T>>, bufSize: nat, maxAge: int)
    requires bufSize >= 1 && Sound(w, bufSize)
    ensures Sound(Run(w, ops, bufSize, maxAge), bufSize)
    ensures AllItems(Run(w, ops, bufSize, maxAge)) == AllItems(w) + Puts(ops)
    decreases |ops|
  {
    if ops != [] {
      ApplySound(w, ops[0], bufSize, maxAge);
      RunConserves(Apply(w, ops[0], bufSize, maxAge), ops[1..], bufSize, maxAge);
      assert Puts([ops[0]]) + Puts(ops[1..]) == Puts(ops);
    }
  }

  /** A buffer was opened by the put of its first record, at its first time. */
  ghost predicate Opened<T(!new)>(items: seq<T>, t1: int, ops: seq<Op<T>>) {
    items != [] ==> DoPut(items[0], t1) in ops
  }

  /** A batch left full, by the put of its last record, or too old, at a tick. */
  ghost predicate Due<T(!new)>(b: Batch<T>, ops: seq<Op<T>>, bufSize: nat, maxAge: int) {
    && b.items != [] && Opened(b.items, b.t1, ops)
    && (|| (|b.items| == bufSize && DoPut(b.items[|b.items| - 1], b.t2) in ops)
        || (exists t: int :: t - b.t1 > maxAge && DoTick(t, b.t2) in ops))
  }

  ghost predicate AllDue<T(!new)>(w: Writer<T>, ops: seq<Op<T>>, bufSize: nat, maxAge: int) {
    && Opened(w.items, w.t1, ops)
    && forall i :: 0 <= i < |w.published| ==> Due(w.published[i], ops, bufSize, maxAge)
  }

  lemma DueLater<T(!new)>(b: Batch<T>, ops: seq<Op<T>>, op: Op<T>, bufSize: nat, maxAge: int)
    requires Due(b, ops, bufSize, maxAge)
    ensures Due(b, ops + [op], bufSize, maxAge)
  {
    assert forall o :: o in ops ==> o in ops + [op];
  }

  lemma ApplyDue<T(!new)>(w: Writer<T>, ops: seq<Op<T>>, op: Op<T>, bufSize: nat, maxAge: int)
    requires AllDue(w, ops, bufSize, maxAge)
    ensures AllDue(Apply(w, op, bufSize, maxAge), ops + [op], bufSize, maxAge)
  {
    var w' := Apply(w, op, bufSize, maxAge);
    assert forall o :: o in ops ==> o in ops + [op];
    assert op in ops + [op];
    forall i | 0 <= i < |w'.published| ensures Due(w'.published[i], ops + [op], bufSize, maxAge) {
      if i < |w.published| {
        DueLater(w.published[i], ops, op, bufSize, maxAge);
      }
    }
  }

  /** Over every history a batch is published only when it is full, by a put, or older
    * than the limit, at a tick. */
  lemma {:induction false} RunDue<T(!new)>(ops: seq<Op<T>>, bufSize: nat, maxAge: int)
    ensures AllDue(Run(Empty<T>(), ops, bufSize, maxAge), ops, bufSize, maxAge)
    decreases |ops|
  {
    if ops != [] {
      var front, op := ops[..|ops| - 1], ops[|ops| - 1];
      RunDue(front, bufSize, maxAge);
      assert ops == front + [op];
      RunSnoc(Empty<T>(), front, op, bufSize, maxAge);
      ApplyDue(Run(Empty<T>(), front, bufSize, maxAge), front, op, bufSize, maxAge);
    }
  }

  /** After a tick nothing in the buffer is older than the limit. */
  lemma TickLeavesYoung<T>(w: Writer<T>, t: int, now: int, bufSize: nat, maxAge: int)
    ensures var w' := Apply(w, DoTick(t, now), bufSize, maxAge);
      w'.items != [] ==> t - w'.t1 <= maxAge
  {
  }

  // ------------------------------------------------- a flush in small steps

  /** Where the thread holding the write lock is.  Both files copy the buffer under
    * the consumers' lock; the broker then announces the batch and releases that
    * lock, the store releases it and then signals. */
  datatype WriterPc =
    | Free
    | Entered(p: nat)             // thread p holds the write lock
    | Flushing(p: nat, now: int)  // in flush, before taking the consumers' lock
    | Exclusive(p: nat, now: int) // holds that lock for writing
    | Copied(p: nat, now: int)    // rbuf = wbuf done
    | Halfway(p: nat, now: int)   // the first of announcing and releasing done
    | Released(p: nat, now: int)  // both done, new buffer not yet allocated
    | Leaving(p: nat)             // about to release the write lock

  /** The body of one put or timer turn by thread p, up to the decision to flush. */
  function Working<T>(w: Writer<T>, p: nat, op: Op<T>, bufSize: nat, maxAge: int): (Writer<T>, WriterPc) {
    match op
    case DoPut(x, now) =>
      var w' := w.(t1 := if w.items == [] then now else w.t1, items := w.items + [x]);
      (w', if |w'.items| == bufSize then Flushing(p, now) else Leaving(p))
    case DoTick(t, now) =>
      (w, if w.items != [] && t - w.t1 > maxAge then Flushing(p, now) else Leaving(p))
  }

  /** The writer once the batch is published and the new buffer allocated. */
  function NextBuffer<T>(w: Writer<T>): Writer<T> {
    Writer((w.seqno + 1) % UINT64, 0, [], w.published)
  }

  /** The writer as if the flush in progress were already complete. */
  function Settled<T>(w: Writer<T>, pc: WriterPc): Writer<T> {
    match pc
    case Flushing(_, now) => Flush(w, now)
    case Exclusive(_, now) => Flush(w, now)
    case Copied(_, _) => NextBuffer(w)
    case Halfway(_, _) => NextBuffer(w)
    case Released(_, _) => NextBuffer(w)
    case _ => w
  }

  /** Completing the flush that one operation starts is that operation. */
  lemma WorkRefines<T>(w: Writer<T>, p: nat, op: Op<T>, bufSize: nat, maxAge: int)
    ensures var (w', pc) := Working(w, p, op, bufSize, maxAge);
      Settled(w', pc) == Apply(w, op, bufSize, maxAge)
  {
  }

  /** The write side of an interleaving, at any point, is the sequential writer run on
    * the operations in the order in which they took the write lock. */
  ghost predicate Refines<T>(w: Writer<T>, pc: WriterPc, log: seq<Op<T>>, bufSize: nat, maxAge: int) {
    Settled(w, pc) == Run(Empty(), log, bufSize, maxAge)
  }

  lemma WorkKeepsRefining<T>(w: Writer<T>, p: nat, op: Op<T>, log: seq<Op<T>>, bufSize: nat, maxAge: int)
    requires Refines(w, Entered(p), log, bufSize, maxAge)
    ensures var (w', pc) := Working(w, p, op, bufSize, maxAge);
      Refines(w', pc, log + [op], bufSize, maxAge)
  {
    WorkRefines(w, p, op, bufSize, maxAge);
    RunSnoc(Empty<T>(), log, op, bufSize, maxAge);
  }

  predicate Numbered<T>(published: seq<Batch<T>>) {
    forall i :: 0 <= i < |published| ==> published[i].seqno == i % 0x1_0000_0000_0000_0000
  }

  /** What refining the sequential writer is good for. */
  lemma RefiningConserves<T(!new)>(w: Writer<T>, pc: WriterPc, log: seq<Op<T>>, bufSize: nat, maxAge: int)
    requires bufSize >= 1 && Refines(w, pc, log, bufSize, maxAge)
    ensures Numbered(w.published) && AllItems(Settled(w, pc)) == Puts(log)
    ensures forall i :: 0 <= i < |w.published| ==> Due(w.published[i], log, bufSize, maxAge)
  {
    RunConserves(Empty<T>(), log, bufSize, maxAge);
    RunDue(log, bufSize, maxAge);
    assert w.published <= Settled(w, pc).published;
    assert Numbered(Settled(w, pc).published);
  }

  /** What the flush in progress still has to publish. */
  function Unpublished<T>(w: Writer<T>, pc: WriterPc): seq<seq<T>> {
    if pc.Flushing? || pc.Exclusive? then [w.items] else []
  }

  function ItemLists<T>(published: seq<Batch<T>>): seq<seq<T>> {
    seq(|published|, i requires 0 <= i < |published| => published[i].items)
  }

  // -------------------------------------------------------------------- ageing

  /** A record with the time it was put. */
  datatype Stamped<T> = Stamped(x: T, at: int)

  /** The operations are in time order from `clock`, every put is stamped with its
    * time, and the ticks are ideal: exactly one every `period`, the next at `next`. */
  ghost predicate Ideal<T>(ops: seq<Op<Stamped<T>>>, clock: int, next: int, period: nat)
    decreases |ops|
  {
    ops == [] ||
    match ops[0]
    case DoPut(x, now) => x.at == now && clock <= now <= next && Ideal(ops[1..], now, next, period)
    case DoTick(t, now) => t == now == next && Ideal(ops[1..], now, next + period, period)
  }

  /** Every published record left within `limit` of its arrival. */
  ghost predicate Timely<T>(w: Writer<Stamped<T>>, limit: int) {
    forall i, k :: 0 <= i < |w.published| && 0 <= k < |w.published[i].items| ==>
      w.published[i].items[k].at <= w.published[i].t2 <= w.published[i].items[k].at + limit
  }

  /** At `clock`, with the last tick one period before `next`. */
  ghost predicate Young<T>(w: Writer<Stamped<T>>, clock: int, next: int, period: nat, maxAge: int) {
    && next - period <= clock <= next
    && (w.items != [] ==> next - period - w.t1 <= maxAge)
    && (forall k :: 0 <= k < |w.items| ==> w.t1 <= w.items[k].at <= clock)
  }

  /** The times after the operations: the clock and the next tick. */
  function Clock<T>(ops: seq<Op<T>>, clock: int): int
    decreases |ops|
  {
    if ops == [] then clock else Clock(ops[1..], ops[0].now)
  }

  lemma ApplyTimely<T>(w: Writer<Stamped<T>>, op: Op<Stamped<T>>, clock: int, next: int, period: nat, bufSize: nat,
      maxAge: int)
    requires bufSize >= 1 && maxAge >= 0
    requires Timely(w, maxAge + period) && Young(w, clock, next, period, maxAge)
    requires Ideal([op], clock, next, period)
    ensures Timely(Apply(w, op, bufSize, maxAge), maxAge + period)
    ensures Young(Apply(w, op, bufSize, maxAge), op.now, if op.DoTick? then next + period else next, period, maxAge)
  {
    match op
    case DoPut(x, now) =>
      var w' := w.(t1 := if w.items == [] then now else w.t1, items := w.items + [x]);
      if w.items != [] {
        assert w.t1 <= w.items[0].at;
      }
      assert Young(w', now, next, period, maxAge);
    case DoTick(t, now) =>
  }

  /** With ideal ticks no record, published or still pending, waits longer than
    * the maximum age plus one tick period. */
  lemma {:induction false} NoRecordWaits<T>(w: Writer<Stamped<T>>, ops: seq<Op<Stamped<T>>>, clock: int, next: int,
      period: nat, bufSize: nat, maxAge: int)
    requires bufSize >= 1 && maxAge >= 0
    requires Timely(w, maxAge + period) && Young(w, clock, next, period, maxAge)
    requires Ideal(ops, clock, next, period)
    ensures Timely(Run(w, ops, bufSize, maxAge), maxAge + period)
    ensures forall r :: r in Run(w, ops, bufSize, maxAge).items ==>
      r.at <= Clock(ops, clock) <= r.at + maxAge + period
    decreases |ops|
  {
    if ops != [] {
      ApplyTimely(w, ops[0], clock, next, period, bufSize, maxAge);
      NoRecordWaits(Apply(w, ops[0], bufSize, maxAge), ops[1..], ops[0].now,
                    if ops[0].DoTick? then next + period else next, period, bufSize, maxAge);
    }
  }
}
