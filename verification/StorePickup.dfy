/** internal/store/impl/pgstore: the write side is that of the broker, but there
  * is one consumer, its condition variable sits on a plain mutex, and flush
  * signals after it has released that mutex.
  *
  * Runs are lists of actions as in BrokerPickup.  The signal can therefore fall
  * after the consumer has already seen the batch it announces.
  */
module StorePickup {
  import opened BatchWriter

  datatype ConsumerPc =
    | Outside    // writing a batch to the database
    | Locked     // holds the mutex, entering Wait
    | Listed     // has joined the notify list, still holds the mutex
    | Parked     // released the mutex inside Wait
    | Relocked   // woken and holding the mutex again
    | HasBatch   // copied rbuf, still holds the mutex

  /** `picks` are the positions of the picked batches among all published ones,
    * `early` tells of each whether its signal was still to come, and `lost` counts
    * the signals that found nobody waiting. */
  datatype Consumer<T> =
    Consumer(pc: ConsumerPc, listed: bool, picked: seq<Batch<T>>, picks: seq<nat>, early: seq<bool>, lost: nat)

  datatype State<T> = State(
    w: Writer<T>, rbuf: seq<Batch<T>>, wpc: WriterPc, k: Consumer<T>, signals: nat, log: seq<Op<T>>)

  datatype Action<T> =
    | Enter(p: nat)
    | Work(p: nat, op: Op<T>)
    | Flusher(p: nat)
    | Consume

  function Init<T>(): State<T> {
    State(Empty(), [], Free, Consumer(Outside, false, [], [], [], 0), 0, [])
  }

  predicate WriterHolds(pc: WriterPc) {
    pc.Exclusive? || pc.Copied?
  }

  predicate ConsumerHolds(pc: ConsumerPc) {
    pc.Locked? || pc.Listed? || pc.Relocked? || pc.HasBatch?
  }

  // -------------------------------------------------------------------- steps

  function ConsumerStep<T>(s: State<T>): State<T> {
    var k := s.k;
    match k.pc
    case Outside => if WriterHolds(s.wpc) then s else s.(k := k.(pc := Locked))
    case Locked => s.(k := k.(pc := Listed, listed := true))
    case Listed => s.(k := k.(pc := Parked))
    case Parked => if k.listed || WriterHolds(s.wpc) then s else s.(k := k.(pc := Relocked))
    case Relocked =>
      // rbuf is never empty here: some signal woke the consumer
      if |s.w.published| == 0 then s
      else s.(k := k.(pc := HasBatch, picked := k.picked + s.rbuf, picks := k.picks + [|s.w.published| - 1],
                      early := k.early + [s.wpc.Halfway?]))
    case HasBatch => s.(k := k.(pc := Outside))
  }

  function SignalStep<T>(s: State<T>): State<T> {
    var k' := if s.k.listed then s.k.(listed := false) else s.k.(lost := s.k.lost + 1);
    s.(k := k', signals := s.signals + 1)
  }

  /** The signal comes after the mutex is released. */
  function FlushStep<T>(s: State<T>): State<T> {
    match s.wpc
    case Flushing(p, now) => if ConsumerHolds(s.k.pc) then s else s.(wpc := Exclusive(p, now))
    case Exclusive(p, now) =>
      var b := Batch(s.w.seqno, s.w.t1, now, s.w.items);
      s.(rbuf := [b], w := s.w.(published := s.w.published + [b]), wpc := Copied(p, now))
    case Copied(p, now) => s.(wpc := Halfway(p, now))
    case Halfway(p, now) => SignalStep(s).(wpc := Released(p, now))
    case Released(p, now) => s.(w := NextBuffer(s.w), wpc := Leaving(p))
    case Leaving(p) => s.(wpc := Free)
    case _ => s
  }

  /** The body of Put or of one timer turn, up to the decision to flush. */
  function DoWork<T>(s: State<T>, p: nat, op: Op<T>, bufSize: nat, maxAge: int): State<T> {
    var (w', pc) := Working(s.w, p, op, bufSize, maxAge);
    s.(w := w', wpc := pc, log := s.log + [op])
  }

  function Next<T>(s: State<T>, a: Action<T>, bufSize: nat, maxAge: int): State<T> {
    match a
    case Enter(p) => if s.wpc.Free? then s.(wpc := Entered(p)) else s
    case Work(p, op) => if s.wpc == Entered(p) then DoWork(s, p, op, bufSize, maxAge) else s
    case Flusher(p) => if !s.wpc.Free? && s.wpc.p == p then FlushStep(s) else s
    case Consume => ConsumerStep(s)
  }

  function Steps<T>(s: State<T>, acts: seq<Action<T>>, bufSize: nat, maxAge: int): State<T>
    decreases |acts|
  {
    if acts == [] then s else Steps(Next(s, acts[0], bufSize, maxAge), acts[1..], bufSize, maxAge)
  }

  // --------------------------------------------------------------- invariants

  /** Woken by a signal and not yet past its read of rbuf.  The signal may even
    * come before the consumer has released the mutex inside Wait. */
  predicate Pending<T>(k: Consumer<T>) {
    ((k.pc.Listed? || k.pc.Parked?) && !k.listed) || k.pc.Relocked?
  }

  predicate Nondecreasing(a: seq<nat>) {
    forall i, j :: 0 <= i < j < |a| ==> a[i] <= a[j]
  }

  predicate NeverThrice(a: seq<nat>) {
    forall i :: 0 <= i < |a| - 2 ==> a[i] < a[i + 2]
  }

  /** How often the list ends in v, counting at most two. */
  function Tail(a: seq<nat>, v: int): nat {
    if |a| == 0 || a[|a| - 1] != v then 0
    else if |a| == 1 || a[|a| - 2] != v then 1
    else 2
  }

  ghost predicate Faithful<T>(picks: seq<nat>, picked: seq<Batch<T>>, published: seq<Batch<T>>) {
    && |picked| == |picks|
    && (forall i :: 0 <= i < |picks| ==> picks[i] < |published| && picked[i] == published[picks[i]])
  }

  function One(b: bool): nat {
    if b then 1 else 0
  }

  ghost predicate Placed<T>(s: State<T>) {
    && (s.k.listed ==> s.k.pc.Listed? || s.k.pc.Parked?)
    && (ConsumerHolds(s.k.pc) ==> !WriterHolds(s.wpc))
  }

  /** A published batch whose signal is still to come. */
  predicate Unannounced(pc: WriterPc) {
    pc.Copied? || pc.Halfway?
  }

  ghost predicate Counted<T>(s: State<T>) {
    && |s.w.published| == s.signals + One(Unannounced(s.wpc))
    && |s.k.picks| + One(Pending(s.k)) + s.k.lost == s.signals
    && Tail(s.k.picks, |s.w.published| - 1) + One(Pending(s.k)) + One(Unannounced(s.wpc)) <= 2
  }

  predicate NoneEarly(early: seq<bool>) {
    forall i :: 0 <= i < |early| ==> !early[i]
  }

  /** A batch is picked up again only after an early pick. */
  predicate RepeatsAfterEarly(picks: seq<nat>, early: seq<bool>) {
    && |early| == |picks|
    && (forall i :: 0 <= i < |picks| - 1 && picks[i] == picks[i + 1] ==> early[i])
  }

  predicate InOrder(picks: seq<nat>) {
    forall i :: 0 <= i < |picks| ==> picks[i] == i
  }

  /** `again` says that a further pick of the current batch is still possible. */
  ghost predicate Timed(picks: seq<nat>, early: seq<bool>, current: int, again: bool) {
    && RepeatsAfterEarly(picks, early)
    && (picks != [] && picks[|picks| - 1] == current && !early[|picks| - 1] ==> !again)
  }

  ghost predicate Inv<T>(s: State<T>) {
    && s.rbuf == (if s.w.published == [] then [] else [s.w.published[|s.w.published| - 1]])
    && Placed(s) && Counted(s)
    && Faithful(s.k.picks, s.k.picked, s.w.published)
    && Nondecreasing(s.k.picks) && NeverThrice(s.k.picks)
  }

  ghost predicate History<T>(s: State<T>) {
    && Timed(s.k.picks, s.k.early, |s.w.published| - 1, Pending(s.k) || Unannounced(s.wpc))
    && (s.k.lost == 0 && NoneEarly(s.k.early) ==> InOrder(s.k.picks))
    && (s.k.pc.HasBatch? ==> s.k.picks != [] && s.k.picks[|s.k.picks| - 1] == |s.w.published| - 1)
  }

  lemma PickSorted(picks: seq<nat>, v: nat)
    requires Nondecreasing(picks) && NeverThrice(picks) && Tail(picks, v) <= 1
    requires forall i :: 0 <= i < |picks| ==> picks[i] <= v
    ensures Nondecreasing(picks + [v]) && NeverThrice(picks + [v])
    ensures Tail(picks + [v], v) == Tail(picks, v) + 1
  {
    var n := |picks|;
    if n >= 2 {
      assert picks[n - 2] <= picks[n - 1];
    }
  }

  lemma PickTimed(picks: seq<nat>, early: seq<bool>, v: nat, e: bool, again: bool)
    requires Timed(picks, early, v, true) && (again ==> e)
    ensures Timed(picks + [v], early + [e], v, again)
  {
    var p, q := picks + [v], early + [e];
    forall i | 0 <= i < |p| - 1 && p[i] == p[i + 1] ensures q[i] {
      if i < |picks| - 1 {
        assert picks[i] == picks[i + 1];
      }
    }
  }

  lemma PickOrdered(picks: seq<nat>, early: seq<bool>, v: nat, e: bool, lost: nat)
    requires lost == 0 && NoneEarly(early) ==> InOrder(picks)
    requires lost == 0 && !e ==> v == |picks|
    ensures lost == 0 && NoneEarly(early + [e]) ==> InOrder(picks + [v])
  {
    if lost == 0 && NoneEarly(early + [e]) {
      assert forall i :: 0 <= i < |early| ==> (early + [e])[i] == early[i];
      assert (early + [e])[|early|] == e;
    }
  }

  lemma PickFaithful<T>(picks: seq<nat>, picked: seq<Batch<T>>, published: seq<Batch<T>>)
    requires Faithful(picks, picked, published) && published != []
    ensures var last := |published| - 1; Faithful(picks + [last], picked + [published[last]], published)
    ensures forall i :: 0 <= i < |picks| ==> picks[i] <= |published| - 1
  {
  }

  lemma PickKeeps<T>(s: State<T>)
    requires Inv(s) && s.k.pc.Relocked?
    ensures Inv(ConsumerStep(s))
  {
    hide Faithful;
    hide Nondecreasing;
    hide NeverThrice;
    assert |s.w.published| > 0;
    PickFaithful(s.k.picks, s.k.picked, s.w.published);
    PickSorted(s.k.picks, |s.w.published| - 1);
  }

  lemma PickHistory<T>(s: State<T>)
    requires Inv(s) && History(s) && s.k.pc.Relocked?
    ensures History(ConsumerStep(s))
  {
    assert |s.w.published| > 0;
    PickTimed(s.k.picks, s.k.early, |s.w.published| - 1, s.wpc.Halfway?, s.wpc.Halfway?);
    PickOrdered(s.k.picks, s.k.early, |s.w.published| - 1, s.wpc.Halfway?, s.k.lost);
  }

  /** Other steps of the consumer and the signal only change who may pick again. */
  lemma TimedLess(picks: seq<nat>, early: seq<bool>, current: int, again: bool, again': bool)
    requires Timed(picks, early, current, again) && (again' ==> again)
    ensures Timed(picks, early, current, again')
  {
  }

  lemma ConsumeHistory<T>(s: State<T>)
    requires Inv(s) && History(s)
    ensures History(ConsumerStep(s))
  {
    if s.k.pc.Relocked? {
      PickHistory(s);
    } else {
      hide Inv;
      hide Timed;
      hide InOrder;
      hide NoneEarly;
    }
  }

  lemma FlushHistory<T>(s: State<T>)
    requires Inv(s) && History(s)
    ensures History(FlushStep(s))
  {
    hide Nondecreasing;
    hide NeverThrice;
    hide InOrder;
    hide NoneEarly;
    hide RepeatsAfterEarly;
    var s' := FlushStep(s);
    if s.wpc.Exclusive? {
      if s.k.picks != [] {
        assert s.k.picks[|s.k.picks| - 1] < |s.w.published|;
      }
    } else {
      var again := Pending(s.k) || Unannounced(s.wpc);
      TimedLess(s.k.picks, s.k.early, |s.w.published| - 1, again, Pending(s'.k) || Unannounced(s'.wpc));
    }
  }

  lemma NextHistory<T>(s: State<T>, a: Action<T>, bufSize: nat, maxAge: int)
    requires Inv(s) && History(s)
    ensures History(Next(s, a, bufSize, maxAge))
  {
    hide Timed;
    match a
    case Flusher(_) => FlushHistory(s);
    case Consume => ConsumeHistory(s);
    case _ =>
  }

  lemma ConsumeKeeps<T>(s: State<T>)
    requires Inv(s)
    ensures Inv(ConsumerStep(s))
  {
    hide Faithful;
    hide Nondecreasing;
    hide NeverThrice;
    if s.k.pc.Relocked? {
      PickKeeps(s);
    }
  }

  lemma PublishFaithful<T>(picks: seq<nat>, picked: seq<Batch<T>>, published: seq<Batch<T>>, b: Batch<T>)
    requires Faithful(picks, picked, published)
    ensures Faithful(picks, picked, published + [b])
    ensures Tail(picks, |published|) == 0
  {
    if picks != [] {
      assert picks[|picks| - 1] < |published|;
    }
  }

  lemma PublishKeeps<T>(s: State<T>)
    requires Inv(s) && s.wpc.Exclusive?
    ensures Inv(FlushStep(s))
  {
    PublishFaithful(s.k.picks, s.k.picked, s.w.published, Batch(s.w.seqno, s.w.t1, s.wpc.now, s.w.items));
  }

  lemma SignalKeeps<T>(s: State<T>)
    requires Inv(s) && s.wpc.Halfway?
    ensures Inv(FlushStep(s))
  {
  }

  lemma FlushKeeps<T>(s: State<T>)
    requires Inv(s)
    ensures Inv(FlushStep(s))
  {
    hide Faithful;
    hide Nondecreasing;
    hide NeverThrice;
    if s.wpc.Exclusive? {
      PublishKeeps(s);
    } else if s.wpc.Halfway? {
      SignalKeeps(s);
    }
  }

  lemma WorkKeeps<T>(s: State<T>, p: nat, op: Op<T>, bufSize: nat, maxAge: int)
    requires Inv(s) && s.wpc == Entered(p)
    ensures Inv(DoWork(s, p, op, bufSize, maxAge))
  {
  }

  lemma NextKeeps<T>(s: State<T>, a: Action<T>, bufSize: nat, maxAge: int)
    requires Inv(s)
    ensures Inv(Next(s, a, bufSize, maxAge))
  {
    match a
    case Enter(_) =>
    case Work(p, op) =>
      if s.wpc == Entered(p) {
        WorkKeeps(s, p, op, bufSize, maxAge);
      }
    case Flusher(_) => FlushKeeps(s);
    case Consume => ConsumeKeeps(s);
  }

  lemma NextRefines<T>(s: State<T>, a: Action<T>, bufSize: nat, maxAge: int)
    requires Refines(s.w, s.wpc, s.log, bufSize, maxAge)
    ensures var s' := Next(s, a, bufSize, maxAge); Refines(s'.w, s'.wpc, s'.log, bufSize, maxAge)
  {
    if a.Work? && s.wpc == Entered(a.p) {
      WorkKeepsRefining(s.w, a.p, a.op, s.log, bufSize, maxAge);
    }
  }

  /** The invariants of the write side, of the consumer and of its history over every
    * interleaving. */
  lemma {:induction false} StepsKeep<T>(s: State<T>, acts: seq<Action<T>>, bufSize: nat, maxAge: int)
    requires Inv(s) && History(s) && Refines(s.w, s.wpc, s.log, bufSize, maxAge)
    ensures var s' := Steps(s, acts, bufSize, maxAge);
      Inv(s') && History(s') && Refines(s'.w, s'.wpc, s'.log, bufSize, maxAge)
    decreases |acts|
  {
    hide Inv;
    hide History;
    hide Refines;
    if acts != [] {
      NextKeeps(s, acts[0], bufSize, maxAge);
      NextHistory(s, acts[0], bufSize, maxAge);
      NextRefines(s, acts[0], bufSize, maxAge);
      StepsKeep(Next(s, acts[0], bufSize, maxAge), acts[1..], bufSize, maxAge);
    }
  }

  // ------------------------------------------------------------------ theorems

  lemma AbsentAbove(a: seq<nat>, v: nat)
    requires forall i :: 0 <= i < |a| ==> a[i] < v
    ensures multiset(a)[v] == 0
  {
  }

  lemma CountLast(a: seq<nat>, v: nat)
    requires a != []
    ensures multiset(a)[v] == multiset(a[..|a| - 1])[v] + One(a[|a| - 1] == v)
  {
    assert a == a[..|a| - 1] + [a[|a| - 1]];
  }

  lemma {:induction false} AtMostTwice(a: seq<nat>, v: nat)
    requires Nondecreasing(a) && NeverThrice(a)
    ensures multiset(a)[v] <= 2
    decreases |a|
  {
    var n := |a|;
    if n >= 2 && a[n - 1] == v {
      CountLast(a, v);
      CountLast(a[..n - 1], v);
      var base := a[..n - 1][..n - 2];
      forall i | 0 <= i < |base| ensures base[i] < v {
        assert a[i] <= a[n - 3];
      }
      AbsentAbove(base, v);
    } else if n >= 1 {
      CountLast(a, v);
      AtMostTwice(a[..n - 1], v);
    }
  }

  /** Pick-up over every interleaving: the sequence numbers never go back, every
    * batch picked up is one that was published and is picked up at most twice,
    * and every signal is picked up, pending or lost, so that pick-ups never
    * outnumber flushes.  A batch is repeated only after a pick that came before its
    * signal, and without such picks and lost signals none is skipped either. */
  lemma StorePickups<T>(acts: seq<Action<T>>, bufSize: nat, maxAge: int)
    ensures
      var s := Steps(Init<T>(), acts, bufSize, maxAge);
      && Nondecreasing(s.k.picks)
      && Faithful(s.k.picks, s.k.picked, s.w.published)
      && (forall v: nat :: multiset(s.k.picks)[v] <= 2)
      && |s.k.picks| + One(Pending(s.k)) + s.k.lost == s.signals <= |s.w.published|
      && RepeatsAfterEarly(s.k.picks, s.k.early)
      && (s.k.lost == 0 && NoneEarly(s.k.early) ==> InOrder(s.k.picks))
  {
    var s := Steps(Init<T>(), acts, bufSize, maxAge);
    StepsKeep(Init<T>(), acts, bufSize, maxAge);
    forall v: nat ensures multiset(s.k.picks)[v] <= 2 {
      AtMostTwice(s.k.picks, v);
    }
  }

  /** Publishing through any interleaving numbers the batches consecutively, nothing
    * put is lost, duplicated or reordered, and no batch leaves before it is full or
    * too old. */
  lemma PublishedNumbered<T(!new)>(acts: seq<Action<T>>, bufSize: nat, maxAge: int)
    requires bufSize >= 1
    ensures var s := Steps(Init<T>(), acts, bufSize, maxAge);
      
        && Numbered(s.w.published) && AllItems(Settled(s.w, s.wpc)) == Puts(s.log)
        && forall i :: 0 <= i < |s.w.published| ==> Due(s.w.published[i], s.log, bufSize, maxAge)
  {
    StepsKeep(Init<T>(), acts, bufSize, maxAge);
    var s := Steps(Init<T>(), acts, bufSize, maxAge);
    RefiningConserves(s.w, s.wpc, s.log, bufSize, maxAge);
  }

  // ------------------------------------------------------- the bound is reached

  ghost predicate Reached<T>(s: State<T>, acts: seq<Action<T>>, bufSize: nat, maxAge: int) {
    s == Steps(Init(), acts, bufSize, maxAge)
  }

  lemma {:induction false} StepsSnoc<T>(s: State<T>, acts: seq<Action<T>>, a: Action<T>, bufSize: nat, maxAge: int)
    ensures Steps(s, acts + [a], bufSize, maxAge) == Next(Steps(s, acts, bufSize, maxAge), a, bufSize, maxAge)
    decreases |acts|
  {
    if acts == [] {
      assert acts + [a] == [a];
    } else {
      assert (acts + [a])[1..] == acts[1..] + [a];
      StepsSnoc(Next(s, acts[0], bufSize, maxAge), acts[1..], a, bufSize, maxAge);
    }
  }

  lemma {:induction false} StepsThen<T>(s: State<T>, acts: seq<Action<T>>, more: seq<Action<T>>, bufSize: nat,
      maxAge: int)
    ensures Steps(s, acts + more, bufSize, maxAge) == Steps(Steps(s, acts, bufSize, maxAge), more, bufSize, maxAge)
    decreases |acts|
  {
    if acts == [] {
      assert acts + more == more;
    } else {
      assert (acts + more)[1..] == acts[1..] + more;
      StepsThen(Next(s, acts[0], bufSize, maxAge), acts[1..], more, bufSize, maxAge);
    }
  }

  lemma Then<T>(s: State<T>, acts: seq<Action<T>>, a: Action<T>, bufSize: nat, maxAge: int)
      returns (s': State<T>, acts': seq<Action<T>>)
    requires Reached(s, acts, bufSize, maxAge)
    ensures Reached(s', acts', bufSize, maxAge) && s' == Next(s, a, bufSize, maxAge)
  {
    StepsSnoc(Init(), acts, a, bufSize, maxAge);
    s', acts' := Next(s, a, bufSize, maxAge), acts + [a];
  }

  /** One put that fills the buffer, up to the point where the mutex is free but
    * the signal has not been sent. */
  lemma PutUnsignalled<T>(s: State<T>, acts: seq<Action<T>>, x: T, maxAge: int)
    returns (s': State<T>, acts': seq<Action<T>>)
    requires Reached(s, acts, 1, maxAge)
    requires s.wpc == Free && !ConsumerHolds(s.k.pc) && s.w.items == []
    ensures Reached(s', acts', 1, maxAge)
    ensures s'.wpc == Halfway(0, 0) && s'.k == s.k && |s'.w.published| == |s.w.published| + 1
  {
    s', acts' := Then(s, acts, Enter(0), 1, maxAge);
    s', acts' := Then(s', acts', Work(0, DoPut(x, 0)), 1, maxAge);
    assert s'.wpc == Flushing(0, 0) && s'.k == s.k && s'.w.published == s.w.published;
    s', acts' := Then(s', acts', Flusher(0), 1, maxAge);
    s', acts' := Then(s', acts', Flusher(0), 1, maxAge);
    s', acts' := Then(s', acts', Flusher(0), 1, maxAge);
  }

  /** The same put up to its end. */
  lemma PutDone<T>(s: State<T>, acts: seq<Action<T>>, x: T, maxAge: int) returns (s': State<T>, acts': seq<Action<T>>)
    requires Reached(s, acts, 1, maxAge)
    requires s.wpc == Free && !ConsumerHolds(s.k.pc) && s.w.items == []
    ensures Reached(s', acts', 1, maxAge)
    ensures s'.wpc == Free && s'.w.items == [] && |s'.w.published| == |s.w.published| + 1
    ensures s'.k == if s.k.listed then s.k.(listed := false) else s.k.(lost := s.k.lost + 1)
  {
    s', acts' := PutUnsignalled(s, acts, x, maxAge);
    s', acts' := Then(s', acts', Flusher(0), 1, maxAge);
    s', acts' := Then(s', acts', Flusher(0), 1, maxAge);
    s', acts' := Then(s', acts', Flusher(0), 1, maxAge);
  }

  /** The consumer picks up the batch it was woken for and waits again. */
  lemma PickAndPark<T>(s: State<T>, acts: seq<Action<T>>, maxAge: int) returns (s': State<T>, acts': seq<Action<T>>)
    requires Reached(s, acts, 1, maxAge)
    requires s.k.pc.Parked? && !s.k.listed && !WriterHolds(s.wpc) && s.w.published != []
    ensures Reached(s', acts', 1, maxAge)
    ensures s'.k.pc.Parked? && s'.k.listed && s'.wpc == s.wpc && s'.w == s.w
    ensures s'.k.picks == s.k.picks + [|s.w.published| - 1]
  {
    s', acts' := Then(s, acts, Consume, 1, maxAge);
    s', acts' := Then(s', acts', Consume, 1, maxAge);
    s', acts' := Then(s', acts', Consume, 1, maxAge);
    s', acts' := Then(s', acts', Consume, 1, maxAge);
    s', acts' := Then(s', acts', Consume, 1, maxAge);
    s', acts' := Then(s', acts', Consume, 1, maxAge);
  }

  /** A signal sent after the mutex is released can announce a batch the consumer
    * already has: here the second batch is picked up twice and the first never,
    * so the bound of two in StorePickups cannot be lowered. */
  lemma BatchPickedTwice<T>(x: T, maxAge: int)
    ensures exists acts :: Steps(Init<T>(), acts, 1, maxAge).k.picks == [1, 1]
  {
    var s: State<T>, acts: seq<Action<T>> := Init(), [];
    s, acts := Then(s, acts, Consume, 1, maxAge);
    s, acts := Then(s, acts, Consume, 1, maxAge);
    s, acts := Then(s, acts, Consume, 1, maxAge);
    s, acts := PutDone(s, acts, x, maxAge);
    s, acts := PutUnsignalled(s, acts, x, maxAge);
    s, acts := PickAndPark(s, acts, maxAge);
    s, acts := Then(s, acts, Flusher(0), 1, maxAge);
    s, acts := PickAndPark(s, acts, maxAge);
    assert s.k.picks == [1, 1];
  }

  /** The converse of RepeatsAfterEarly: from every reachable state just after an
    * early pick the run can go on to pick the same batch again. */
  lemma EarlyRepeats<T>(acts: seq<Action<T>>, bufSize: nat, maxAge: int) returns (more: seq<Action<T>>)
    requires var s := Steps(Init<T>(), acts, bufSize, maxAge); s.k.pc.HasBatch? && s.wpc.Halfway?
    ensures
      var k := Steps(Init<T>(), acts, bufSize, maxAge).k;
      && k.picks != []
      && Steps(Steps(Init<T>(), acts, bufSize, maxAge), more, bufSize, maxAge).k.picks
           == k.picks + [k.picks[|k.picks| - 1]]
  {
    var s := Steps(Init<T>(), acts, bufSize, maxAge);
    StepsKeep(Init<T>(), acts, bufSize, maxAge);
    assert s.k.picks != [] && s.k.picks[|s.k.picks| - 1] == |s.w.published| - 1;
    hide Inv;
    hide History;
    more := [Consume, Consume, Consume, Consume, Flusher(s.wpc.p), Consume, Consume];
    SevenSteps(s, bufSize, maxAge);
  }

  lemma SevenSteps<T>(s: State<T>, bufSize: nat, maxAge: int)
    requires s.k.pc.HasBatch? && s.wpc.Halfway? && s.w.published != []
    ensures
      var more := [Consume, Consume, Consume, Consume, Flusher(s.wpc.p), Consume, Consume];
      Steps(s, more, bufSize, maxAge).k.picks == s.k.picks + [|s.w.published| - 1]
  {
    var waits := s.(k := s.k.(pc := Parked, listed := true));
    var woken := waits.(k := waits.k.(listed := false), signals := s.signals + 1, wpc := Released(s.wpc.p, s.wpc.now));
    var f := Flusher(s.wpc.p);
    assert Steps(s, [Consume, Consume, Consume, Consume], bufSize, maxAge) == waits;
    assert Next(waits, f, bufSize, maxAge) == woken;
    assert [f, Consume, Consume][1..] == [Consume, Consume];
    assert [Consume, Consume, Consume, Consume] + [f, Consume, Consume]
        == [Consume, Consume, Consume, Consume, f, Consume, Consume];
    StepsThen(s, [Consume, Consume, Consume, Consume], [f, Consume, Consume], bufSize, maxAge);
  }

  // ------------------------------------------------------------------- delivery

  predicate Signals<T>(s: State<T>, a: Action<T>) {
    a.Flusher? && s.wpc.Halfway? && s.wpc.p == a.p
  }

  /** The consumer was back in Wait at every signal, and picked nothing up between a
    * release of the mutex and the signal that belongs to it. */
  ghost predicate Timely<T>(s: State<T>, acts: seq<Action<T>>, bufSize: nat, maxAge: int)
    decreases |acts|
  {
    acts == []
    || (&& (Signals(s, acts[0]) ==> s.k.listed)
        && (acts[0].Consume? && s.k.pc.Relocked? ==> !s.wpc.Halfway?)
        && Timely(Next(s, acts[0], bufSize, maxAge), acts[1..], bufSize, maxAge))
  }

  predicate OnTime<T>(s: State<T>) {
    s.k.lost == 0 && NoneEarly(s.k.early)
  }

  lemma NextOnTime<T>(s: State<T>, a: Action<T>, bufSize: nat, maxAge: int)
    requires OnTime(s) && (Signals(s, a) ==> s.k.listed)
    requires a.Consume? && s.k.pc.Relocked? ==> !s.wpc.Halfway?
    ensures OnTime(Next(s, a, bufSize, maxAge))
  {
  }

  lemma {:induction false} StepsOnTime<T>(s: State<T>, acts: seq<Action<T>>, bufSize: nat, maxAge: int)
    requires OnTime(s) && Timely(s, acts, bufSize, maxAge)
    ensures OnTime(Steps(s, acts, bufSize, maxAge))
    decreases |acts|
  {
    hide OnTime;
    hide Next;
    if acts != [] {
      NextOnTime(s, acts[0], bufSize, maxAge);
      StepsOnTime(Next(s, acts[0], bufSize, maxAge), acts[1..], bufSize, maxAge);
    }
  }

  /** Then it picks up every batch, in order, up to the one it has been woken for. */
  lemma TimelyPicksAll<T>(acts: seq<Action<T>>, bufSize: nat, maxAge: int)
    requires Timely(Init<T>(), acts, bufSize, maxAge)
    ensures
      var s := Steps(Init<T>(), acts, bufSize, maxAge);
      && InOrder(s.k.picks)
      && |s.k.picks| + One(Pending(s.k)) == |s.w.published| - One(Unannounced(s.wpc))
  {
    StepsOnTime(Init<T>(), acts, bufSize, maxAge);
    StepsKeep(Init<T>(), acts, bufSize, maxAge);
  }

  lemma StepsFirst<T>(s: State<T>, a: Action<T>, more: seq<Action<T>>, bufSize: nat, maxAge: int)
    ensures Steps(s, [a] + more, bufSize, maxAge) == Steps(Next(s, a, bufSize, maxAge), more, bufSize, maxAge)
  {
    assert ([a] + more)[1..] == more;
  }

  /** How far a woken consumer is from its pick. */
  function WokenRank(pc: ConsumerPc, wpc: WriterPc): nat {
    (match pc case Listed => 3 case Parked => 2 case Relocked => 1 case _ => 0)
    + match wpc case Exclusive(_, _) => 2 case Copied(_, _) => 1 case _ => 0
  }

  /** The step that brings a woken consumer closer to its pick. */
  function Urge<T>(s: State<T>): Action<T> {
    if WriterHolds(s.wpc) then Flusher(s.wpc.p) else Consume
  }

  lemma UrgeMoves<T>(s: State<T>, bufSize: nat, maxAge: int)
    requires Inv(s) && Pending(s.k)
    ensures
      var s' := Next(s, Urge(s), bufSize, maxAge);
      if s.k.pc.Relocked? then
        && s.w.published != [] && s'.w == s.w && s'.k.pc.HasBatch?
        && s'.k.picks == s.k.picks + [|s.w.published| - 1]
        && s'.k.picked == s.k.picked + [s.w.published[|s.w.published| - 1]]
      else
        && WokenRank(s'.k.pc, s'.wpc) < WokenRank(s.k.pc, s.wpc) && Pending(s'.k)
        && s'.k.picks == s.k.picks && s'.k.picked == s.k.picked
  {
    hide Faithful;
  }

  /** From every state that some run reaches, a consumer that has been woken can go on to
    * pick up the latest batch. */
  lemma {:induction false} PendingPicks<T>(s: State<T>, bufSize: nat, maxAge: int) returns (more: seq<Action<T>>)
    requires Inv(s) && Pending(s.k)
    ensures
      var t := Steps(s, more, bufSize, maxAge);
      && t.w.published != [] && t.k.picks == s.k.picks + [|t.w.published| - 1]
      && t.k.picked == s.k.picked + [t.w.published[|t.w.published| - 1]]
    decreases WokenRank(s.k.pc, s.wpc)
  {
    UrgeMoves(s, bufSize, maxAge);
    NextKeeps(s, Urge(s), bufSize, maxAge);
    hide Inv;
    hide Next;
    more := [];
    if !s.k.pc.Relocked? {
      more := PendingPicks(Next(s, Urge(s), bufSize, maxAge), bufSize, maxAge);
    }
    StepsFirst(s, Urge(s), more, bufSize, maxAge);
    more := [Urge(s)] + more;
  }

  /** A signal wakes a waiting consumer, and it can then pick up what was signalled. */
  lemma SignalDelivers<T>(acts: seq<Action<T>>, a: Action<T>, bufSize: nat, maxAge: int)
    returns (more: seq<Action<T>>)
    requires var s := Steps(Init<T>(), acts, bufSize, maxAge); s.k.listed && Signals(s, a)
    ensures
      var s := Steps(Init<T>(), acts, bufSize, maxAge);
      var t := Steps(Next(s, a, bufSize, maxAge), more, bufSize, maxAge);
      && t.w.published != [] && t.k.picks == s.k.picks + [|t.w.published| - 1]
      && t.k.picked == s.k.picked + [t.w.published[|t.w.published| - 1]]
  {
    var s := Steps(Init<T>(), acts, bufSize, maxAge);
    StepsKeep(Init<T>(), acts, bufSize, maxAge);
    NextKeeps(s, a, bufSize, maxAge);
    more := PendingPicks(Next(s, a, bufSize, maxAge), bufSize, maxAge);
  }

  // ------------------------------------------------------- every flush can finish

  /** How far a flush is from its end, waiting for the consumer included. */
  function FlushRank(pc: WriterPc, k: ConsumerPc): nat {
    (match pc
     case Flushing(_, _) => 6
     case Exclusive(_, _) => 5
     case Copied(_, _) => 4
     case Halfway(_, _) => 3
     case Released(_, _) => 2
     case Leaving(_) => 1
     case _ => 0) * 3
    + match k case Locked => 2 case Listed => 1 case Relocked => 2 case HasBatch => 1 case _ => 0
  }

  predicate InFlush(pc: WriterPc) {
    !pc.Free? && !pc.Entered?
  }

  function Push<T>(s: State<T>): Action<T>
    requires InFlush(s.wpc)
  {
    if s.wpc.Flushing? && ConsumerHolds(s.k.pc) then Consume else Flusher(s.wpc.p)
  }

  lemma PushPublishes<T>(s: State<T>, bufSize: nat, maxAge: int)
    requires InFlush(s.wpc)
    ensures var s' := Next(s, Push(s), bufSize, maxAge);
      ItemLists(s'.w.published) + Unpublished(s'.w, s'.wpc) == ItemLists(s.w.published) + Unpublished(s.w, s.wpc)
  {
  }

  lemma PushMoves<T>(s: State<T>, bufSize: nat, maxAge: int)
    requires Inv(s) && InFlush(s.wpc)
    ensures
      var s' := Next(s, Push(s), bufSize, maxAge);
      FlushRank(s'.wpc, s'.k.pc) < FlushRank(s.wpc, s.k.pc) && (InFlush(s'.wpc) || s'.wpc.Free?)
  {
    assert s.k.pc.Relocked? ==> |s.w.published| > 0;
    hide Inv;
  }

  lemma {:induction false} FlushGoesOn<T>(s: State<T>, bufSize: nat, maxAge: int) returns (more: seq<Action<T>>)
    requires Inv(s) && InFlush(s.wpc)
    ensures
      var t := Steps(s, more, bufSize, maxAge);
      t.wpc.Free? && ItemLists(t.w.published) == ItemLists(s.w.published) + Unpublished(s.w, s.wpc)
    decreases FlushRank(s.wpc, s.k.pc)
  {
    PushMoves(s, bufSize, maxAge);
    PushPublishes(s, bufSize, maxAge);
    NextKeeps(s, Push(s), bufSize, maxAge);
    hide Inv;
    hide Next;
    hide ItemLists;
    var s' := Next(s, Push(s), bufSize, maxAge);
    more := [];
    if !s'.wpc.Free? {
      more := FlushGoesOn(s', bufSize, maxAge);
    }
    StepsFirst(s, Push(s), more, bufSize, maxAge);
    more := [Push(s)] + more;
  }

  /** From every state that some run reaches in the middle of a flush, whatever the
    * consumer is doing, the run can go on to the end of it, with exactly the records of
    * the write buffer published as the next batch. */
  lemma FlushCompletes<T>(acts: seq<Action<T>>, bufSize: nat, maxAge: int) returns (more: seq<Action<T>>)
    requires InFlush(Steps(Init<T>(), acts, bufSize, maxAge).wpc)
    ensures
      var s := Steps(Init<T>(), acts, bufSize, maxAge);
      var t := Steps(s, more, bufSize, maxAge);
      t.wpc.Free? && ItemLists(t.w.published) == ItemLists(s.w.published) + Unpublished(s.w, s.wpc)
  {
    StepsKeep(Init<T>(), acts, bufSize, maxAge);
    more := FlushGoesOn(Steps(Init<T>(), acts, bufSize, maxAge), bufSize, maxAge);
  }
}
