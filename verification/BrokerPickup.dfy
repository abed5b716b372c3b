/** internal/broker: producers and the timer flush under the write lock, and any
  * number of connections wait on a condition variable whose lock is the read
  * side of an RWMutex.
  *
  * A run is any list of actions; an action that is not enabled leaves the state
  * alone, so the lists are exactly the interleavings.  sync.Cond keeps a notify
  * list: Wait joins it before it releases the lock, Broadcast empties it, and a
  * waiter resumes only when it is no longer listed.  Readers waiting behind a
  * pending writer are not distinguished from running ones, which only adds
  * interleavings.
  */
module BrokerPickup {
  import opened BatchWriter

  datatype ConnPc =
    | Outside    // accepted, or writing a batch to the network
    | Locked     // holds the read lock, entering Wait
    | Listed     // has joined the notify list, still holds the read lock
    | Parked     // released the lock inside Wait
    | Relocked   // woken and holding the read lock again
    | HasBatch   // copied rbuf, still holds the read lock
    | Gone       // write error

  /** `picks` are the positions of the picked batches among all published ones,
    * `base` the broadcasts made before the connection was accepted and `missed`
    * those made since that did not find it in the notify list. */
  datatype Conn<T> = Conn(pc: ConnPc, picked: seq<Batch<T>>, picks: seq<nat>, base: nat, missed: nat)

  datatype State<T> = State(
    w: Writer<T>, rbuf: seq<Batch<T>>, wpc: WriterPc,
    conns: map<nat, Conn<T>>, list: set<nat>, announced: nat, log: seq<Op<T>>)

  datatype Action<T> =
    | Enter(p: nat)
    | Work(p: nat, op: Op<T>)
    | Flusher(p: nat)
    | Accept(c: nat)
    | Advance(c: nat)
    | Fail(c: nat)

  function Init<T>(): State<T> {
    State(Empty(), [], Free, map[], {}, 0, [])
  }

  predicate Reading(pc: ConnPc) {
    pc.Locked? || pc.Listed? || pc.Relocked? || pc.HasBatch?
  }

  predicate Writing(pc: WriterPc) {
    pc.Exclusive? || pc.Copied? || pc.Halfway?
  }

  ghost predicate NoReaders<T>(s: State<T>) {
    forall c :: c in s.conns ==> !Reading(s.conns[c].pc)
  }

  // -------------------------------------------------------------------- steps

  function SetConn<T>(s: State<T>, c: nat, conn: Conn<T>): State<T> {
    s.(conns := s.conns[c := conn])
  }

  function AdvanceConn<T>(s: State<T>, c: nat): State<T>
    requires c in s.conns
  {
    var conn := s.conns[c];
    match conn.pc
    case Outside => if Writing(s.wpc) then s else SetConn(s, c, conn.(pc := Locked))
    case Locked => SetConn(s, c, conn.(pc := Listed)).(list := s.list + {c})
    case Listed => SetConn(s, c, conn.(pc := Parked))
    case Parked => if c in s.list || Writing(s.wpc) then s else SetConn(s, c, conn.(pc := Relocked))
    case Relocked =>
      // rbuf is never empty here: some broadcast woke the connection
      if |s.w.published| == 0 then s
      else
        var last := |s.w.published| - 1;
        SetConn(s, c, conn.(pc := HasBatch, picked := conn.picked + s.rbuf, picks := conn.picks + [last]))
    case HasBatch => SetConn(s, c, conn.(pc := Outside))
    case Gone => s
  }

  /** A broadcast wakes exactly the listed connections. */
  function Heard<T>(s: State<T>): map<nat, Conn<T>> {
    map c | c in s.conns :: if c in s.list then s.conns[c] else s.conns[c].(missed := s.conns[c].missed + 1)
  }

  /** The broadcast comes before the lock is released. */
  ghost function FlushStep<T>(s: State<T>): State<T> {
    match s.wpc
    case Flushing(p, now) => if NoReaders(s) then s.(wpc := Exclusive(p, now)) else s
    case Exclusive(p, now) =>
      var b := Batch(s.w.seqno, s.w.t1, now, s.w.items);
      s.(rbuf := [b], w := s.w.(published := s.w.published + [b]), wpc := Copied(p, now))
    case Copied(p, now) => s.(conns := Heard(s), list := {}, announced := s.announced + 1, wpc := Halfway(p, now))
    case Halfway(p, now) => s.(wpc := Released(p, now))
    case Released(p, now) => s.(w := NextBuffer(s.w), wpc := Leaving(p))
    case Leaving(p) => s.(wpc := Free)
    case _ => s
  }

  /** The body of Broadcast or of one timer turn, up to the decision to flush. */
  function DoWork<T>(s: State<T>, p: nat, op: Op<T>, bufSize: nat, maxAge: int): State<T> {
    var (w', pc) := Working(s.w, p, op, bufSize, maxAge);
    s.(w := w', wpc := pc, log := s.log + [op])
  }

  ghost function Next<T>(s: State<T>, a: Action<T>, bufSize: nat, maxAge: int): State<T> {
    match a
    case Enter(p) => if s.wpc.Free? then s.(wpc := Entered(p)) else s
    case Work(p, op) => if s.wpc == Entered(p) then DoWork(s, p, op, bufSize, maxAge) else s
    case Flusher(p) => if !s.wpc.Free? && s.wpc.p == p then FlushStep(s) else s
    case Accept(c) => if c in s.conns then s else SetConn(s, c, Conn(Outside, [], [], s.announced, 0))
    case Advance(c) => if c in s.conns then AdvanceConn(s, c) else s
    case Fail(c) => if c in s.conns && s.conns[c].pc.Outside? then SetConn(s, c, s.conns[c].(pc := Gone)) else s
  }

  ghost function Steps<T>(s: State<T>, acts: seq<Action<T>>, bufSize: nat, maxAge: int): State<T>
    decreases |acts|
  {
    if acts == [] then s else Steps(Next(s, acts[0], bufSize, maxAge), acts[1..], bufSize, maxAge)
  }

  // --------------------------------------------------------------- invariants

  /** Woken by a broadcast whose batch it has not read yet. */
  predicate Pending(pc: ConnPc, listed: bool) {
    (pc.Parked? && !listed) || pc.Relocked?
  }

  /** Batches published up to the last pick, or broadcast before acceptance. */
  function Floor(picks: seq<nat>, base: nat): nat {
    if picks == [] then base else picks[|picks| - 1] + 1
  }

  predicate Increasing(a: seq<nat>) {
    forall i, j :: 0 <= i < j < |a| ==> a[i] < a[j]
  }

  /** What was picked up: in increasing order, each batch exactly as published. */
  ghost predicate Faithful<T>(picks: seq<nat>, picked: seq<Batch<T>>, published: seq<Batch<T>>) {
    && |picked| == |picks|
    && Increasing(picks)
    && (forall i :: 0 <= i < |picks| ==> picks[i] < |published| && picked[i] == published[picks[i]])
  }

  predicate Consecutive(picks: seq<nat>, base: nat) {
    forall i :: 0 <= i < |picks| ==> picks[i] == base + i
  }

  /** The account of one connection: every broadcast since acceptance was picked
    * up, is about to be, or was missed; without misses nothing is skipped. */
  ghost predicate Accounted<T>(conn: Conn<T>, pending: bool, announced: nat) {
    && Floor(conn.picks, conn.base) + (if pending then 1 else 0) <= announced
    && conn.base + |conn.picks| + (if pending then 1 else 0) + conn.missed == announced
    && (conn.missed == 0 ==> Consecutive(conn.picks, conn.base))
  }

  predicate Placed(pc: ConnPc, listed: bool, writing: bool) {
    && (listed ==> pc.Listed? || pc.Parked?)
    && (pc.Listed? ==> listed)
    && (Reading(pc) ==> !writing)
  }

  ghost predicate Good<T>(conn: Conn<T>, listed: bool, writing: bool, published: seq<Batch<T>>, announced: nat) {
    && Faithful(conn.picks, conn.picked, published)
    && Accounted(conn, Pending(conn.pc, listed), announced)
    && Placed(conn.pc, listed, writing)
  }

  ghost predicate SharedInv<T>(s: State<T>) {
    && s.rbuf == (if s.w.published == [] then [] else [s.w.published[|s.w.published| - 1]])
    && |s.w.published| == s.announced + (if s.wpc.Copied? then 1 else 0)
  }

  /** The invariant seen by connection c; the others matter only through the
    * shared state. */
  ghost predicate Inv<T>(s: State<T>, c: nat) {
    && SharedInv(s)
    && if c in s.conns then Good(s.conns[c], c in s.list, Writing(s.wpc), s.w.published, s.announced) else c !in s.list
  }

  /** Reading rbuf under the read lock delivers the latest batch, which is new. */
  lemma PickGood<T>(conn: Conn<T>, published: seq<Batch<T>>, announced: nat)
    requires Good(conn, false, false, published, announced) && conn.pc.Relocked?
    requires |published| == announced
    ensures announced > 0
    ensures Good(
      conn.(pc := HasBatch, picked := conn.picked + [published[announced - 1]], picks := conn.picks + [announced - 1]),
      false, false, published, announced)
  {
    var latest := published[announced - 1];
    var conn' := conn.(pc := HasBatch, picked := conn.picked + [latest], picks := conn.picks + [announced - 1]);
    forall i, j | 0 <= i < j < |conn'.picks| ensures conn'.picks[i] < conn'.picks[j] {
      if j == |conn.picks| {
        assert conn.picks[i] <= conn.picks[|conn.picks| - 1];
      }
    }
  }

  /** Moves of the program counter that read nothing. */
  lemma MoveGood<T>(conn: Conn<T>, listed: bool, listed': bool, pc': ConnPc, writing: bool, published: seq<Batch<T>>,
      announced: nat)
    requires Good(conn, listed, writing, published, announced)
    requires Pending(pc', listed') == Pending(conn.pc, listed) && Placed(pc', listed', writing)
    ensures Good(conn.(pc := pc'), listed', writing, published, announced)
  {
  }

  lemma AdvanceKeeps<T>(s: State<T>, c: nat)
    requires Inv(s, c) && c in s.conns
    ensures Inv(AdvanceConn(s, c), c)
  {
    hide Faithful;
    hide Accounted;
    var conn := s.conns[c];
    var listed, writing := c in s.list, Writing(s.wpc);
    match conn.pc
    case Outside => if !writing { MoveGood(conn, listed, listed, Locked, writing, s.w.published, s.announced); }
    case Locked => MoveGood(conn, listed, true, Listed, writing, s.w.published, s.announced);
    case Listed => MoveGood(conn, listed, listed, Parked, writing, s.w.published, s.announced);
    case Parked =>
      if !listed && !writing { MoveGood(conn, listed, listed, Relocked, writing, s.w.published, s.announced); }
    case Relocked => PickGood(conn, s.w.published, s.announced);
    case HasBatch => MoveGood(conn, listed, listed, Outside, writing, s.w.published, s.announced);
    case Gone =>
  }

  lemma OthersKeep<T>(s: State<T>, c: nat, d: nat)
    requires Inv(s, c) && d in s.conns && d != c
    ensures Inv(AdvanceConn(s, d), c)
  {
    hide Good;
  }

  lemma PublishGood<T>(conn: Conn<T>, listed: bool, published: seq<Batch<T>>, announced: nat, b: Batch<T>)
    requires Good(conn, listed, true, published, announced)
    ensures Good(conn, listed, true, published + [b], announced)
  {
  }

  lemma BroadcastGood<T>(conn: Conn<T>, listed: bool, published: seq<Batch<T>>, announced: nat)
    requires Good(conn, listed, true, published, announced)
    ensures Good(if listed then conn else conn.(missed := conn.missed + 1), false, true, published, announced + 1)
  {
  }

  lemma PublishKeeps<T>(s: State<T>, c: nat)
    requires Inv(s, c) && s.wpc.Exclusive?
    ensures Inv(FlushStep(s), c)
  {
    if c in s.conns {
      PublishGood(s.conns[c], c in s.list, s.w.published, s.announced, Batch(s.w.seqno, s.w.t1, s.wpc.now, s.w.items));
    }
  }

  lemma BroadcastKeeps<T>(s: State<T>, c: nat)
    requires Inv(s, c) && s.wpc.Copied?
    ensures Inv(FlushStep(s), c)
  {
    if c in s.conns {
      BroadcastGood(s.conns[c], c in s.list, s.w.published, s.announced);
      assert FlushStep(s).conns[c] == if c in s.list then s.conns[c] else s.conns[c].(missed := s.conns[c].missed + 1);
    }
  }

  lemma FlushKeeps<T>(s: State<T>, c: nat)
    requires Inv(s, c)
    ensures Inv(FlushStep(s), c)
  {
    if s.wpc.Exclusive? {
      PublishKeeps(s, c);
    } else if s.wpc.Copied? {
      BroadcastKeeps(s, c);
    }
  }

  lemma WorkKeeps<T>(s: State<T>, p: nat, op: Op<T>, bufSize: nat, maxAge: int, c: nat)
    requires Inv(s, c) && s.wpc == Entered(p)
    ensures Inv(DoWork(s, p, op, bufSize, maxAge), c)
  {
  }

  lemma AcceptKeeps<T>(s: State<T>, d: nat, c: nat)
    requires Inv(s, c)
    ensures d !in s.conns ==> Inv(SetConn(s, d, Conn(Outside, [], [], s.announced, 0)), c)
  {
  }

  lemma NextKeeps<T>(s: State<T>, a: Action<T>, bufSize: nat, maxAge: int, c: nat)
    requires Inv(s, c)
    ensures Inv(Next(s, a, bufSize, maxAge), c)
  {
    hide Faithful;
    hide AdvanceConn;
    hide FlushStep;
    hide DoWork;
    match a
    case Advance(d) =>
      if d == c && c in s.conns {
        AdvanceKeeps(s, c);
      } else if d in s.conns {
        OthersKeep(s, c, d);
      }
    case Flusher(p) => FlushKeeps(s, c);
    case Work(p, op) =>
      if s.wpc == Entered(p) {
        WorkKeeps(s, p, op, bufSize, maxAge, c);
      }
    case Accept(d) => AcceptKeeps(s, d, c);
    case Enter(_) =>
    case Fail(_) =>
  }

  lemma NextRefines<T>(s: State<T>, a: Action<T>, bufSize: nat, maxAge: int)
    requires Refines(s.w, s.wpc, s.log, bufSize, maxAge)
    ensures var s' := Next(s, a, bufSize, maxAge); Refines(s'.w, s'.wpc, s'.log, bufSize, maxAge)
  {
    if a.Work? && s.wpc == Entered(a.p) {
      WorkKeepsRefining(s.w, a.p, a.op, s.log, bufSize, maxAge);
    }
  }

  /** The invariants of the write side and of one connection over every
    * interleaving. */
  lemma {:induction false} StepsKeep<T>(s: State<T>, acts: seq<Action<T>>, bufSize: nat, maxAge: int, c: nat)
    requires Inv(s, c) && Refines(s.w, s.wpc, s.log, bufSize, maxAge)
    ensures var s' := Steps(s, acts, bufSize, maxAge); Inv(s', c) && Refines(s'.w, s'.wpc, s'.log, bufSize, maxAge)
    decreases |acts|
  {
    hide Inv;
    hide Refines;
    if acts != [] {
      NextKeeps(s, acts[0], bufSize, maxAge, c);
      NextRefines(s, acts[0], bufSize, maxAge);
      StepsKeep(Next(s, acts[0], bufSize, maxAge), acts[1..], bufSize, maxAge, c);
    }
  }

  // ------------------------------------------------------------------ theorems

  /** Publishing through any interleaving numbers the batches consecutively, nothing
    * put is lost, duplicated or reordered, and no batch leaves before it is full or
    * too old. */
  lemma PublishedNumbered<T(!new)>(acts: seq<Action<T>>, bufSize: nat, maxAge: int)
    requires bufSize >= 1
    ensures var s := Steps(Init<T>(), acts, bufSize, maxAge);
      
        && Numbered(s.w.published) && AllItems(Settled(s.w, s.wpc)) == Puts(s.log)
        && forall i :: 0 <= i < |s.w.published| ==> Due(s.w.published[i], s.log, bufSize, maxAge)
  {
    StepsKeep(Init<T>(), acts, bufSize, maxAge, 0);
    var s := Steps(Init<T>(), acts, bufSize, maxAge);
    RefiningConserves(s.w, s.wpc, s.log, bufSize, maxAge);
  }

  /** Pick-up over every interleaving.  A connection's picks are strictly
    * increasing and each is the batch published under that number; every
    * broadcast since acceptance is picked, pending or missed; and a connection
    * that every broadcast found waiting skips nothing. */
  lemma BrokerPickups<T>(acts: seq<Action<T>>, bufSize: nat, maxAge: int, c: nat)
    requires c in Steps(Init<T>(), acts, bufSize, maxAge).conns
    ensures
      var s := Steps(Init<T>(), acts, bufSize, maxAge);
      var conn := s.conns[c];
      && Faithful(conn.picks, conn.picked, s.w.published)
      && conn.base + |conn.picks| + (if Pending(conn.pc, c in s.list) then 1 else 0) + conn.missed == s.announced
      && (conn.missed == 0 ==> Consecutive(conn.picks, conn.base))
  {
    StepsKeep(Init<T>(), acts, bufSize, maxAge, c);
  }

  // ------------------------------------------------------------------- delivery

  predicate Broadcasts<T>(s: State<T>, a: Action<T>) {
    a.Flusher? && s.wpc.Copied? && s.wpc.p == a.p
  }

  /** A broadcast wakes a connection that has joined the notify list. */
  lemma BroadcastWakes<T>(s: State<T>, a: Action<T>, bufSize: nat, maxAge: int, c: nat)
    requires Inv(s, c) && c in s.conns && c in s.list && Broadcasts(s, a)
    ensures
      var s' := Next(s, a, bufSize, maxAge);
      && c in s'.conns && c !in s'.list && Pending(s'.conns[c].pc, false)
      && s'.conns[c] == s.conns[c] && s'.wpc == Halfway(s.wpc.p, s.wpc.now)
  {
  }

  /** Connection c was back in Wait at every broadcast since it was accepted. */
  ghost predicate AlwaysWaiting<T>(s: State<T>, acts: seq<Action<T>>, bufSize: nat, maxAge: int, c: nat)
    decreases |acts|
  {
    acts == []
    || (&& (Broadcasts(s, acts[0]) && c in s.conns ==> c in s.list)
        && AlwaysWaiting(Next(s, acts[0], bufSize, maxAge), acts[1..], bufSize, maxAge, c))
  }

  predicate NoneMissed<T>(s: State<T>, c: nat) {
    c in s.conns ==> s.conns[c].missed == 0
  }

  lemma NextMissesNone<T>(s: State<T>, a: Action<T>, bufSize: nat, maxAge: int, c: nat)
    requires NoneMissed(s, c) && (Broadcasts(s, a) && c in s.conns ==> c in s.list)
    ensures NoneMissed(Next(s, a, bufSize, maxAge), c)
  {
  }

  lemma {:induction false} StepsMissNone<T>(s: State<T>, acts: seq<Action<T>>, bufSize: nat, maxAge: int, c: nat)
    requires NoneMissed(s, c) && AlwaysWaiting(s, acts, bufSize, maxAge, c)
    ensures NoneMissed(Steps(s, acts, bufSize, maxAge), c)
    decreases |acts|
  {
    hide NoneMissed;
    hide Next;
    if acts != [] {
      NextMissesNone(s, acts[0], bufSize, maxAge, c);
      StepsMissNone(Next(s, acts[0], bufSize, maxAge), acts[1..], bufSize, maxAge, c);
    }
  }

  /** A connection that is back in Wait before every broadcast picks up every batch
    * since its acceptance, in order, up to the one it has been woken for. */
  lemma WaitingPicksAll<T>(acts: seq<Action<T>>, bufSize: nat, maxAge: int, c: nat)
    requires AlwaysWaiting(Init<T>(), acts, bufSize, maxAge, c)
    requires c in Steps(Init<T>(), acts, bufSize, maxAge).conns
    ensures
      var s := Steps(Init<T>(), acts, bufSize, maxAge);
      var conn := s.conns[c];
      && Consecutive(conn.picks, conn.base)
      && conn.base + |conn.picks| + (if Pending(conn.pc, c in s.list) then 1 else 0)
           == |s.w.published| - (if s.wpc.Copied? then 1 else 0)
  {
    StepsMissNone(Init<T>(), acts, bufSize, maxAge, c);
    StepsKeep(Init<T>(), acts, bufSize, maxAge, c);
  }

  lemma StepsFirst<T>(s: State<T>, a: Action<T>, more: seq<Action<T>>, bufSize: nat, maxAge: int)
    ensures Steps(s, [a] + more, bufSize, maxAge) == Steps(Next(s, a, bufSize, maxAge), more, bufSize, maxAge)
  {
    assert ([a] + more)[1..] == more;
  }

  function Rank(pc: WriterPc): nat {
    match pc case Exclusive(_, _) => 3 case Copied(_, _) => 2 case Halfway(_, _) => 1 case _ => 0
  }

  /** One step of a writer that keeps the readers out. */
  lemma WriterMoves<T>(s: State<T>, bufSize: nat, maxAge: int, c: nat)
    requires Inv(s, c) && c in s.conns && Writing(s.wpc) && Pending(s.conns[c].pc, c in s.list)
    ensures
      var s' := Next(s, Flusher(s.wpc.p), bufSize, maxAge);
      && Inv(s', c) && Rank(s'.wpc) < Rank(s.wpc) && c in s'.conns && Pending(s'.conns[c].pc, c in s'.list)
      && s'.conns[c].picks == s.conns[c].picks && s'.conns[c].picked == s.conns[c].picked
  {
    FlushKeeps(s, c);
    hide Good;
  }

  /** A woken connection takes the lock and copies what rbuf holds then. */
  lemma TwoAdvances<T>(s: State<T>, bufSize: nat, maxAge: int, c: nat) returns (more: seq<Action<T>>)
    requires Inv(s, c) && c in s.conns && !Writing(s.wpc) && Pending(s.conns[c].pc, c in s.list)
    ensures
      var t := Steps(s, more, bufSize, maxAge);
      && t.w == s.w && t.w.published != [] && c in t.conns
      && t.conns[c].picks == s.conns[c].picks + [|t.w.published| - 1]
      && t.conns[c].picked == s.conns[c].picked + [t.w.published[|t.w.published| - 1]]
  {
    var a: Action<T> := Advance(c);
    assert s.w.published != [];
    if s.conns[c].pc.Parked? {
      StepsFirst(s, a, [a], bufSize, maxAge);
      StepsFirst(Next(s, a, bufSize, maxAge), a, [], bufSize, maxAge);
      assert Next(s, a, bufSize, maxAge) == SetConn(s, c, s.conns[c].(pc := Relocked));
      assert [a] + [] == [a];
      more := [a] + [a];
    } else {
      StepsFirst(s, a, [], bufSize, maxAge);
      assert [a] + [] == [a];
      more := [a];
    }
  }

  /** From every state that some run reaches, a connection that has been woken can go on
    * to pick up the latest batch. */
  lemma {:induction false} PendingPicks<T>(s: State<T>, bufSize: nat, maxAge: int, c: nat)
    returns (more: seq<Action<T>>)
    requires Inv(s, c) && c in s.conns && Pending(s.conns[c].pc, c in s.list)
    ensures
      var t := Steps(s, more, bufSize, maxAge);
      && t.w.published != [] && c in t.conns
      && t.conns[c].picks == s.conns[c].picks + [|t.w.published| - 1]
      && t.conns[c].picked == s.conns[c].picked + [t.w.published[|t.w.published| - 1]]
    decreases Rank(s.wpc)
  {
    if Writing(s.wpc) {
      var a: Action<T> := Flusher(s.wpc.p);
      WriterMoves(s, bufSize, maxAge, c);
      more := PendingPicks(Next(s, a, bufSize, maxAge), bufSize, maxAge, c);
      StepsFirst(s, a, more, bufSize, maxAge);
      more := [a] + more;
    } else {
      more := TwoAdvances(s, bufSize, maxAge, c);
    }
  }

  /** What that says of runs. */
  lemma WokenPicks<T>(acts: seq<Action<T>>, bufSize: nat, maxAge: int, c: nat) returns (more: seq<Action<T>>)
    requires
      var s := Steps(Init<T>(), acts, bufSize, maxAge);
      c in s.conns && Pending(s.conns[c].pc, c in s.list)
    ensures
      var s := Steps(Init<T>(), acts, bufSize, maxAge);
      var t := Steps(s, more, bufSize, maxAge);
      && t.w.published != [] && c in t.conns
      && t.conns[c].picks == s.conns[c].picks + [|t.w.published| - 1]
      && t.conns[c].picked == s.conns[c].picked + [t.w.published[|t.w.published| - 1]]
  {
    StepsKeep(Init<T>(), acts, bufSize, maxAge, c);
    hide Inv;
    more := PendingPicks(Steps(Init<T>(), acts, bufSize, maxAge), bufSize, maxAge, c);
  }

  // ------------------------------------------------------- every flush can finish

  ghost predicate InvAll<T>(s: State<T>) {
    forall c: nat :: Inv(s, c)
  }

  function Readers<T>(s: State<T>): set<nat> {
    set c | c in s.conns && Reading(s.conns[c].pc)
  }

  lemma AllKeep<T>(s: State<T>, a: Action<T>, bufSize: nat, maxAge: int)
    requires InvAll(s)
    ensures InvAll(Next(s, a, bufSize, maxAge))
  {
    hide Inv;
    hide Next;
    forall c: nat ensures Inv(Next(s, a, bufSize, maxAge), c) {
      NextKeeps(s, a, bufSize, maxAge, c);
    }
  }

  /** A reader steps towards the release of the read lock. */
  function ReaderRank(pc: ConnPc): nat {
    match pc case Locked => 2 case Listed => 1 case Relocked => 2 case HasBatch => 1 case _ => 0
  }

  lemma ReaderMoves<T>(s: State<T>, c: nat)
    requires Inv(s, c) && c in s.conns && Reading(s.conns[c].pc)
    ensures
      var s' := AdvanceConn(s, c);
      && s'.w == s.w && s'.wpc == s.wpc && s'.log == s.log && c in s'.conns && s'.conns == s.conns[c := s'.conns[c]]
      && ReaderRank(s'.conns[c].pc) < ReaderRank(s.conns[c].pc)
      && (Reading(s'.conns[c].pc) <==> ReaderRank(s'.conns[c].pc) > 0)
  {
    hide Faithful;
  }

  /** The readers inside leave one by one. */
  lemma {:induction false} ReadersLeave<T>(s: State<T>, bufSize: nat, maxAge: int, n: nat)
    returns (more: seq<Action<T>>)
    requires InvAll(s) && |Readers(s)| == n
    ensures var t := Steps(s, more, bufSize, maxAge);
      InvAll(t) && t.w == s.w && t.wpc == s.wpc && t.log == s.log && NoReaders(t)
    decreases n
  {
    if n == 0 {
      assert NoReaders(s) by {
        forall c | c in s.conns ensures !Reading(s.conns[c].pc) {
          assert c !in Readers(s);
        }
      }
      more := [];
    } else {
      var c :| c in Readers(s);
      more := ReaderLeaves(s, bufSize, maxAge, c);
      var t := Steps(s, more, bufSize, maxAge);
      assert Readers(t) == Readers(s) - {c};
      var rest := ReadersLeave(t, bufSize, maxAge, n - 1);
      StepsThen(s, more, rest, bufSize, maxAge);
      more := more + rest;
    }
  }

  lemma {:induction false} ReaderLeaves<T>(s: State<T>, bufSize: nat, maxAge: int, c: nat)
    returns (more: seq<Action<T>>)
    requires InvAll(s) && c in s.conns && Reading(s.conns[c].pc)
    ensures
      var t := Steps(s, more, bufSize, maxAge);
      && InvAll(t) && t.w == s.w && t.wpc == s.wpc && t.log == s.log
      && c in t.conns && t.conns == s.conns[c := t.conns[c]] && !Reading(t.conns[c].pc)
    decreases ReaderRank(s.conns[c].pc)
  {
    assert Inv(s, c);
    var a: Action<T> := Advance(c);
    var s' := Next(s, a, bufSize, maxAge);
    ReaderMoves(s, c);
    AllKeep(s, a, bufSize, maxAge);
    hide InvAll;
    hide AdvanceConn;
    more := [];
    if Reading(s'.conns[c].pc) {
      more := ReaderLeaves(s', bufSize, maxAge, c);
    }
    StepsFirst(s, a, more, bufSize, maxAge);
    more := [a] + more;
  }

  lemma {:induction false} StepsThen<T>(s: State<T>, acts: seq<Action<T>>, more: seq<Action<T>>, bufSize: nat,
      maxAge: int)
    ensures Steps(s, acts + more, bufSize, maxAge) == Steps(Steps(s, acts, bufSize, maxAge), more, bufSize, maxAge)
    decreases |acts|
  {
    if acts == [] {
      assert acts + more == more;
    } else {
      assert (acts + more)[1..] == acts[1..] + more;
      StepsThen(Next(s, acts[0], bufSize, maxAge), acts[1..], more, bufSize, maxAge);
    }
  }

  function FlushRank(pc: WriterPc): nat {
    match pc
    case Flushing(_, _) => 6
    case Exclusive(_, _) => 5
    case Copied(_, _) => 4
    case Halfway(_, _) => 3
    case Released(_, _) => 2
    case Leaving(_) => 1
    case _ => 0
  }

  lemma FlusherMoves<T>(s: State<T>, bufSize: nat, maxAge: int)
    requires FlushRank(s.wpc) > 0 && (s.wpc.Flushing? ==> NoReaders(s))
    ensures
      var s' := Next(s, Flusher(s.wpc.p), bufSize, maxAge);
      && s'.log == s.log
      && FlushRank(s'.wpc) < FlushRank(s.wpc) && (s'.wpc.Free? <==> FlushRank(s'.wpc) == 0) && !s'.wpc.Flushing?
      && ItemLists(s'.w.published) + Unpublished(s'.w, s'.wpc) == ItemLists(s.w.published) + Unpublished(s.w, s.wpc)
  {
  }

  lemma {:induction false} FlushGoesOn<T>(s: State<T>, bufSize: nat, maxAge: int) returns (more: seq<Action<T>>)
    requires InvAll(s) && FlushRank(s.wpc) > 0
    ensures
      var t := Steps(s, more, bufSize, maxAge);
      t.wpc.Free? && t.log == s.log && ItemLists(t.w.published) == ItemLists(s.w.published) + Unpublished(s.w, s.wpc)
    decreases FlushRank(s.wpc), if s.wpc.Flushing? && !NoReaders(s) then 1 else 0
  {
    if s.wpc.Flushing? && !NoReaders(s) {
      var first := ReadersLeave(s, bufSize, maxAge, |Readers(s)|);
      var t := Steps(s, first, bufSize, maxAge);
      var rest := FlushGoesOn(t, bufSize, maxAge);
      StepsThen(s, first, rest, bufSize, maxAge);
      more := first + rest;
    } else {
      var a: Action<T> := Flusher(s.wpc.p);
      FlusherMoves(s, bufSize, maxAge);
      AllKeep(s, a, bufSize, maxAge);
      hide InvAll;
      hide FlushStep;
      hide ItemLists;
      var s' := Next(s, a, bufSize, maxAge);
      more := [];
      if !s'.wpc.Free? {
        more := FlushGoesOn(s', bufSize, maxAge);
      }
      StepsFirst(s, a, more, bufSize, maxAge);
      more := [a] + more;
    }
  }

  /** From every state that some run reaches in the middle of a flush, whatever the
    * connections are doing, the run can go on to the end of it, with exactly the
    * records of the write buffer published as the next batch. */
  lemma FlushCompletes<T>(acts: seq<Action<T>>, bufSize: nat, maxAge: int) returns (more: seq<Action<T>>)
    requires FlushRank(Steps(Init<T>(), acts, bufSize, maxAge).wpc) > 0
    ensures
      var s := Steps(Init<T>(), acts, bufSize, maxAge);
      var t := Steps(s, more, bufSize, maxAge);
      t.wpc.Free? && ItemLists(t.w.published) == ItemLists(s.w.published) + Unpublished(s.w, s.wpc)
  {
    var s := Steps(Init<T>(), acts, bufSize, maxAge);
    forall c: nat ensures Inv(s, c) {
      StepsKeep(Init<T>(), acts, bufSize, maxAge, c);
    }
    more := FlushGoesOn(s, bufSize, maxAge);
  }

  /** From every reachable state in which nobody holds the write lock any put or timer
    * turn can be carried through, and it is then that operation of the sequential
    * writer. */
  lemma OperationCompletes<T>(acts: seq<Action<T>>, p: nat, op: Op<T>, bufSize: nat, maxAge: int)
    returns (more: seq<Action<T>>)
    requires Steps(Init<T>(), acts, bufSize, maxAge).wpc.Free?
    ensures
      var s := Steps(Init<T>(), acts, bufSize, maxAge);
      var t := Steps(s, more, bufSize, maxAge);
      t.wpc.Free? && t.log == s.log + [op] && t.w == Apply(s.w, op, bufSize, maxAge)
  {
    var s := Steps(Init<T>(), acts, bufSize, maxAge);
    var enter: Action<T>, work: Action<T> := Enter(p), Work(p, op);
    forall c: nat ensures Inv(s, c) {
      StepsKeep(Init<T>(), acts, bufSize, maxAge, c);
    }
    AllKeep(s, enter, bufSize, maxAge);
    var s1 := Next(s, enter, bufSize, maxAge);
    AllKeep(s1, work, bufSize, maxAge);
    var s2 := Next(s1, work, bufSize, maxAge);
    hide InvAll;
    var rest := FlushGoesOn(s2, bufSize, maxAge);
    StepsFirst(s1, work, rest, bufSize, maxAge);
    StepsFirst(s, enter, [work] + rest, bufSize, maxAge);
    more := [enter] + ([work] + rest);
    RunsAs(acts, more, op, bufSize, maxAge);
  }

  lemma RunsAs<T>(acts: seq<Action<T>>, more: seq<Action<T>>, op: Op<T>, bufSize: nat, maxAge: int)
    requires
      var s := Steps(Init<T>(), acts, bufSize, maxAge);
      var t := Steps(s, more, bufSize, maxAge);
      s.wpc.Free? && t.wpc.Free? && t.log == s.log + [op]
    ensures
      var s := Steps(Init<T>(), acts, bufSize, maxAge);
      Steps(s, more, bufSize, maxAge).w == Apply(s.w, op, bufSize, maxAge)
  {
    var s := Steps(Init<T>(), acts, bufSize, maxAge);
    StepsKeep(Init<T>(), acts, bufSize, maxAge, 0);
    StepsKeep(s, more, bufSize, maxAge, 0);
    RunSnoc(Empty<T>(), s.log, op, bufSize, maxAge);
    hide Inv;
  }

  // ------------------------------------------------------------------ connections

  /** A connection that is accepted, or has sent a batch, gets back into Wait. */
  lemma BackToWait<T>(s: State<T>, bufSize: nat, maxAge: int, c: nat)
    requires Inv(s, c) && c in s.conns && s.conns[c].pc.Outside? && !Writing(s.wpc)
    ensures
      var a: Action<T> := Advance(c);
      var t := Steps(s, [a] + ([a] + ([a] + [])), bufSize, maxAge);
      c in t.conns && t.conns[c] == s.conns[c].(pc := Parked) && c in t.list && t.w == s.w && t.wpc == s.wpc
  {
    var a: Action<T> := Advance(c);
    var s1 := SetConn(s, c, s.conns[c].(pc := Locked));
    var s2 := SetConn(s, c, s.conns[c].(pc := Listed)).(list := s.list + {c});
    StepsFirst(s, a, [a] + ([a] + []), bufSize, maxAge);
    assert Next(s, a, bufSize, maxAge) == s1;
    StepsFirst(s1, a, [a] + [], bufSize, maxAge);
    assert s1.conns[c := s1.conns[c].(pc := Listed)] == s2.conns;
    assert Next(s1, a, bufSize, maxAge) == s2;
    StepsFirst(s2, a, [], bufSize, maxAge);
  }

  /** A new connection can be accepted in any state, and what it is due begins with the
    * next broadcast. */
  lemma AcceptJoins<T>(acts: seq<Action<T>>, bufSize: nat, maxAge: int, c: nat)
    requires c !in Steps(Init<T>(), acts, bufSize, maxAge).conns
    ensures
      var s := Steps(Init<T>(), acts, bufSize, maxAge);
      var t := Next(s, Accept(c), bufSize, maxAge);
      && c in t.conns && t.conns[c].pc.Outside? && t.conns[c].picks == []
      && t.conns[c].base == |s.w.published| - (if s.wpc.Copied? then 1 else 0)
  {
    StepsKeep(Init<T>(), acts, bufSize, maxAge, c);
  }

  lemma {:induction false} GoneStays<T>(s: State<T>, acts: seq<Action<T>>, bufSize: nat, maxAge: int, c: nat)
    requires c in s.conns && s.conns[c].pc.Gone?
    ensures
      var t := Steps(s, acts, bufSize, maxAge);
      && c in t.conns && t.conns[c].pc.Gone?
      && t.conns[c].picks == s.conns[c].picks && t.conns[c].picked == s.conns[c].picked
    decreases |acts|
  {
    if acts != [] {
      var s' := Next(s, acts[0], bufSize, maxAge);
      assert c in s'.conns && s'.conns[c].pc.Gone?;
      assert s'.conns[c].picks == s.conns[c].picks && s'.conns[c].picked == s.conns[c].picked;
      hide Next;
      GoneStays(s', acts[1..], bufSize, maxAge, c);
    }
  }

  /** After a write error a connection picks up nothing any more. */
  lemma FailedPicksNothing<T>(s: State<T>, acts: seq<Action<T>>, bufSize: nat, maxAge: int, c: nat)
    requires c in s.conns && s.conns[c].pc.Outside?
    ensures
      var t := Steps(Next(s, Fail(c), bufSize, maxAge), acts, bufSize, maxAge);
      c in t.conns && t.conns[c].picks == s.conns[c].picks && t.conns[c].picked == s.conns[c].picked
  {
    GoneStays(Next(s, Fail(c), bufSize, maxAge), acts, bufSize, maxAge, c);
  }
}
