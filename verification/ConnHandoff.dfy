/** internal/gpsv2/device/gt06: the loop that serves a device connection, and
  * ReplaceConn and Stop, which take the connection away from it.
  *
  * A run is any list of actions; an action that is not enabled leaves the state
  * alone.  Any number of loops and of ReplaceConn calls may be under way.  A
  * critical section that only copies one field is one step.  c_mu behaves like
  * sync.RWMutex: a writer first announces itself, which keeps new readers out,
  * and then waits for the readers already inside.
  */
module ConnHandoff {
  import opened Options

  datatype RunState = Created | Running | Paused

  datatype LoopPc =
    | Starting       // spawned, has not yet marked the device running
    | Wanting        // before c_mu.RLock
    | Serving        // inside a pass, holding the read lock
    | Pinging        // inside a pass, at the nested RLock of a command
    | Nested         // inside a pass, holding the read lock twice
    | Leaving        // closed the connection, still holds the read lock
    | Checking       // pass over, about to look at stopped
    | Taking         // before c_next_mu.Lock
    | Holding        // holds c_next_mu
    | Upgrading      // announced as writer of c_mu
    | Swapped        // took the next connection, still holds c_mu
    | Relinquishing  // released c_mu, still holds c_next_mu
    | Sleeping
    | Ending         // about to mark the device paused
    | Done

  /** `served` is the connection of the current or last pass and `late` counts the
    * passes begun after Stop. */
  datatype Loop = Loop(pc: LoopPc, served: Option<nat>, late: nat)

  datatype ReplPc =
    | Calling
    | Looking     // holds rs_mu
    | Offering    // device running: before c_next_mu.Lock
    | Offered     // c_next set, about to release rs_mu
    | Closing     // about to close the connection it finds
    | Announcing  // device paused: before c_mu.Lock
    | Setting     // announced as writer of c_mu
    | Adopted     // connection set, still holds c_mu
    | Releasing   // about to release rs_mu
    | Spawning    // about to spawn a loop
    | Finished

  datatype Who = Nobody | ByLoop(l: nat) | ByRepl(r: nat)

  /** The connection handed over by call r is number r, and so is the loop it
    * spawns; 0 stands for the first of both. */
  datatype State = State(
    conn: nat, next: Option<nat>, stopped: bool, rs: RunState,
    rsOwner: Option<nat>, nextOwner: Option<nat>, writer: Who, reading: set<nat>, outside: nat,
    loops: map<nat, Loop>, repls: map<nat, ReplPc>, adopted: seq<nat>, closed: set<nat>)

  datatype Action =
    | Advance(l: nat)    // one step of a loop; in a pass: the pass fails and ends
    | Ping(l: nat)       // in a pass: the read timed out, send a command
    | Give(r: nat)       // ReplaceConn is called
    | Replace(r: nat)    // one step of that call
    | Stop
    | StopClose
    | Borrow             // another goroutine reads the connection
    | Return

  function Init(): State {
    State(0, None, false, Created, None, None, Nobody, {}, 0, map[0 := Loop(Starting, None, 0)], map[], [0], {})
  }

  predicate InPass(pc: LoopPc) {
    pc.Serving? || pc.Pinging? || pc.Nested? || pc.Leaving?
  }

  // -------------------------------------------------------------------- steps

  function SetLoop(s: State, l: nat, pc: LoopPc): State
    requires l in s.loops
  {
    s.(loops := s.loops[l := s.loops[l].(pc := pc)])
  }

  /** The device connection changes hands; the writer holds c_mu alone. */
  function Adopt(s: State, c: nat): State {
    s.(conn := c, adopted := s.adopted + [c])
  }

  predicate Drained(s: State) {
    s.reading == {} && s.outside == 0
  }

  /** _run around its passes. */
  function TurnStep(s: State, l: nat): State
    requires l in s.loops
  {
    match s.loops[l].pc
    case Starting => if s.rsOwner.None? then SetLoop(s, l, Wanting).(rs := Running) else s
    case Checking => SetLoop(s, l, if s.stopped then Ending else Taking)
    case Sleeping => SetLoop(s, l, Wanting)
    case Ending => if s.rsOwner.None? then SetLoop(s, l, Done).(rs := Paused) else s
    case _ => s
  }

  /** use_next_conn. */
  function SwapStep(s: State, l: nat): State
    requires l in s.loops
  {
    match s.loops[l].pc
    case Taking => if s.nextOwner.None? then SetLoop(s, l, Holding).(nextOwner := Some(l)) else s
    case Holding =>
      if s.next.None? then SetLoop(s, l, Ending).(nextOwner := None)
      else if s.writer == Nobody then SetLoop(s, l, Upgrading).(writer := ByLoop(l))
      else s
    case Upgrading =>
      if Drained(s) && s.next.Some? then Adopt(SetLoop(s, l, Swapped), s.next.value).(next := None) else s
    case Swapped => SetLoop(s, l, Relinquishing).(writer := Nobody)
    case Relinquishing => SetLoop(s, l, Sleeping).(nextOwner := None)
    case _ => s
  }

  /** One pass: from the read lock to its release. */
  function PassStep(s: State, l: nat): State
    requires l in s.loops
  {
    var loop := s.loops[l];
    match loop.pc
    case Wanting =>
      if s.writer == Nobody then
        s.(loops := s.loops[l := Loop(Serving, Some(s.conn), if s.stopped then loop.late + 1 else loop.late)],
           reading := s.reading + {l})
      else s
    case Serving => SetLoop(s, l, Leaving).(closed := s.closed + {s.conn})
    case Pinging => if s.writer == Nobody then SetLoop(s, l, Nested) else s
    case Nested => SetLoop(s, l, Serving)
    case Leaving => SetLoop(s, l, Checking).(reading := s.reading - {l})
    case _ => s
  }

  function LoopStep(s: State, l: nat): (s': State)
    requires l in s.loops
    ensures s'.loops.Keys == s.loops.Keys
  {
    match s.loops[l].pc
    case Wanting | Serving | Pinging | Nested | Leaving => PassStep(s, l)
    case Taking | Holding | Upgrading | Swapped | Relinquishing => SwapStep(s, l)
    case _ => TurnStep(s, l)
  }

  function SetRepl(s: State, r: nat, pc: ReplPc): State {
    s.(repls := s.repls[r := pc])
  }

  /** ReplaceConn on a running device. */
  function OfferStep(s: State, r: nat): State
    requires r in s.repls
  {
    match s.repls[r]
    case Offering => if s.nextOwner.None? then SetRepl(s, r, Offered).(next := Some(r)) else s
    case Offered => SetRepl(s, r, Closing).(rsOwner := None)
    case Closing => SetRepl(s, r, Finished).(closed := s.closed + {s.conn})
    case _ => s
  }

  /** ReplaceConn on a paused device. */
  function SetStep(s: State, r: nat): State
    requires r in s.repls
  {
    match s.repls[r]
    case Announcing => if s.writer == Nobody then SetRepl(s, r, Setting).(writer := ByRepl(r)) else s
    case Setting => if Drained(s) then Adopt(SetRepl(s, r, Adopted), r) else s
    case Adopted => SetRepl(s, r, Releasing).(writer := Nobody)
    case Releasing => SetRepl(s, r, Spawning).(rsOwner := None)
    case Spawning =>
      // a call spawns only once, so its loop does not exist yet
      if r in s.loops then s else SetRepl(s, r, Finished).(loops := s.loops[r := Loop(Starting, None, 0)])
    case _ => s
  }

  function ReplStep(s: State, r: nat): State
    requires r in s.repls
  {
    match s.repls[r]
    case Calling =>
      // a device still in created is outside the model
      if s.rsOwner.None? && !s.rs.Created? then SetRepl(s, r, Looking).(rsOwner := Some(r)) else s
    case Looking => SetRepl(s, r, if s.rs.Running? then Offering else Announcing)
    case Offering | Offered | Closing => OfferStep(s, r)
    case _ => SetStep(s, r)
  }

  function Next(s: State, a: Action): State {
    match a
    case Advance(l) => if l in s.loops then LoopStep(s, l) else s
    case Ping(l) => if l in s.loops && s.loops[l].pc.Serving? then SetLoop(s, l, Pinging) else s
    case Give(r) => if r in s.repls || r == 0 then s else SetRepl(s, r, Calling)
    case Replace(r) => if r in s.repls then ReplStep(s, r) else s
    case Stop => s.(stopped := true)
    case StopClose => if s.stopped then s.(closed := s.closed + {s.conn}) else s
    case Borrow => if s.writer == Nobody then s.(outside := s.outside + 1) else s
    case Return => if s.outside > 0 then s.(outside := s.outside - 1) else s
  }

  function Steps(s: State, acts: seq<Action>): State
    decreases |acts|
  {
    if acts == [] then s else Steps(Next(s, acts[0]), acts[1..])
  }

  // ------------------------------------------------ invariants of every run

  predicate Distinct(a: seq<nat>) {
    forall i, j :: 0 <= i < j < |a| ==> a[i] != a[j]
  }

  predicate HoldsNext(pc: LoopPc) {
    pc.Holding? || pc.Upgrading? || pc.Swapped? || pc.Relinquishing?
  }

  predicate LoopWrites(pc: LoopPc) {
    pc.Upgrading? || pc.Swapped?
  }

  predicate HoldsRs(pc: ReplPc) {
    pc.Looking? || pc.Offering? || pc.Offered? || pc.Announcing? || pc.Setting? || pc.Adopted? || pc.Releasing?
  }

  predicate ReplWrites(pc: ReplPc) {
    pc.Setting? || pc.Adopted?
  }

  /** The connection of this call has not been passed on yet. */
  predicate Fresh(pc: ReplPc) {
    pc.Calling? || pc.Looking? || pc.Offering? || pc.Announcing? || pc.Setting?
  }

  /** Every adopted connection was given to some call, and none is adopted twice. */
  ghost predicate ConnInv(adopted: seq<nat>, conn: nat, next: Option<nat>, given: set<nat>) {
    && Distinct(adopted) && adopted != [] && conn == adopted[|adopted| - 1]
    && (forall i :: 0 <= i < |adopted| ==> adopted[i] == 0 || adopted[i] in given)
    && (next.Some? ==> next.value !in adopted && next.value in given)
  }

  ghost predicate LoopInv(s: State, l: nat)
    requires l in s.loops
  {
    var loop := s.loops[l];
    && (l in s.reading <==> InPass(loop.pc))
    && (InPass(loop.pc) ==> loop.served == Some(s.conn))
    && (loop.served.Some? && (loop.pc.Leaving? || !InPass(loop.pc)) ==> loop.served.value in s.closed)
    && (HoldsNext(loop.pc) <==> s.nextOwner == Some(l))
    && (LoopWrites(loop.pc) <==> s.writer == ByLoop(l))
    && (loop.pc.Upgrading? ==> s.next.Some?)
    && loop.late <= (if InPass(loop.pc) || loop.pc.Checking? || loop.pc.Ending? || loop.pc.Done? then 1 else 0)
    && (loop.late > 0 ==> s.stopped)
  }

  ghost predicate ReplInv(s: State, r: nat)
    requires r in s.repls
  {
    var pc := s.repls[r];
    && (HoldsRs(pc) <==> s.rsOwner == Some(r))
    && (ReplWrites(pc) <==> s.writer == ByRepl(r))
    && (Fresh(pc) ==> r !in s.adopted && s.next != Some(r))
    && r != 0 && (!pc.Finished? ==> r !in s.loops)
  }

  ghost predicate SharedInv(s: State) {
    && ConnInv(s.adopted, s.conn, s.next, s.repls.Keys)
    && s.reading <= s.loops.Keys
    && (forall l :: l in s.loops ==> l == 0 || l in s.repls)
    && (s.rsOwner.Some? ==> s.rsOwner.value in s.repls)
    && (s.nextOwner.Some? ==> s.nextOwner.value in s.loops)
    && (s.writer.ByLoop? ==> s.writer.l in s.loops)
    && (s.writer.ByRepl? ==> s.writer.r in s.repls)
  }

  ghost predicate Inv(s: State) {
    && SharedInv(s)
    && (forall l :: l in s.loops ==> LoopInv(s, l))
    && (forall r :: r in s.repls ==> ReplInv(s, r))
  }

  lemma AdoptInv(adopted: seq<nat>, conn: nat, next: Option<nat>, given: set<nat>, c: nat)
    requires ConnInv(adopted, conn, next, given) && c !in adopted && c in given
    ensures ConnInv(adopted + [c], c, None, given)
    ensures next != Some(c) ==> ConnInv(adopted + [c], c, next, given)
  {
  }

  /** A lock that only l has taken or given back. */
  predicate OnlyBy(before: Option<nat>, after: Option<nat>, l: nat) {
    before == after || (before in {None, Some(l)} && after in {None, Some(l)})
  }

  predicate WriterOnlyBy(before: Who, after: Who, who: Who) {
    before == after || (before in {Nobody, who} && after in {Nobody, who})
  }

  /** The connection stays, or the waiting one replaces it while nobody reads. */
  predicate Handed(s: State, s': State) {
    || (s'.conn == s.conn && s'.next == s.next && s'.adopted == s.adopted)
    || (s.reading == {} && s.next == Some(s'.conn) && s'.next == None && s'.adopted == s.adopted + [s'.conn])
  }

  /** What a step of loop l leaves alone. */
  ghost predicate LoopFrame(s: State, s': State, l: nat) {
    && l in s.loops && l in s'.loops && s'.loops == s.loops[l := s'.loops[l]]
    && s'.repls == s.repls && s'.rsOwner == s.rsOwner && s'.stopped == s.stopped
    && OnlyBy(s.nextOwner, s'.nextOwner, l) && WriterOnlyBy(s.writer, s'.writer, ByLoop(l))
    && s'.reading - {l} == s.reading - {l} && s.closed <= s'.closed
    && Handed(s, s') && (s'.next != s.next ==> s.nextOwner == Some(l))
  }

  lemma LoopFrameShared(s: State, s': State, l: nat)
    requires SharedInv(s) && LoopFrame(s, s', l)
    ensures SharedInv(s')
  {
    if s'.adopted != s.adopted {
      AdoptInv(s.adopted, s.conn, s.next, s.repls.Keys, s'.conn);
    }
    forall m | m in s'.reading ensures m in s'.loops {
      assert m == l || m in s'.reading - {l};
    }
  }

  lemma LoopFrameKeeps(s: State, s': State, l: nat)
    requires Inv(s) && LoopFrame(s, s', l) && LoopInv(s', l)
    ensures Inv(s')
  {
    LoopFrameShared(s, s', l);
    forall m | m in s'.loops ensures LoopInv(s', m) {
      if m != l {
        assert LoopInv(s, m);
        assert m in s'.reading <==> m in s'.reading - {l};
      }
    }
    forall r | r in s'.repls ensures ReplInv(s', r) {
      assert ReplInv(s, r);
    }
  }

  lemma TurnKeeps(s: State, l: nat)
    requires l in s.loops && LoopInv(s, l)
    ensures LoopFrame(s, TurnStep(s, l), l) && LoopInv(TurnStep(s, l), l)
  {
  }

  lemma SwapFrame(s: State, l: nat)
    requires l in s.loops && LoopInv(s, l)
    ensures LoopFrame(s, SwapStep(s, l), l)
  {
  }

  lemma SwapKeeps(s: State, l: nat)
    requires l in s.loops && LoopInv(s, l)
    ensures LoopInv(SwapStep(s, l), l)
  {
  }

  lemma PassFrame(s: State, l: nat)
    requires l in s.loops
    ensures LoopFrame(s, PassStep(s, l), l)
  {
  }

  lemma PassKeeps(s: State, l: nat)
    requires l in s.loops && LoopInv(s, l)
    ensures LoopInv(PassStep(s, l), l)
  {
  }

  lemma LoopKeeps(s: State, l: nat)
    requires Inv(s) && l in s.loops
    ensures Inv(LoopStep(s, l))
  {
    assert LoopInv(s, l);
    match s.loops[l].pc
    case Wanting | Serving | Pinging | Nested | Leaving =>
      PassFrame(s, l);
      PassKeeps(s, l);
      LoopFrameKeeps(s, PassStep(s, l), l);
    case Taking | Holding | Upgrading | Swapped | Relinquishing =>
      SwapFrame(s, l);
      SwapKeeps(s, l);
      LoopFrameKeeps(s, SwapStep(s, l), l);
    case _ =>
      TurnKeeps(s, l);
      LoopFrameKeeps(s, TurnStep(s, l), l);
  }

  /** What a step of call r leaves alone. */
  ghost predicate ReplFrame(s: State, s': State, r: nat) {
    && r in s.repls && r in s'.repls && s'.repls == s.repls[r := s'.repls[r]]
    && (s'.loops == s.loops || (r !in s.loops && s'.loops == s.loops[r := Loop(Starting, None, 0)]))
    && s'.nextOwner == s.nextOwner && s'.stopped == s.stopped && s'.reading == s.reading
    && OnlyBy(s.rsOwner, s'.rsOwner, r) && WriterOnlyBy(s.writer, s'.writer, ByRepl(r))
    && s.closed <= s'.closed && Given(s, s', r)
  }

  /** The connection of call r is left as the next one, replaces the present one
    * while nobody reads, or stays where it is. */
  predicate Given(s: State, s': State, r: nat) {
    || (s'.conn == s.conn && s'.next == s.next && s'.adopted == s.adopted)
    || (r !in s.adopted && s'.conn == s.conn && s'.next == Some(r) && s'.adopted == s.adopted)
    || (r !in s.adopted && s.next != Some(r) && s.reading == {}
        && s'.conn == r && s'.next == s.next && s'.adopted == s.adopted + [r])
  }

  lemma ReplFrameShared(s: State, s': State, r: nat)
    requires SharedInv(s) && ReplFrame(s, s', r)
    ensures SharedInv(s')
  {
    assert s'.repls.Keys == s.repls.Keys;
    if s'.adopted != s.adopted {
      AdoptInv(s.adopted, s.conn, s.next, s.repls.Keys, r);
    }
  }

  lemma ReplFrameKeeps(s: State, s': State, r: nat)
    requires Inv(s) && ReplFrame(s, s', r) && ReplInv(s', r)
    ensures Inv(s')
  {
    ReplFrameShared(s, s', r);
    assert ReplInv(s, r);
    forall l | l in s'.loops ensures LoopInv(s', l) {
      if l in s.loops {
        assert LoopInv(s, l);
      }
    }
    forall q | q in s'.repls ensures ReplInv(s', q) {
      if q != r {
        assert ReplInv(s, q);
      }
    }
  }

  lemma OfferFrame(s: State, r: nat)
    requires r in s.repls && ReplInv(s, r)
    ensures ReplFrame(s, OfferStep(s, r), r)
  {
  }

  lemma SetFrame(s: State, r: nat)
    requires r in s.repls && ReplInv(s, r)
    ensures ReplFrame(s, SetStep(s, r), r)
  {
  }

  lemma ReplStepFrame(s: State, r: nat)
    requires r in s.repls && ReplInv(s, r)
    ensures ReplFrame(s, ReplStep(s, r), r)
  {
    match s.repls[r]
    case Calling | Looking =>
    case Offering | Offered | Closing => OfferFrame(s, r);
    case _ => SetFrame(s, r);
  }

  lemma ReplStepKeeps(s: State, r: nat)
    requires r in s.repls && ReplInv(s, r)
    ensures ReplInv(ReplStep(s, r), r)
  {
  }

  lemma ReplKeeps(s: State, r: nat)
    requires Inv(s) && r in s.repls
    ensures Inv(ReplStep(s, r))
  {
    ReplStepFrame(s, r);
    ReplStepKeeps(s, r);
    ReplFrameKeeps(s, ReplStep(s, r), r);
  }

  /** Actions of neither a loop nor a call in progress. */
  lemma PingKeeps(s: State, l: nat)
    requires Inv(s) && l in s.loops && s.loops[l].pc.Serving?
    ensures Inv(SetLoop(s, l, Pinging))
  {
    assert LoopInv(s, l);
    LoopFrameKeeps(s, SetLoop(s, l, Pinging), l);
  }

  lemma GiveKeeps(s: State, r: nat)
    requires Inv(s) && r !in s.repls && r != 0
    ensures Inv(SetRepl(s, r, Calling))
  {
    var s' := SetRepl(s, r, Calling);
    forall l | l in s'.loops ensures LoopInv(s', l) {
      assert LoopInv(s, l);
    }
    forall q | q in s'.repls ensures ReplInv(s', q) {
      if q != r {
        assert ReplInv(s, q);
      }
    }
  }

  lemma OthersKeep(s: State, a: Action)
    requires Inv(s) && (a.Stop? || a.StopClose? || a.Borrow? || a.Return?)
    ensures Inv(Next(s, a))
  {
    var s' := Next(s, a);
    forall l | l in s'.loops ensures LoopInv(s', l) {
      assert LoopInv(s, l);
    }
    forall r | r in s'.repls ensures ReplInv(s', r) {
      assert ReplInv(s, r);
    }
  }

  lemma NextKeeps(s: State, a: Action)
    requires Inv(s)
    ensures Inv(Next(s, a))
  {
    match a
    case Advance(l) => if l in s.loops { LoopKeeps(s, l); }
    case Ping(l) => if l in s.loops && s.loops[l].pc.Serving? { PingKeeps(s, l); }
    case Give(r) => if r !in s.repls && r != 0 { GiveKeeps(s, r); }
    case Replace(r) => if r in s.repls { ReplKeeps(s, r); }
    case _ => OthersKeep(s, a);
  }

  lemma {:induction false} StepsKeep(s: State, acts: seq<Action>)
    requires Inv(s)
    ensures Inv(Steps(s, acts))
    decreases |acts|
  {
    if acts != [] {
      NextKeeps(s, acts[0]);
      StepsKeep(Next(s, acts[0]), acts[1..]);
    }
  }

  // --------------------------------------------------- theorems about every run

  /** During a pass the device connection is the one the pass started with; when
    * the pass is over that connection is closed. */
  lemma PassServesOneConn(acts: seq<Action>, l: nat)
    requires l in Steps(Init(), acts).loops
    ensures
      var s := Steps(Init(), acts);
      var loop := s.loops[l];
      && (InPass(loop.pc) ==> loop.served == Some(s.conn))
      && (!InPass(loop.pc) && loop.served.Some? ==> loop.served.value in s.closed)
  {
    StepsKeep(Init(), acts);
    assert LoopInv(Steps(Init(), acts), l);
  }

  /** No connection is adopted twice, and only connections handed over by some
    * call are. */
  lemma AdoptedOnce(acts: seq<Action>)
    ensures
      var s := Steps(Init(), acts);
      && Distinct(s.adopted) && s.adopted != [] && s.conn == s.adopted[|s.adopted| - 1]
      && (forall i :: 0 <= i < |s.adopted| ==> s.adopted[i] == 0 || s.adopted[i] in s.repls)
  {
    StepsKeep(Init(), acts);
  }

  /** A loop begins at most one pass after Stop. */
  lemma OnePassAfterStop(acts: seq<Action>, l: nat)
    requires l in Steps(Init(), acts).loops
    ensures Steps(Init(), acts).loops[l].late <= 1
  {
    StepsKeep(Init(), acts);
    assert LoopInv(Steps(Init(), acts), l);
  }

  // ------------------------------------------------ when loops start in time

  /** The one loop, or call about to spawn one, that is in charge of the device. */
  datatype Driver = NoOne | TheLoop(l: nat) | TheCall(r: nat)

  predicate OnPausedPath(pc: ReplPc) {
    pc.Announcing? || pc.Setting? || pc.Adopted? || pc.Releasing? || pc.Spawning?
  }

  /** A call takes rs_mu only when every loop spawned or about to be has marked
    * the device running. */
  ghost predicate Careful(s: State, a: Action) {
    a.Replace? && a.r in s.repls && s.repls[a.r].Calling? ==>
      && (forall l :: l in s.loops ==> !s.loops[l].pc.Starting?)
      && (forall r :: r in s.repls ==> !s.repls[r].Spawning?)
  }

  ghost predicate CarefulRun(s: State, acts: seq<Action>)
    decreases |acts|
  {
    acts == [] || (Careful(s, acts[0]) && CarefulRun(Next(s, acts[0]), acts[1..]))
  }

  ghost predicate LoopDriven(s: State, l: nat, d: Driver)
    requires l in s.loops
  {
    !s.loops[l].pc.Done? ==> d == TheLoop(l) && (s.loops[l].pc.Starting? <==> !s.rs.Running?)
  }

  ghost predicate ReplDriven(s: State, r: nat, d: Driver)
    requires r in s.repls
  {
    && (OnPausedPath(s.repls[r]) ==> d == TheCall(r) && s.rs.Paused?)
    && (s.repls[r].Looking? ==> !s.rs.Created? && (s.rs.Paused? ==> d == NoOne))
  }

  ghost predicate DriverAlive(s: State, d: Driver) {
    match d
    case NoOne => s.rs.Paused?
    case TheLoop(l) => l in s.loops && !s.loops[l].pc.Done?
    case TheCall(r) => r in s.repls && OnPausedPath(s.repls[r])
  }

  ghost predicate Driven(s: State, d: Driver) {
    && DriverAlive(s, d)
    && (forall l :: l in s.loops ==> LoopDriven(s, l, d))
    && (forall r :: r in s.repls ==> ReplDriven(s, r, d))
  }

  /** How a loop's step changes rs. */
  predicate LoopMarks(s: State, s': State, l: nat)
    requires l in s.loops && l in s'.loops
  {
    match s.loops[l].pc
    case Starting =>
      if s.rsOwner.None? then s'.rs.Running? && s'.loops[l].pc.Wanting? else s'.rs == s.rs && s'.loops[l].pc.Starting?
    case Ending =>
      if s.rsOwner.None? then s'.rs.Paused? && s'.loops[l].pc.Done? else s'.rs == s.rs && s'.loops[l].pc.Ending?
    case Done => s'.rs == s.rs && s'.loops[l].pc.Done?
    case _ => s'.rs == s.rs && !s'.loops[l].pc.Starting? && !s'.loops[l].pc.Done?
  }

  lemma TurnMarks(s: State, l: nat)
    requires l in s.loops
    ensures LoopMarks(s, TurnStep(s, l), l)
  {
  }

  lemma SwapMarks(s: State, l: nat)
    requires l in s.loops && (HoldsNext(s.loops[l].pc) || s.loops[l].pc.Taking?)
    ensures LoopMarks(s, SwapStep(s, l), l)
  {
  }

  lemma PassMarks(s: State, l: nat)
    requires l in s.loops && (InPass(s.loops[l].pc) || s.loops[l].pc.Wanting?)
    ensures LoopMarks(s, PassStep(s, l), l)
  {
  }

  lemma LoopStepMarks(s: State, l: nat)
    requires l in s.loops
    ensures LoopMarks(s, LoopStep(s, l), l)
  {
    match s.loops[l].pc
    case Wanting | Serving | Pinging | Nested | Leaving => PassMarks(s, l);
    case Taking | Holding | Upgrading | Swapped | Relinquishing => SwapMarks(s, l);
    case _ => TurnMarks(s, l);
  }

  /** How a call's step moves it along its path. */
  predicate ReplMoves(s: State, s': State, r: nat)
    requires r in s.repls && r in s'.repls
  {
    && s'.rs == s.rs
    && (!s.repls[r].Spawning? ==> s'.loops == s.loops)
    && match s.repls[r]
       case Calling => s'.repls[r].Calling? || (s'.repls[r].Looking? && s.rsOwner.None? && !s.rs.Created?)
       case Looking => s'.repls[r] == (if s.rs.Running? then Offering else Announcing)
       case Announcing | Setting | Adopted | Releasing => OnPausedPath(s'.repls[r])
       case Spawning => s'.repls[r].Finished? && s'.loops == s.loops[r := Loop(Starting, None, 0)]
       case _ => !OnPausedPath(s'.repls[r]) && !s'.repls[r].Looking?
  }

  lemma OfferMoves(s: State, r: nat)
    requires r in s.repls && (s.repls[r].Offering? || s.repls[r].Offered? || s.repls[r].Closing?)
    ensures ReplMoves(s, OfferStep(s, r), r)
  {
  }

  lemma SetMoves(s: State, r: nat)
    requires r in s.repls && r !in s.loops && OnPausedPath(s.repls[r])
    ensures ReplMoves(s, SetStep(s, r), r)
  {
  }

  lemma ReplStepMoves(s: State, r: nat)
    requires r in s.repls && ReplInv(s, r)
    ensures ReplMoves(s, ReplStep(s, r), r)
  {
    match s.repls[r]
    case Calling | Looking | Finished =>
    case Offering | Offered | Closing => OfferMoves(s, r);
    case _ => SetMoves(s, r);
  }

  lemma LoopStepFrame(s: State, l: nat)
    requires l in s.loops && LoopInv(s, l)
    ensures LoopFrame(s, LoopStep(s, l), l)
  {
    match s.loops[l].pc
    case Wanting | Serving | Pinging | Nested | Leaving => PassFrame(s, l);
    case Taking | Holding | Upgrading | Swapped | Relinquishing => SwapFrame(s, l);
    case _ => TurnKeeps(s, l);
  }

  function AfterLoop(s: State, l: nat, d: Driver): Driver
    requires l in s.loops
  {
    if LoopStep(s, l).loops[l].pc.Done? && !s.loops[l].pc.Done? then NoOne else d
  }

  function AfterRepl(s: State, r: nat, d: Driver): Driver
    requires r in s.repls
  {
    match s.repls[r]
    case Looking => if s.rs.Running? then d else TheCall(r)
    case Spawning => TheLoop(r)
    case _ => d
  }

  lemma LoopDrives(s: State, l: nat, d: Driver)
    requires Inv(s) && Driven(s, d) && l in s.loops
    ensures Driven(LoopStep(s, l), AfterLoop(s, l, d))
  {
    var s', d' := LoopStep(s, l), AfterLoop(s, l, d);
    assert LoopInv(s, l) && LoopDriven(s, l, d);
    LoopStepMarks(s, l);
    LoopStepFrame(s, l);
    forall m | m in s'.loops ensures LoopDriven(s', m, d') {
      assert LoopDriven(s, m, d);
    }
    forall r | r in s'.repls ensures ReplDriven(s', r, d') {
      assert ReplDriven(s, r, d) && ReplInv(s, r);
    }
  }

  lemma ReplDrives(s: State, r: nat, d: Driver)
    requires Inv(s) && Driven(s, d) && r in s.repls && Careful(s, Replace(r))
    ensures Driven(ReplStep(s, r), AfterRepl(s, r, d))
  {
    var s', d' := ReplStep(s, r), AfterRepl(s, r, d);
    assert ReplInv(s, r) && ReplDriven(s, r, d);
    ReplStepFrame(s, r);
    ReplStepMoves(s, r);
    forall l | l in s'.loops ensures LoopDriven(s', l, d') {
      if l in s.loops {
        assert LoopDriven(s, l, d);
      }
    }
    forall q | q in s'.repls ensures ReplDriven(s', q, d') {
      assert ReplDriven(s, q, d) && ReplInv(s, q);
    }
  }

  lemma OthersDrive(s: State, a: Action, d: Driver)
    requires Driven(s, d) && !a.Advance? && !a.Replace?
    ensures Driven(Next(s, a), d)
  {
    var s' := Next(s, a);
    forall l | l in s'.loops ensures LoopDriven(s', l, d) {
      assert LoopDriven(s, l, d);
    }
    forall r | r in s'.repls ensures ReplDriven(s', r, d) {
      if r in s.repls {
        assert ReplDriven(s, r, d);
      }
    }
  }

  lemma {:induction false} StepsDrive(s: State, acts: seq<Action>, d: Driver) returns (d': Driver)
    requires Inv(s) && Driven(s, d) && CarefulRun(s, acts)
    ensures Inv(Steps(s, acts)) && Driven(Steps(s, acts), d')
    decreases |acts|
  {
    d' := d;
    if acts != [] {
      NextKeeps(s, acts[0]);
      match acts[0] {
        case Advance(l) => if l in s.loops { LoopDrives(s, l, d); d' := AfterLoop(s, l, d); }
        case Replace(r) => if r in s.repls { ReplDrives(s, r, d); d' := AfterRepl(s, r, d); }
        case _ => OthersDrive(s, acts[0], d);
      }
      d' := StepsDrive(Next(s, acts[0]), acts[1..], d');
    }
  }

  lemma WriterDrives(s: State, d: Driver)
    requires Inv(s) && Driven(s, d)
    ensures s.writer.ByLoop? ==> d == TheLoop(s.writer.l) && d.l in s.loops && LoopWrites(s.loops[d.l].pc)
    ensures s.writer.ByRepl? ==> d == TheCall(s.writer.r) && d.r in s.repls && ReplWrites(s.repls[d.r])
  {
    match s.writer
    case Nobody =>
    case ByLoop(m) => assert LoopInv(s, m) && LoopDriven(s, m, d);
    case ByRepl(r) => assert ReplInv(s, r) && ReplDriven(s, r, d);
  }

  lemma NoWriterDuringPass(s: State, d: Driver, l: nat)
    requires Inv(s) && Driven(s, d) && l in s.loops && InPass(s.loops[l].pc)
    ensures s.writer == Nobody
  {
    assert LoopDriven(s, l, d);
    WriterDrives(s, d);
  }

  lemma Starts()
    ensures Inv(Init()) && Driven(Init(), TheLoop(0))
  {
  }

  lemma OneDriver(s: State, d: Driver, l: nat)
    requires Inv(s) && Driven(s, d) && l in s.loops && !s.loops[l].pc.Done?
    ensures forall m :: m in s.loops && !s.loops[m].pc.Done? ==> m == l
    ensures s.loops[l].pc.Pinging? ==> Next(s, Advance(l)).loops == s.loops[l := s.loops[l].(pc := Nested)]
  {
    forall m | m in s.loops && !s.loops[m].pc.Done? ensures m == l {
      assert LoopDriven(s, l, d) && LoopDriven(s, m, d);
    }
    if s.loops[l].pc.Pinging? {
      NoWriterDuringPass(s, d, l);
    }
  }

  /** If every spawned loop marks itself running before the next ReplaceConn looks,
    * at most one loop is live, and the read lock that a command takes inside a
    * pass is always granted at once. */
  lemma SingleLoop(acts: seq<Action>, l: nat)
    requires CarefulRun(Init(), acts)
    requires l in Steps(Init(), acts).loops && !Steps(Init(), acts).loops[l].pc.Done?
    ensures
      var s := Steps(Init(), acts);
      && (forall m :: m in s.loops && !s.loops[m].pc.Done? ==> m == l)
      && (s.loops[l].pc.Pinging? ==> Next(s, Advance(l)).loops == s.loops[l := s.loops[l].(pc := Nested)])
  {
    hide Inv;
    hide Driven;
    Starts();
    var d := StepsDrive(Init(), acts, TheLoop(0));
    OneDriver(Steps(Init(), acts), d, l);
  }

  // ------------------------------------------------ when they do not

  ghost predicate Leads(s: State, t: State) {
    exists acts: seq<Action> :: t == Steps(s, acts)
  }

  lemma {:induction false} StepsSnoc(s: State, acts: seq<Action>, a: Action)
    ensures Steps(s, acts + [a]) == Next(Steps(s, acts), a)
    decreases |acts|
  {
    if acts == [] {
      assert acts + [a] == [a];
    } else {
      assert (acts + [a])[1..] == acts[1..] + [a];
      StepsSnoc(Next(s, acts[0]), acts[1..], a);
    }
  }

  lemma Stay(s: State)
    ensures Leads(s, s)
  {
    assert s == Steps(s, []);
  }

  lemma Then(s: State, t: State, a: Action)
    requires Leads(s, t)
    ensures Leads(s, Next(t, a))
  {
    var acts: seq<Action> :| t == Steps(s, acts);
    StepsSnoc(s, acts, a);
  }

  /** The other readers leave. */
  lemma {:induction false} Drain(s: State, t: State)
    requires Leads(s, t)
    ensures Leads(s, t.(outside := 0))
    decreases t.outside
  {
    if t.outside > 0 {
      Then(s, t, Return);
      Drain(s, t.(outside := t.outside - 1));
    } else {
      assert t == t.(outside := 0);
    }
  }

  /** A paused device after call r has set its connection and spawned its loop. */
  function AfterCall(t: State, r: nat): State {
    Adopt(t, r).(rsOwner := None, repls := t.repls[r := Finished], loops := t.loops[r := Loop(Starting, None, 0)])
  }

  lemma SetTwice(t: State, r: nat, pc: ReplPc, pc': ReplPc)
    ensures SetRepl(t, r, pc).repls[r := pc'] == t.repls[r := pc']
  {
  }

  lemma CallSets(s: State, t: State, r: nat)
    requires Leads(s, t) && t.rs.Paused? && t.writer == Nobody && Drained(t)
    requires r in t.repls && t.repls[r].Looking?
    ensures Leads(s, Adopt(SetRepl(t, r, Adopted), r).(writer := ByRepl(r)))
  {
    Then(s, t, Replace(r));
    var u := SetRepl(t, r, Announcing);
    Then(s, u, Replace(r));
    SetTwice(t, r, Announcing, Setting);
    u := SetRepl(t, r, Setting).(writer := ByRepl(r));
    Then(s, u, Replace(r));
    SetTwice(t, r, Setting, Adopted);
  }

  lemma CallEnds(s: State, t: State, r: nat)
    requires Leads(s, SetRepl(t, r, Adopted).(writer := ByRepl(r)))
    requires t.writer == Nobody && t.rsOwner == Some(r) && r !in t.loops
    ensures Leads(s, SetRepl(t, r, Finished).(rsOwner := None, loops := t.loops[r := Loop(Starting, None, 0)]))
  {
    Then(s, SetRepl(t, r, Adopted).(writer := ByRepl(r)), Replace(r));
    SetTwice(t, r, Adopted, Releasing);
    Then(s, SetRepl(t, r, Releasing), Replace(r));
    SetTwice(t, r, Releasing, Spawning);
    Then(s, SetRepl(t, r, Spawning).(rsOwner := None), Replace(r));
    SetTwice(t, r, Spawning, Finished);
  }

  lemma CallSpawns(s: State, t: State, r: nat)
    requires Leads(s, t) && t.rs.Paused? && t.writer == Nobody && Drained(t) && t.rsOwner == Some(r)
    requires r in t.repls && t.repls[r].Looking? && r !in t.loops
    ensures Leads(s, AfterCall(t, r))
  {
    CallSets(s, t, r);
    CallEnds(s, Adopt(t, r), r);
  }

  /** Two loops at the start of _run on a device that nobody else is using. */
  ghost predicate TwoStarting(s: State, a: nat, b: nat) {
    && a != b && a in s.loops && b in s.loops && s.loops[a].pc.Starting? && s.loops[b].pc.Starting?
    && s.rsOwner.None? && s.nextOwner.None? && s.writer == Nobody && Drained(s)
  }

  /** What carefulness leaves when a call looks too early. */
  lemma CarelessState(s: State, d: Driver, r: nat)
    requires Inv(s) && Driven(s, d) && s.rs.Paused? && s.rsOwner.None? && !Careful(s, Replace(r))
    ensures s.writer == Nobody && s.reading == {} && s.nextOwner.None?
    ensures match d
      case NoOne => false
      case TheLoop(l) => l in s.loops && s.loops[l].pc.Starting?
      case TheCall(q) => q in s.repls && s.repls[q].Spawning?
  {
    if l :| l in s.loops && s.loops[l].pc.Starting? {
      assert LoopDriven(s, l, d);
    } else {
      var q :| q in s.repls && s.repls[q].Spawning?;
      assert ReplDriven(s, q, d) && ReplInv(s, q);
    }
    WriterDrives(s, d);
    forall m | m in s.loops ensures s.loops[m].pc.Starting? || s.loops[m].pc.Done? {
      assert LoopDriven(s, m, d);
    }
    forall m | m in s.loops ensures m !in s.reading && s.nextOwner != Some(m) {
      assert LoopInv(s, m);
    }
  }

  lemma LateSpawn(s: State, t: State, r: nat, d: Driver) returns (u: State, a: nat)
    requires Leads(s, t) && t.rsOwner.None? && t.nextOwner.None? && t.writer == Nobody && Drained(t)
    requires r in t.loops && t.loops[r].pc.Starting?
    requires match d
      case NoOne => false
      case TheLoop(l) => l != r && l in t.loops && t.loops[l].pc.Starting?
      case TheCall(q) => q != r && q in t.repls && t.repls[q].Spawning? && q !in t.loops
    ensures Leads(s, u) && TwoStarting(u, a, r) && u.stopped == t.stopped && u.repls.Keys == t.repls.Keys
  {
    u := t;
    if d.TheLoop? {
      a := d.l;
    } else {
      a := d.r;
      Then(s, t, Replace(a));
      u := Next(t, Replace(a));
    }
  }

  /** The condition in SingleLoop is needed.  Whenever ReplaceConn on a paused
    * device looks before a spawned loop has marked itself running, the run can go
    * on to have two loops. */
  lemma CarelessTwoLoops(acts: seq<Action>, r: nat) returns (t: State, a: nat)
    requires CarefulRun(Init(), acts)
    requires var s := Steps(Init(), acts);
      s.rs.Paused? && s.rsOwner.None? && r in s.repls && s.repls[r].Calling? && !Careful(s, Replace(r))
    ensures Leads(Next(Steps(Init(), acts), Replace(r)), t) && TwoStarting(t, a, r)
    ensures t.stopped == Steps(Init(), acts).stopped && t.repls.Keys == Steps(Init(), acts).repls.Keys
  {
    var s := Steps(Init(), acts);
    var d := StepsDrive(Init(), acts, TheLoop(0));
    t, a := CarelessFrom(s, d, r);
  }

  lemma CarelessFrom(s: State, d: Driver, r: nat) returns (t: State, a: nat)
    requires Inv(s) && Driven(s, d) && s.rs.Paused? && s.rsOwner.None?
    requires r in s.repls && s.repls[r].Calling? && !Careful(s, Replace(r))
    ensures Leads(Next(s, Replace(r)), t) && TwoStarting(t, a, r) && t.stopped == s.stopped
    ensures t.repls.Keys == s.repls.Keys
  {
    assert ReplInv(s, r);
    CarelessState(s, d, r);
    var s1 := Next(s, Replace(r));
    Stay(s1);
    Drain(s1, s1);
    t := s1.(outside := 0);
    CallSpawns(s1, t, r);
    if d.TheCall? {
      assert ReplInv(s, d.r);
    }
    t, a := LateSpawn(s1, AfterCall(t, r), r, d);
  }

  /** Two loops inside a pass, with no lock held but their read locks. */
  ghost predicate TwoServing(s: State, a: nat, b: nat) {
    && a != b && a in s.loops && b in s.loops && s.loops[a].pc.Serving? && s.loops[b].pc.Serving?
    && b in s.reading && s.rs.Running? && s.nextOwner.None? && s.writer == Nobody
  }

  /** Loop a waits for the readers to leave while reader b waits for it. */
  ghost predicate Deadlocked(s: State, a: nat, b: nat) {
    && a in s.loops && b in s.loops && s.loops[a].pc.Upgrading? && s.loops[b].pc.Pinging?
    && s.writer == ByLoop(a) && b in s.reading
  }

  lemma BothServe(s: State, t: State, a: nat, b: nat) returns (u: State)
    requires Leads(s, t) && TwoStarting(t, a, b)
    ensures Leads(s, u) && TwoServing(u, a, b) && u.rsOwner.None? && u.stopped == t.stopped && u.repls == t.repls
  {
    Then(s, t, Advance(a));
    u := Next(t, Advance(a));
    Then(s, u, Advance(b));
    u := Next(u, Advance(b));
    Then(s, u, Advance(a));
    u := Next(u, Advance(a));
    Then(s, u, Advance(b));
    u := Next(u, Advance(b));
  }

  lemma CallOffers(s: State, t: State, a: nat, b: nat, r: nat) returns (u: State)
    requires Leads(s, t) && TwoServing(t, a, b) && t.rsOwner.None? && r !in t.repls && r != 0
    ensures Leads(s, u) && TwoServing(u, a, b) && u.next == Some(r) && u.stopped == t.stopped
  {
    Then(s, t, Give(r));
    u := Next(t, Give(r));
    Then(s, u, Replace(r));
    u := Next(u, Replace(r));
    Then(s, u, Replace(r));
    u := Next(u, Replace(r));
    Then(s, u, Replace(r));
    u := Next(u, Replace(r));
  }

  lemma SetLoopTwice(t: State, l: nat, pc: LoopPc, pc': LoopPc)
    requires l in t.loops
    ensures SetLoop(SetLoop(t, l, pc), l, pc').loops == SetLoop(t, l, pc').loops
  {
  }

  /** A pass fails and its loop turns to c_next. */
  lemma LeavesPass(s: State, t: State, l: nat)
    requires Leads(s, t) && l in t.loops && t.loops[l].pc.Serving? && !t.stopped
    ensures Leads(s, SetLoop(t, l, Taking).(closed := t.closed + {t.conn}, reading := t.reading - {l}))
  {
    Then(s, t, Advance(l));
    var u := SetLoop(t, l, Leaving).(closed := t.closed + {t.conn});
    Then(s, u, Advance(l));
    SetLoopTwice(t, l, Leaving, Checking);
    u := SetLoop(t, l, Checking).(closed := t.closed + {t.conn}, reading := t.reading - {l});
    Then(s, u, Advance(l));
    SetLoopTwice(t, l, Checking, Taking);
  }

  lemma OneWaits(s: State, t: State, a: nat, b: nat) returns (u: State)
    requires Leads(s, t) && TwoServing(t, a, b) && t.next.Some? && !t.stopped
    ensures Leads(s, u) && Deadlocked(u, a, b)
  {
    Then(s, t, Ping(b));
    u := Next(t, Ping(b));
    LeavesPass(s, u, a);
    u := SetLoop(u, a, Taking).(closed := u.closed + {u.conn}, reading := u.reading - {a});
    assert u.loops[a].pc.Taking? && u.loops[b].pc.Pinging? && b in u.reading;
    Then(s, u, Advance(a));
    u := Next(u, Advance(a));
    Then(s, u, Advance(a));
    u := Next(u, Advance(a));
  }

  /** With two loops the nested read lock can deadlock: one more ReplaceConn, and
    * a read timeout in one loop while the other fetches the new connection. */
  lemma TwoLoopsDeadlock(s: State, a: nat, b: nat, r: nat) returns (t: State)
    requires TwoStarting(s, a, b) && !s.stopped && r !in s.repls && r != 0
    ensures Leads(s, t) && Deadlocked(t, a, b)
  {
    Stay(s);
    t := BothServe(s, s, a, b);
    t := CallOffers(s, t, a, b, r);
    t := OneWaits(s, t, a, b);
  }

  lemma DeadlockLoop(s: State, a: nat, b: nat, l: nat)
    requires Inv(s) && Deadlocked(s, a, b) && l in s.loops
    ensures Deadlocked(LoopStep(s, l), a, b)
  {
    assert LoopInv(s, l);
    LoopStepFrame(s, l);
  }

  lemma DeadlockCall(s: State, a: nat, b: nat, r: nat)
    requires Inv(s) && Deadlocked(s, a, b) && r in s.repls
    ensures Deadlocked(ReplStep(s, r), a, b)
  {
    assert ReplInv(s, r);
    ReplStepFrame(s, r);
  }

  lemma DeadlockStep(s: State, a: nat, b: nat, act: Action)
    requires Inv(s) && Deadlocked(s, a, b)
    ensures Deadlocked(Next(s, act), a, b)
  {
    match act
    case Advance(l) => if l in s.loops { DeadlockLoop(s, a, b, l); }
    case Replace(r) => if r in s.repls { DeadlockCall(s, a, b, r); }
    case _ =>
  }

  /** That deadlock is permanent. */
  lemma {:induction false} DeadlockStays(s: State, a: nat, b: nat, acts: seq<Action>)
    requires Inv(s) && Deadlocked(s, a, b)
    ensures Deadlocked(Steps(s, acts), a, b)
    decreases |acts|
  {
    if acts != [] {
      NextKeeps(s, acts[0]);
      DeadlockStep(s, a, b, acts[0]);
      DeadlockStays(Next(s, acts[0]), a, b, acts[1..]);
    }
  }

  /** ReplaceConn closes whatever connection it finds after it has released rs_mu:
    * when the pass ends by itself in between, that is the connection it has just
    * handed over. */
  lemma CallClosesItsOwn(s: State, l: nat, r: nat) returns (t: State)
    requires l in s.loops && s.loops[l].pc.Serving? && s.reading == {l} && s.outside == 0 && !s.stopped
    requires r in s.repls && s.repls[r].Closing? && s.next == Some(r) && s.nextOwner.None? && s.writer == Nobody
    ensures Leads(s, t) && t.conn == r && r in t.closed && l in t.loops && t.loops[l].pc.Swapped?
    ensures r in t.repls && t.repls[r].Finished?
  {
    Stay(s);
    LeavesPass(s, s, l);
    t := SetLoop(s, l, Taking).(closed := s.closed + {s.conn}, reading := s.reading - {l});
    assert t.reading == {};
    Then(s, t, Advance(l));
    t := Next(t, Advance(l));
    Then(s, t, Advance(l));
    t := Next(t, Advance(l));
    Then(s, t, Advance(l));
    t := Next(t, Advance(l));
    Then(s, t, Replace(r));
    t := Next(t, Replace(r));
  }
}
