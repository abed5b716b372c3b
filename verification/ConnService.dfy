/** internal/gpsv2/device/gt06: every connection that a device adopts is served.
  *
  * The passes begun in a run are listed beside it.  Runs are careful as in
  * ConnHandoff: without that two loops can serve one connection.
  */
module ConnService {
  import opened Options
  import opened ConnHandoff

  /** The connection of the pass that an action begins. */
  function Begun(s: State, a: Action): seq<nat> {
    if a.Advance? && a.l in s.loops && s.loops[a.l].pc.Wanting? && LoopStep(s, a.l).loops[a.l].pc.Serving?
       && LoopStep(s, a.l).loops[a.l].served.Some?
    then [LoopStep(s, a.l).loops[a.l].served.value]
    else []
  }

  function Begins(s: State, acts: seq<Action>): seq<nat>
    decreases |acts|
  {
    if acts == [] then [] else Begun(s, acts[0]) + Begins(Next(s, acts[0]), acts[1..])
  }

  // ------------------------------------------------------------------ invariant

  /** A loop that still has to begin the pass of the present connection. */
  predicate Unserved(pc: LoopPc) {
    pc.Starting? || pc.Wanting? || pc.Swapped? || pc.Relinquishing? || pc.Sleeping?
  }

  /** A call that has set the connection and not spawned its loop yet. */
  predicate Passed(pc: ReplPc) {
    pc.Adopted? || pc.Releasing? || pc.Spawning?
  }

  /** All adopted connections but the last have been served, in order. */
  predicate Owes(begun: seq<nat>, adopted: seq<nat>) {
    adopted != [] && begun == adopted[..|adopted| - 1]
  }

  ghost predicate LoopService(s: State, l: nat, begun: seq<nat>)
    requires l in s.loops
  {
    if Unserved(s.loops[l].pc) then Owes(begun, s.adopted)
    else begun == s.adopted && s.loops[l].served == Some(s.conn)
  }

  /** The loop that served the present connection is over. */
  ghost predicate OverAndServed(s: State) {
    exists l :: l in s.loops && s.loops[l].pc.Done? && s.loops[l].served == Some(s.conn)
  }

  ghost predicate Service(s: State, d: Driver, begun: seq<nat>) {
    match d
    case NoOne => begun == s.adopted && OverAndServed(s)
    case TheLoop(l) => l in s.loops && LoopService(s, l, begun)
    case TheCall(r) =>
      && r in s.repls
      && if Passed(s.repls[r]) then Owes(begun, s.adopted) else begun == s.adopted && OverAndServed(s)
  }

  /** An offer under way keeps the device running. */
  ghost predicate OffersRunning(s: State) {
    forall r :: r in s.repls && (s.repls[r].Offering? || s.repls[r].Offered?) ==> s.rs.Running?
  }

  // ----------------------------------------------------------------- preservation

  lemma LastAdopted(s: State)
    requires Inv(s)
    ensures s.adopted != [] && s.adopted == s.adopted[..|s.adopted| - 1] + [s.conn]
  {
  }

  lemma BeginServes(s: State, l: nat, begun: seq<nat>)
    requires Inv(s) && l in s.loops && LoopService(s, l, begun) && s.loops[l].pc.Wanting?
    ensures LoopService(PassStep(s, l), l, begun + Begun(s, Advance(l)))
  {
    LastAdopted(s);
    hide Inv;
  }

  lemma PassServes(s: State, l: nat, begun: seq<nat>)
    requires l in s.loops && LoopService(s, l, begun) && InPass(s.loops[l].pc)
    ensures LoopService(PassStep(s, l), l, begun) && Begun(s, Advance(l)) == []
  {
  }

  lemma SwapServes(s: State, l: nat, begun: seq<nat>)
    requires l in s.loops && LoopService(s, l, begun)
    requires s.loops[l].pc.Taking? || HoldsNext(s.loops[l].pc)
    ensures LoopService(SwapStep(s, l), l, begun) && Begun(s, Advance(l)) == []
  {
    if s.loops[l].pc.Upgrading? && s.next.Some? {
      assert (s.adopted + [s.next.value])[..|s.adopted|] == s.adopted;
    }
  }

  lemma TurnServes(s: State, l: nat, begun: seq<nat>)
    requires l in s.loops && LoopService(s, l, begun)
    requires s.loops[l].pc.Starting? || s.loops[l].pc.Checking? || s.loops[l].pc.Sleeping? || s.loops[l].pc.Ending?
    ensures LoopService(TurnStep(s, l), l, begun) && Begun(s, Advance(l)) == []
  {
  }

  lemma LoopServes(s: State, l: nat, begun: seq<nat>)
    requires Inv(s) && l in s.loops && !s.loops[l].pc.Done? && LoopService(s, l, begun)
    ensures LoopService(LoopStep(s, l), l, begun + Begun(s, Advance(l)))
  {
    hide Inv;
    hide LoopService;
    hide PassStep;
    hide SwapStep;
    hide TurnStep;
    hide Begun;
    assert begun + [] == begun;
    match s.loops[l].pc
    case Wanting => BeginServes(s, l, begun);
    case Serving | Pinging | Nested | Leaving => PassServes(s, l, begun);
    case Taking | Holding | Upgrading | Swapped | Relinquishing => SwapServes(s, l, begun);
    case _ => TurnServes(s, l, begun);
  }

  lemma AdvanceServes(s: State, l: nat, d: Driver, begun: seq<nat>)
    requires Inv(s) && Driven(s, d) && Service(s, d, begun) && l in s.loops
    ensures Service(LoopStep(s, l), AfterLoop(s, l, d), begun + Begun(s, Advance(l)))
  {
    assert LoopDriven(s, l, d);
    if s.loops[l].pc.Done? {
      assert begun + [] == begun;
    } else {
      LoopServes(s, l, begun);
      hide LoopStep;
      hide Begun;
      hide Inv;
    }
  }

  lemma ReplaceServes(s: State, r: nat, d: Driver, begun: seq<nat>)
    requires Inv(s) && Driven(s, d) && Service(s, d, begun) && r in s.repls
    ensures Service(ReplStep(s, r), AfterRepl(s, r, d), begun)
  {
    assert ReplInv(s, r) && ReplDriven(s, r, d);
    ReplStepFrame(s, r);
    ReplStepMoves(s, r);
    CallServes(s, r, begun);
    hide ReplStep;
    hide Inv;
    hide ReplFrame;
  }

  /** How a call's step hands over. */
  lemma CallServes(s: State, r: nat, begun: seq<nat>)
    requires r in s.repls && ReplInv(s, r)
    ensures
      var s' := ReplStep(s, r);
      && r in s'.repls && s'.repls == s.repls[r := s'.repls[r]]
      && (Passed(s.repls[r]) || !Passed(s'.repls[r]) ==> s'.conn == s.conn && s'.adopted == s.adopted)
      && (!Passed(s.repls[r]) && Passed(s'.repls[r]) ==> begun == s.adopted ==> Owes(begun, s'.adopted))
      && (s.repls[r].Looking? && !s.rs.Running? ==> s'.repls[r].Announcing?)
      && (Passed(s.repls[r]) && !s.repls[r].Spawning? ==> Passed(s'.repls[r]))
  {
    if s.repls[r].Setting? {
      assert (s.adopted + [r])[..|s.adopted|] == s.adopted;
    }
  }

  lemma SameServes(s: State, s': State, d: Driver, begun: seq<nat>)
    requires Service(s, d, begun) && s'.conn == s.conn && s'.adopted == s.adopted
    requires s.loops.Keys <= s'.loops.Keys && s.repls.Keys <= s'.repls.Keys
    requires forall r :: r in s.repls ==> s'.repls[r] == s.repls[r]
    requires forall l :: l in s.loops ==>
      s'.loops[l] == s.loops[l] || (s.loops[l].pc.Serving? && s'.loops[l] == s.loops[l].(pc := Pinging))
    ensures Service(s', d, begun)
  {
    if OverAndServed(s) {
      var l :| l in s.loops && s.loops[l].pc.Done? && s.loops[l].served == Some(s.conn);
      assert l in s'.loops && s'.loops[l] == s.loops[l];
    }
  }

  lemma OthersServe(s: State, a: Action, d: Driver, begun: seq<nat>)
    requires Service(s, d, begun) && !a.Advance? && !a.Replace?
    ensures Service(Next(s, a), d, begun)
  {
    hide Service;
    SameServes(s, Next(s, a), d, begun);
  }

  lemma NextOffersRunning(s: State, a: Action)
    requires Inv(s) && OffersRunning(s)
    ensures OffersRunning(Next(s, a))
  {
    var s' := Next(s, a);
    match a
    case Advance(l) =>
      if l in s.loops {
        LoopStepMarks(s, l);
        assert LoopInv(s, l);
        LoopStepFrame(s, l);
      }
    case Replace(r) =>
      if r in s.repls {
        assert ReplInv(s, r);
        ReplStepFrame(s, r);
        ReplStepMoves(s, r);
      }
    case _ =>
    forall r | r in s'.repls && (s'.repls[r].Offering? || s'.repls[r].Offered?) ensures s'.rs.Running? {
      if r in s.repls {
        assert ReplInv(s, r);
      }
    }
  }

  lemma {:induction false} StepsServe(s: State, acts: seq<Action>, d: Driver, begun: seq<nat>) returns (d': Driver)
    requires Inv(s) && Driven(s, d) && CarefulRun(s, acts) && Service(s, d, begun) && OffersRunning(s)
    ensures var t := Steps(s, acts);
      Inv(t) && Driven(t, d') && Service(t, d', begun + Begins(s, acts)) && OffersRunning(t)
    decreases |acts|
  {
    hide Inv;
    hide Driven;
    hide Service;
    hide OffersRunning;
    hide LoopStep;
    hide ReplStep;
    d' := d;
    if acts == [] {
      assert begun + [] == begun;
    } else {
      var a, now := acts[0], begun + Begun(s, acts[0]);
      NextKeeps(s, a);
      NextOffersRunning(s, a);
      match a {
        case Advance(l) =>
          if l in s.loops {
            LoopDrives(s, l, d);
            AdvanceServes(s, l, d, begun);
            d' := AfterLoop(s, l, d);
          }
        case Replace(r) =>
          if r in s.repls {
            ReplDrives(s, r, d);
            ReplaceServes(s, r, d, begun);
            d' := AfterRepl(s, r, d);
          }
        case _ =>
          OthersDrive(s, a, d);
          OthersServe(s, a, d, begun);
      }
      assert Begun(s, a) == [] ==> now == begun;
      d' := StepsServe(Next(s, a), acts[1..], d', now);
      assert begun + Begins(s, acts) == now + Begins(Next(s, a), acts[1..]);
    }
  }

  // ------------------------------------------------------------------- theorems

  lemma StartsServing()
    ensures Service(Init(), TheLoop(0), []) && OffersRunning(Init())
  {
    assert [0][..0] == [];
  }

  /** Over every careful run each adopted connection gets one pass, in the order of
    * adoption; only the last may still wait for its own.  A loop that is about to
    * pause the device has served its connection, and so has the loop that ended last
    * on a paused device that no call has given another one. */
  lemma ServedInOrder(acts: seq<Action>, l: nat)
    requires CarefulRun(Init(), acts) && l in Steps(Init(), acts).loops
    ensures
      var s, begun := Steps(Init(), acts), Begins(Init(), acts);
      && (begun == s.adopted || Owes(begun, s.adopted))
      && (s.loops[l].pc.Ending? ==> begun == s.adopted && s.loops[l].served == Some(s.conn))
      && ((forall m :: m in s.loops ==> s.loops[m].pc.Done?) && (forall r :: r in s.repls ==> !Passed(s.repls[r])) ==>
            begun == s.adopted && OverAndServed(s))
  {
    Starts();
    StartsServing();
    var d := StepsServe(Init(), acts, TheLoop(0), []);
    assert [] + Begins(Init(), acts) == Begins(Init(), acts);
    var s := Steps(Init(), acts);
    assert LoopDriven(s, l, d);
    hide Inv;
  }

  lemma OverStays(s: State, a: Action, l: nat)
    requires l in s.loops && (s.loops[l].pc.Ending? || s.loops[l].pc.Done?)
    ensures
      var s' := Next(s, a);
      l in s'.loops && (s'.loops[l].pc.Ending? || s'.loops[l].pc.Done?) && s'.loops[l].served == s.loops[l].served
  {
    match a
    case Advance(m) =>
      if m in s.loops {
        LoopReaders(s, m);
        if m == l {
        } else {
          hide LoopStep;
        }
      }
    case Replace(r) =>
      if r in s.repls {
        CallReaders(s, r);
        hide ReplStep;
      }
    case _ =>
  }

  lemma {:induction false} OverKeepsServed(s: State, acts: seq<Action>, l: nat)
    requires l in s.loops && (s.loops[l].pc.Ending? || s.loops[l].pc.Done?)
    ensures
      var t := Steps(s, acts);
      l in t.loops && (t.loops[l].pc.Ending? || t.loops[l].pc.Done?) && t.loops[l].served == s.loops[l].served
    decreases |acts|
  {
    if acts != [] {
      OverStays(s, acts[0], l);
      hide Next;
      OverKeepsServed(Next(s, acts[0]), acts[1..], l);
    }
  }

  /** A loop that ended in a careful run has served the device connection, whatever
    * happens after it, as long as no other connection is handed over. */
  lemma EndedLoopServed(acts: seq<Action>, later: seq<Action>, l: nat)
    requires CarefulRun(Init(), acts)
    requires l in Steps(Init(), acts).loops && Steps(Init(), acts).loops[l].pc.Ending?
    requires Steps(Steps(Init(), acts), later).conn == Steps(Init(), acts).conn
    ensures var t := Steps(Steps(Init(), acts), later); l in t.loops && t.loops[l].served == Some(t.conn)
  {
    ServedInOrder(acts, l);
    OverKeepsServed(Steps(Init(), acts), later, l);
  }

  function BeginRank(pc: LoopPc): nat {
    match pc case Swapped => 4 case Relinquishing => 3 case Sleeping => 2 case Starting => 2 case _ => 1
  }

  /** A loop that is about to begin a pass gets to it. */
  lemma {:induction false} LoopBegins(s: State, t: State, l: nat) returns (u: State)
    requires Leads(s, t) && l in t.loops && Unserved(t.loops[l].pc)
    requires t.loops[l].pc.Swapped? || t.writer == Nobody
    requires t.loops[l].pc.Starting? ==> t.rsOwner.None?
    ensures Leads(s, u) && u.conn == t.conn
    ensures l in u.loops && u.loops[l].pc.Serving? && u.loops[l].served == Some(t.conn)
    decreases BeginRank(t.loops[l].pc)
  {
    Then(s, t, Advance(l));
    u := Next(t, Advance(l));
    if !t.loops[l].pc.Wanting? {
      u := LoopBegins(s, u, l);
    }
  }

  /** From every state that some run reaches just after a loop has adopted a connection
    * the run can go on to that loop serving it. */
  lemma AdoptedByLoop(acts: seq<Action>, l: nat) returns (t: State)
    requires l in Steps(Init(), acts).loops && Steps(Init(), acts).loops[l].pc.Swapped?
    ensures Leads(Steps(Init(), acts), t) && t.conn == Steps(Init(), acts).conn
    ensures l in t.loops && t.loops[l].pc.Serving? && t.loops[l].served == Some(t.conn)
  {
    Stay(Steps(Init(), acts));
    t := LoopBegins(Steps(Init(), acts), Steps(Init(), acts), l);
  }

  function SpawnRank(pc: ReplPc): nat {
    match pc case Adopted => 3 case Releasing => 2 case _ => 1
  }

  /** A call that has set the connection spawns the loop that serves it. */
  lemma {:induction false} CallBegins(s: State, t: State, r: nat) returns (u: State)
    requires Leads(s, t) && r in t.repls && Passed(t.repls[r]) && r !in t.loops
    requires if t.repls[r].Adopted? then t.writer == ByRepl(r) else t.writer == Nobody
    requires if t.repls[r].Spawning? then t.rsOwner.None? else t.rsOwner == Some(r)
    ensures Leads(s, u) && u.conn == t.conn
    ensures r in u.loops && u.loops[r].pc.Serving? && u.loops[r].served == Some(t.conn)
    decreases SpawnRank(t.repls[r])
  {
    Then(s, t, Replace(r));
    u := Next(t, Replace(r));
    if t.repls[r].Spawning? {
      u := LoopBegins(s, u, r);
    } else {
      u := CallBegins(s, u, r);
    }
  }

  /** From every state that some run reaches just after a call has set its connection
    * the run can go on to the loop of that call serving it. */
  lemma AdoptedByCall(acts: seq<Action>, r: nat) returns (t: State)
    requires r in Steps(Init(), acts).repls && Steps(Init(), acts).repls[r].Adopted?
    ensures Leads(Steps(Init(), acts), t) && t.conn == Steps(Init(), acts).conn
    ensures r in t.loops && t.loops[r].pc.Serving? && t.loops[r].served == Some(t.conn)
  {
    StepsKeep(Init(), acts);
    var s := Steps(Init(), acts);
    assert ReplInv(s, r);
    Stay(s);
    t := CallBegins(s, s, r);
  }

  lemma NobodyHoldsRs(s: State, d: Driver)
    requires Inv(s) && Driven(s, d) && OffersRunning(s) && !s.rs.Running?
    requires match d case NoOne => false case TheLoop(l) => true case TheCall(r) => r in s.repls && s.repls[r].Spawning?
    ensures s.rsOwner.None?
  {
    assert s.rsOwner.Some? ==> ReplInv(s, s.rsOwner.value) && ReplDriven(s, s.rsOwner.value, d);
  }

  /** In every careful run, whenever the last adopted connection has not been served yet,
    * the run can go on to the pass that serves it. */
  lemma OwedGetsServed(acts: seq<Action>) returns (t: State, l: nat)
    requires CarefulRun(Init(), acts) && Begins(Init(), acts) != Steps(Init(), acts).adopted
    ensures Leads(Steps(Init(), acts), t) && t.conn == Steps(Init(), acts).conn
    ensures l in t.loops && t.loops[l].pc.Serving? && t.loops[l].served == Some(t.conn)
  {
    Starts();
    StartsServing();
    var d := StepsServe(Init(), acts, TheLoop(0), []);
    assert [] + Begins(Init(), acts) == Begins(Init(), acts);
    var s := Steps(Init(), acts);
    Stay(s);
    match d
    case TheLoop(m) =>
      l := m;
      LoopReady(s, d, m);
      t := LoopBegins(s, s, m);
    case TheCall(r) =>
      l := r;
      CallReady(s, d, r);
      t := CallBegins(s, s, r);
  }

  lemma LoopReady(s: State, d: Driver, l: nat)
    requires Inv(s) && Driven(s, d) && OffersRunning(s) && d == TheLoop(l)
    ensures l in s.loops && (Unserved(s.loops[l].pc) ==> s.loops[l].pc.Swapped? || s.writer == Nobody)
    ensures s.loops[l].pc.Starting? ==> s.rsOwner.None?
  {
    assert LoopDriven(s, l, d);
    WriterDrives(s, d);
    if s.loops[l].pc.Starting? {
      NobodyHoldsRs(s, d);
    }
  }

  lemma CallReady(s: State, d: Driver, r: nat)
    requires Inv(s) && Driven(s, d) && OffersRunning(s) && d == TheCall(r)
    ensures r in s.repls && (Passed(s.repls[r]) ==>
      && r !in s.loops
      && (if s.repls[r].Adopted? then s.writer == ByRepl(r) else s.writer == Nobody)
      && (if s.repls[r].Spawning? then s.rsOwner.None? else s.rsOwner == Some(r)))
  {
    assert ReplInv(s, r) && ReplDriven(s, r, d);
    WriterDrives(s, d);
    if s.repls[r].Spawning? {
      NobodyHoldsRs(s, d);
    }
  }

  // ------------------------------------------------------- commands and readers

  /** A command sent inside a pass leaves the pass, and everything else, as it was. */
  lemma CommandInPass(acts: seq<Action>, l: nat)
    requires CarefulRun(Init(), acts)
    requires l in Steps(Init(), acts).loops && Steps(Init(), acts).loops[l].pc.Serving?
    ensures var s := Steps(Init(), acts);
      Next(Next(Next(s, Ping(l)), Advance(l)), Advance(l)) == s
  {
    Starts();
    var d := StepsDrive(Init(), acts, TheLoop(0));
    NoWriterDuringPass(Steps(Init(), acts), d, l);
    PingReturns(Steps(Init(), acts), l);
  }

  lemma PingReturns(s: State, l: nat)
    requires l in s.loops && s.loops[l].pc.Serving? && s.writer == Nobody
    ensures Next(Next(Next(s, Ping(l)), Advance(l)), Advance(l)) == s
  {
    var s1 := SetLoop(s, l, Pinging);
    var s2 := SetLoop(s, l, Nested);
    assert Next(s, Ping(l)) == s1;
    SetLoopTwice(s, l, Pinging, Nested);
    assert Next(s1, Advance(l)) == s2;
    SetLoopTwice(s, l, Nested, Serving);
    assert s.loops[l := s.loops[l]] == s.loops;
  }

  /** Whoever has the write lock of c_mu has it alone. */
  ghost predicate Exclusive(s: State) {
    && (forall l :: l in s.loops && s.loops[l].pc.Swapped? ==> Drained(s))
    && (forall r :: r in s.repls && s.repls[r].Adopted? ==> Drained(s))
  }

  /** What a step may do to the readers. */
  predicate Readers(s: State, s': State) {
    s'.reading <= s.reading && s'.outside <= s.outside
  }

  ghost predicate LoopReading(s: State, s': State, l: nat) {
    && l in s.loops && l in s'.loops && s'.loops == s.loops[l := s'.loops[l]] && s'.repls == s.repls
    && (s.writer != Nobody ==> Readers(s, s'))
    && (s'.loops[l].pc.Swapped? ==> Drained(s'))
  }

  lemma PassReading(s: State, l: nat)
    requires l in s.loops && !s.loops[l].pc.Swapped?
    ensures LoopReading(s, PassStep(s, l), l)
  {
  }

  lemma SwapReading(s: State, l: nat)
    requires l in s.loops && (s.loops[l].pc.Taking? || HoldsNext(s.loops[l].pc))
    ensures LoopReading(s, SwapStep(s, l), l)
  {
  }

  lemma TurnReading(s: State, l: nat)
    requires l in s.loops && !s.loops[l].pc.Swapped?
    ensures LoopReading(s, TurnStep(s, l), l)
  {
  }

  lemma LoopReaders(s: State, l: nat)
    requires l in s.loops
    ensures LoopReading(s, LoopStep(s, l), l)
  {
    hide LoopReading;
    hide PassStep;
    hide SwapStep;
    hide TurnStep;
    match s.loops[l].pc
    case Wanting | Serving | Pinging | Nested | Leaving => PassReading(s, l);
    case Taking | Holding | Upgrading | Swapped | Relinquishing => SwapReading(s, l);
    case _ => TurnReading(s, l);
  }

  ghost predicate CallReading(s: State, s': State, r: nat) {
    && r in s.repls && r in s'.repls && s'.repls == s.repls[r := s'.repls[r]] && Readers(s, s')
    && (s'.loops == s.loops || (r !in s.loops && s'.loops == s.loops[r := Loop(Starting, None, 0)]))
    && (s'.repls[r].Adopted? ==> Drained(s'))
  }

  lemma SetReading(s: State, r: nat)
    requires r in s.repls && OnPausedPath(s.repls[r])
    ensures CallReading(s, SetStep(s, r), r)
  {
  }

  lemma OfferReading(s: State, r: nat)
    requires r in s.repls && (s.repls[r].Offering? || s.repls[r].Offered? || s.repls[r].Closing?)
    ensures CallReading(s, OfferStep(s, r), r)
  {
  }

  lemma CallReaders(s: State, r: nat)
    requires r in s.repls
    ensures CallReading(s, ReplStep(s, r), r)
  {
    match s.repls[r]
    case Calling | Looking | Finished =>
    case Offering | Offered | Closing =>
      OfferReading(s, r);
      hide OfferStep;
    case _ =>
      SetReading(s, r);
      hide SetStep;
  }

  lemma WriterTaken(s: State)
    requires Inv(s)
    ensures forall l :: l in s.loops && s.loops[l].pc.Swapped? ==> s.writer != Nobody
    ensures forall r :: r in s.repls && s.repls[r].Adopted? ==> s.writer != Nobody
  {
    forall l | l in s.loops && s.loops[l].pc.Swapped? ensures s.writer != Nobody {
      assert LoopInv(s, l);
    }
    forall r | r in s.repls && s.repls[r].Adopted? ensures s.writer != Nobody {
      assert ReplInv(s, r);
    }
  }

  lemma NextExclusive(s: State, a: Action)
    requires Inv(s) && Exclusive(s)
    ensures Exclusive(Next(s, a))
  {
    WriterTaken(s);
    hide Inv;
    match a
    case Advance(l) =>
      if l in s.loops {
        LoopReaders(s, l);
        hide LoopStep;
      }
    case Replace(r) =>
      if r in s.repls {
        CallReaders(s, r);
        hide ReplStep;
      }
    case _ =>
  }

  /** Over every run nobody reads the device connection while it is being replaced. */
  lemma {:induction false} StepsExclusive(s: State, acts: seq<Action>)
    requires Inv(s) && Exclusive(s)
    ensures Exclusive(Steps(s, acts))
    decreases |acts|
  {
    hide Inv;
    hide Exclusive;
    if acts != [] {
      NextKeeps(s, acts[0]);
      NextExclusive(s, acts[0]);
      StepsExclusive(Next(s, acts[0]), acts[1..]);
    }
  }

  lemma ReplacedAlone(acts: seq<Action>)
    ensures Exclusive(Steps(Init(), acts))
  {
    Starts();
    StepsExclusive(Init(), acts);
  }

  lemma ReaderKeepsConn(s: State, a: Action)
    requires s.outside > 0 && !a.Return?
    ensures Next(s, a).conn == s.conn && Next(s, a).outside > 0
  {
  }

  lemma {:induction false} ReadersKeepConn(s: State, acts: seq<Action>)
    requires s.outside > 0 && forall i :: 0 <= i < |acts| ==> !acts[i].Return?
    ensures Steps(s, acts).conn == s.conn
    decreases |acts|
  {
    if acts != [] {
      ReaderKeepsConn(s, acts[0]);
      hide Next;
      ReadersKeepConn(Next(s, acts[0]), acts[1..]);
    }
  }

  /** A connection that has been borrowed stays the device connection until somebody
    * returns one, whatever else happens. */
  lemma BorrowedStays(s: State, acts: seq<Action>)
    requires s.writer == Nobody && forall i :: 0 <= i < |acts| ==> !acts[i].Return?
    ensures Steps(Next(s, Borrow), acts).conn == s.conn
  {
    ReadersKeepConn(Next(s, Borrow), acts);
  }

  // ----------------------------------------------------------------------- Stop

  /** The passes that loop l begins. */
  function Passes(s: State, acts: seq<Action>, l: nat): nat
    decreases |acts|
  {
    if acts == [] then 0
    else (if acts[0] == Advance(l) && Begun(s, acts[0]) != [] then 1 else 0) + Passes(Next(s, acts[0]), acts[1..], l)
  }

  function LateOf(s: State, l: nat): nat {
    if l in s.loops then s.loops[l].late else 0
  }

  lemma LoopLate(s: State, l: nat)
    requires l in s.loops && s.stopped
    ensures var s' := LoopStep(s, l);
      && s'.stopped && l in s'.loops && s'.loops == s.loops[l := s'.loops[l]]
      && s'.loops[l].late == s.loops[l].late + if Begun(s, Advance(l)) != [] then 1 else 0
  {
    if s.loops[l].pc.Wanting? {
    } else if InPass(s.loops[l].pc) {
    } else if s.loops[l].pc.Taking? || HoldsNext(s.loops[l].pc) {
    }
  }

  lemma LateStep(s: State, a: Action, l: nat)
    requires s.stopped
    ensures Next(s, a).stopped
    ensures LateOf(Next(s, a), l) == LateOf(s, l) + if a == Advance(l) && Begun(s, a) != [] then 1 else 0
  {
    match a
    case Advance(m) =>
      if m in s.loops {
        LoopLate(s, m);
        hide LoopStep;
        hide Begun;
      }
    case Replace(r) =>
      if r in s.repls {
        CallReaders(s, r);
        CallStopped(s, r);
        hide ReplStep;
      }
    case _ =>
  }

  lemma CallStopped(s: State, r: nat)
    requires r in s.repls
    ensures ReplStep(s, r).stopped == s.stopped
  {
  }

  lemma {:induction false} LateCounts(s: State, acts: seq<Action>, l: nat)
    requires Inv(s) && s.stopped
    ensures LateOf(Steps(s, acts), l) == LateOf(s, l) + Passes(s, acts, l)
    decreases |acts|
  {
    hide Inv;
    hide LateOf;
    hide Next;
    hide Begun;
    if acts != [] {
      NextKeeps(s, acts[0]);
      LateStep(s, acts[0], l);
      LateCounts(Next(s, acts[0]), acts[1..], l);
    }
  }

  /** After Stop every loop begins at most one more pass, whatever happens. */
  lemma PassesAfterStop(before: seq<Action>, after: seq<Action>, l: nat)
    ensures Passes(Steps(Init(), before + [Stop]), after, l) <= 1
  {
    StepsSnoc(Init(), before, Stop);
    StepsKeep(Init(), before + [Stop]);
    LatePasses(Steps(Init(), before + [Stop]), after, l);
  }

  lemma LatePasses(s: State, after: seq<Action>, l: nat)
    requires Inv(s) && s.stopped
    ensures Passes(s, after, l) <= 1
  {
    LateCounts(s, after, l);
    StepsKeep(s, after);
    var t := Steps(s, after);
    assert l in t.loops ==> LoopInv(t, l);
  }

  /** Stop closes the connection that is in place when it gets to it. */
  lemma StopCloses(s: State, acts: seq<Action>)
    requires Inv(s)
    ensures var t := Steps(Next(s, Stop), acts); t.conn in Next(t, StopClose).closed
  {
    StopStays(Next(s, Stop), acts);
  }

  lemma {:induction false} StopStays(s: State, acts: seq<Action>)
    requires s.stopped
    ensures Steps(s, acts).stopped
    decreases |acts|
  {
    if acts != [] {
      assert Next(s, acts[0]).stopped;
      hide Next;
      StopStays(Next(s, acts[0]), acts[1..]);
    }
  }
}
