/** internal/gpsv2/device/gt06: a stopped device comes to rest.
  *
  * From every state of a careful run the present driver of the device can be moved on,
  * together with the calls and readers that it waits for, until no loop is left.
  */
module ConnRest {
  import opened Options
  import opened ConnHandoff
  import opened ConnService

  // ---------------------------------------------------------------- what is left

  /** How far a loop of a stopped device is from its end. */
  function LoopRank(pc: LoopPc): nat {
    match pc
    case Taking => 13
    case Holding => 12
    case Upgrading => 11
    case Swapped => 10
    case Relinquishing => 9
    case Sleeping => 8
    case Starting => 8
    case Wanting => 7
    case Pinging => 6
    case Nested => 5
    case Serving => 4
    case Leaving => 3
    case Checking => 2
    case Ending => 1
    case Done => 0
  }

  function CallRank(pc: ReplPc): nat {
    match pc
    case Announcing => 18
    case Setting => 17
    case Adopted => 16
    case Releasing => 15
    case _ => 14
  }

  function DriverRank(s: State, d: Driver): nat {
    match d
    case NoOne => 0
    case TheLoop(l) => if l in s.loops then LoopRank(s.loops[l].pc) else 0
    case TheCall(r) => if r in s.repls then CallRank(s.repls[r]) else 0
  }

  /** How far the holder of rs_mu is from releasing it. */
  function RsRank(s: State): nat {
    if s.rsOwner.Some? && s.rsOwner.value in s.repls then
      match s.repls[s.rsOwner.value] case Looking => 3 case Offering => 2 case Offered => 1 case _ => 0
    else 0
  }

  /** The step that moves the driver on, or what it waits for. */
  function Pick(s: State, d: Driver): Action
    requires Steady(s, d) && d != NoOne
  {
    match d
    case TheLoop(l) =>
      if s.loops[l].pc.Upgrading? && s.outside > 0 then Return
      else if s.loops[l].pc.Ending? && s.rsOwner.Some? then Replace(s.rsOwner.value)
      else Advance(l)
    case TheCall(r) => if s.repls[r].Setting? && s.outside > 0 then Return else Replace(r)
  }

  /** The driver is there, and nobody else is in its way. */
  predicate Steady(s: State, d: Driver) {
    match d
    case NoOne => true
    case TheLoop(l) =>
      && l in s.loops && !s.loops[l].pc.Done?
      && (s.writer == Nobody || LoopWrites(s.loops[l].pc))
      && (!HoldsNext(s.loops[l].pc) ==> s.nextOwner.None?)
      && (!InPass(s.loops[l].pc) ==> s.reading == {})
      && (s.loops[l].pc.Upgrading? ==> s.next.Some?)
      && (s.loops[l].pc.Starting? ==> s.rsOwner.None?)
      && (!s.loops[l].pc.Starting? ==> s.rs.Running?)
      && (s.rsOwner.Some? ==> s.rsOwner.value in s.repls && RsRank(s) > 0)
    case TheCall(r) =>
      && r in s.repls && OnPausedPath(s.repls[r]) && r !in s.loops
      && (s.writer == Nobody || ReplWrites(s.repls[r])) && s.reading == {}
  }

  lemma DriverSteady(s: State, d: Driver)
    requires Inv(s) && Driven(s, d) && OffersRunning(s)
    ensures Steady(s, d)
  {
    WriterDrives(s, d);
    forall m | m in s.reading ensures d == TheLoop(m) && InPass(s.loops[m].pc) {
      assert LoopInv(s, m) && LoopDriven(s, m, d);
    }
    match d
    case NoOne =>
    case TheLoop(l) =>
      assert LoopInv(s, l) && LoopDriven(s, l, d);
      assert s.nextOwner.Some? ==> LoopInv(s, s.nextOwner.value) && LoopDriven(s, s.nextOwner.value, d);
      assert s.rsOwner.Some? ==> ReplInv(s, s.rsOwner.value) && ReplDriven(s, s.rsOwner.value, d);
      if !s.rs.Running? {
        NobodyHoldsRs(s, d);
      }
    case TheCall(r) =>
      assert ReplInv(s, r) && ReplDriven(s, r, d);
  }

  // --------------------------------------------------------------------- progress

  lemma PassGoesOn(s: State, l: nat)
    requires Steady(s, TheLoop(l)) && (s.loops[l].pc.Wanting? || InPass(s.loops[l].pc))
    ensures LoopRank(PassStep(s, l).loops[l].pc) < LoopRank(s.loops[l].pc)
  {
  }

  lemma SwapGoesOn(s: State, l: nat)
    requires Steady(s, TheLoop(l)) && (s.loops[l].pc.Taking? || HoldsNext(s.loops[l].pc))
    requires s.loops[l].pc.Upgrading? ==> s.outside == 0
    ensures LoopRank(SwapStep(s, l).loops[l].pc) < LoopRank(s.loops[l].pc)
  {
  }

  lemma LoopGoesOn(s: State, l: nat)
    requires Steady(s, TheLoop(l)) && s.stopped
    requires s.loops[l].pc.Upgrading? ==> s.outside == 0
    requires s.loops[l].pc.Ending? ==> s.rsOwner.None?
    ensures LoopRank(LoopStep(s, l).loops[l].pc) < LoopRank(s.loops[l].pc)
  {
    match s.loops[l].pc
    case Wanting | Serving | Pinging | Nested | Leaving =>
      PassGoesOn(s, l);
      hide PassStep;
    case Taking | Holding | Upgrading | Swapped | Relinquishing =>
      SwapGoesOn(s, l);
      hide SwapStep;
    case _ =>
  }

  lemma CallGoesOn(s: State, r: nat)
    requires Steady(s, TheCall(r)) && (s.repls[r].Setting? ==> s.outside == 0)
    ensures DriverRank(ReplStep(s, r), AfterRepl(s, r, TheCall(r))) < CallRank(s.repls[r])
  {
  }

  /** The holder of rs_mu moves towards its release. */
  lemma HolderGoesOn(s: State, l: nat)
    requires Steady(s, TheLoop(l)) && s.loops[l].pc.Ending? && s.rsOwner.Some?
    ensures
      var q := s.rsOwner.value;
      var s' := ReplStep(s, q);
      && !s.repls[q].Calling? && RsRank(s') < RsRank(s) && s'.outside == s.outside
      && s'.loops == s.loops && AfterRepl(s, q, TheLoop(l)) == TheLoop(l)
  {
  }

  function AfterPick(s: State, d: Driver, a: Action): Driver {
    match a
    case Advance(l) => if l in s.loops then AfterLoop(s, l, d) else d
    case Replace(r) => if r in s.repls then AfterRepl(s, r, d) else d
    case _ => d
  }

  /** Everything that careful runs keep. */
  ghost predicate Kept(s: State, d: Driver, begun: seq<nat>) {
    Inv(s) && Driven(s, d) && OffersRunning(s) && Service(s, d, begun)
  }

  lemma PickKeeps(s: State, d: Driver, begun: seq<nat>, a: Action)
    requires Kept(s, d, begun) && Careful(s, a)
    ensures Kept(Next(s, a), AfterPick(s, d, a), begun + Begun(s, a))
  {
    NextKeeps(s, a);
    NextOffersRunning(s, a);
    hide Inv;
    hide Driven;
    hide OffersRunning;
    hide Service;
    hide LoopStep;
    hide ReplStep;
    assert begun + [] == begun;
    match a
    case Advance(l) =>
      if l in s.loops {
        LoopDrives(s, l, d);
        AdvanceServes(s, l, d, begun);
      }
    case Replace(r) =>
      if r in s.repls {
        ReplDrives(s, r, d);
        ReplaceServes(s, r, d, begun);
      }
    case _ =>
      OthersDrive(s, a, d);
      OthersServe(s, a, d, begun);
  }

  lemma StaysStopped(s: State, a: Action)
    requires s.stopped
    ensures Next(s, a).stopped
  {
  }

  lemma PickAdvances(s: State, d: Driver, begun: seq<nat>)
    requires Kept(s, d, begun) && Steady(s, d) && s.stopped && d != NoOne
    ensures Careful(s, Pick(s, d))
    ensures
      var s', d' := Next(s, Pick(s, d)), AfterPick(s, d, Pick(s, d));
      || DriverRank(s', d') < DriverRank(s, d)
      || (DriverRank(s', d') == DriverRank(s, d) && s'.outside + RsRank(s') < s.outside + RsRank(s))
  {
    hide Kept;
    var a := Pick(s, d);
    match d
    case TheLoop(l) =>
      if a == Advance(l) {
        LoopGoesOn(s, l);
        hide LoopStep;
      } else if a.Replace? {
        HolderGoesOn(s, l);
        hide ReplStep;
      }
    case TheCall(r) =>
      if a == Replace(r) {
        CallGoesOn(s, r);
        hide ReplStep;
      }
  }

  lemma {:induction false} ComesToRest(s: State, t: State, d: Driver, begun: seq<nat>)
    returns (u: State, all: seq<nat>)
    requires Leads(s, t) && Kept(t, d, begun) && t.stopped
    ensures Leads(s, u) && Kept(u, NoOne, all) && u.stopped
    decreases DriverRank(t, d), t.outside + RsRank(t)
  {
    u, all := t, begun;
    if d != NoOne {
      DriverSteady(t, d);
      PickAdvances(t, d, begun);
      var a := Pick(t, d);
      PickKeeps(t, d, begun, a);
      StaysStopped(t, a);
      hide Kept;
      hide Next;
      Then(s, t, a);
      u, all := ComesToRest(s, Next(t, a), AfterPick(t, d, a), begun + Begun(t, a));
    }
  }

  /** From every state of a careful run, whatever the loop, the calls and the readers are
    * doing, a stop of the device can be carried through: no loop is left, the device is
    * paused, and the connection in place has been served and closed. */
  lemma StopComesToRest(acts: seq<Action>) returns (t: State)
    requires CarefulRun(Init(), acts)
    ensures Leads(Next(Steps(Init(), acts), Stop), t) && t.rs.Paused?
    ensures (forall l :: l in t.loops ==> t.loops[l].pc.Done?) && t.conn in t.closed
  {
    Starts();
    StartsServing();
    var d := StepsServe(Init(), acts, TheLoop(0), []);
    var s, begun := Steps(Init(), acts), [] + Begins(Init(), acts);
    PickKeeps(s, d, begun, Stop);
    hide Kept;
    var all;
    Stay(Next(s, Stop));
    t, all := ComesToRest(Next(s, Stop), Next(s, Stop), d, begun + Begun(s, Stop));
    AtRest(t, all);
  }

  lemma AtRest(t: State, all: seq<nat>)
    requires Kept(t, NoOne, all)
    ensures t.rs.Paused? && (forall l :: l in t.loops ==> t.loops[l].pc.Done?) && t.conn in t.closed
  {
    var l :| l in t.loops && t.loops[l].pc.Done? && t.loops[l].served == Some(t.conn);
    assert LoopInv(t, l);
    forall m | m in t.loops ensures t.loops[m].pc.Done? {
      assert LoopDriven(t, m, NoOne);
    }
  }
}
