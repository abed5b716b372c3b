/** internal/gpsv2/device/gt06: what becomes of the connections handed to
  * ReplaceConn, and runs of ConnHandoff from the initial state.
  *
  * The history is kept beside the state and does not influence it.
  */
module ConnHistory {
  import opened Options
  import opened ConnHandoff

  /** `offers` are the calls that left their connection in c_next and `last` is the
    * latest call that handed over in either way; `dropped` are the offers that a later
    * offer replaced, and `looked` those that a loop found when it looked at c_next. */
  datatype Watched = Watched(s: State, offers: set<nat>, last: nat, dropped: set<nat>, looked: set<nat>)

  function Start(): Watched {
    Watched(Init(), {}, 0, {}, {})
  }

  function WatchReplace(w: Watched, r: nat, s': State): Watched {
    if r !in w.s.repls || r !in s'.repls then w.(s := s')
    else if w.s.repls[r].Offering? && s'.repls[r].Offered? then
      Watched(s', w.offers + {r}, r, if w.s.next.Some? then w.dropped + {w.s.next.value} else w.dropped, w.looked)
    else if w.s.repls[r].Setting? && s'.repls[r].Adopted? then w.(s := s', last := r)
    else w.(s := s')
  }

  function WatchAdvance(w: Watched, l: nat, s': State): Watched {
    if l in w.s.loops && l in s'.loops && w.s.loops[l].pc.Taking? && s'.loops[l].pc.Holding? && w.s.next.Some? then
      w.(s := s', looked := w.looked + {w.s.next.value})
    else w.(s := s')
  }

  function Watch(w: Watched, a: Action): Watched {
    match a
    case Replace(r) => WatchReplace(w, r, Next(w.s, a))
    case Advance(l) => WatchAdvance(w, l, Next(w.s, a))
    case _ => w.(s := Next(w.s, a))
  }

  function WatchAll(w: Watched, acts: seq<Action>): Watched
    decreases |acts|
  {
    if acts == [] then w else WatchAll(Watch(w, acts[0]), acts[1..])
  }

  lemma {:induction false} WatchOnly(w: Watched, acts: seq<Action>)
    ensures WatchAll(w, acts).s == Steps(w.s, acts)
    decreases |acts|
  {
    if acts != [] {
      WatchOnly(Watch(w, acts[0]), acts[1..]);
    }
  }

  // ------------------------------------------------------------------ invariant

  /** A loop that has looked at c_next and not yet taken what it found. */
  predicate AtNext(s: State) {
    s.nextOwner.Some? && s.nextOwner.value in s.loops
    && (s.loops[s.nextOwner.value].pc.Holding? || s.loops[s.nextOwner.value].pc.Upgrading?)
  }

  /** Where the connection of call r is: exactly one of adopted, waiting and dropped. */
  ghost predicate Fate(w: Watched, r: nat) {
    && (r in w.s.adopted || w.s.next == Some(r) || r in w.dropped)
    && (r in w.dropped ==> r !in w.s.adopted && w.s.next != Some(r))
    && (r in w.looked ==> r in w.s.adopted || (w.s.next == Some(r) && AtNext(w.s)))
    && (r in w.s.adopted ==> r in w.looked)
  }

  ghost predicate CallWatched(w: Watched, r: nat)
    requires r in w.s.repls
  {
    var pc := w.s.repls[r];
    && (Fresh(pc) ==> r !in w.offers)
    && (r in w.offers ==> Fate(w, r))
    && (pc.Offered? || pc.Closing? ==> r in w.offers)
    && ((pc.Offered? || pc.Closing?) && w.last == r ==> w.s.next == Some(r) || (w.s.next.None? && w.s.conn == r))
  }

  ghost predicate SharedWatched(w: Watched) {
    && w.offers <= w.s.repls.Keys && w.dropped <= w.offers && w.looked <= w.offers
    && (w.s.next.Some? ==> w.s.next.value in w.offers && (AtNext(w.s) ==> w.s.next.value in w.looked))
  }

  ghost predicate WInv(w: Watched) {
    && Inv(w.s) && SharedWatched(w)
    && (forall r :: r in w.s.repls ==> CallWatched(w, r))
  }

  /** Whatever does not touch the hand-over leaves every fate as it was. */
  ghost predicate SameHandover(w: Watched, w': Watched) {
    && w'.offers == w.offers && w'.last == w.last && w'.dropped == w.dropped && w'.looked == w.looked
    && w'.s.conn == w.s.conn && w'.s.next == w.s.next && w'.s.adopted == w.s.adopted
    && (AtNext(w'.s) <==> AtNext(w.s))
  }

  /** Where a call goes without handing over. */
  predicate PcKept(pc: ReplPc, pc': ReplPc) {
    && (Fresh(pc') ==> Fresh(pc))
    && (pc'.Offered? || pc'.Closing? ==> pc.Offered? || pc.Closing?)
  }

  lemma SameFates(w: Watched, w': Watched)
    requires WInv(w) && SameHandover(w, w') && Inv(w'.s)
    requires w.s.repls.Keys <= w'.s.repls.Keys
    requires forall r :: r in w.s.repls ==> PcKept(w.s.repls[r], w'.s.repls[r])
    requires forall r :: r in w'.s.repls && r !in w.s.repls ==> w'.s.repls[r].Calling?
    ensures WInv(w')
  {
    forall r | r in w'.s.repls ensures CallWatched(w', r) {
      if r in w.s.repls {
        assert CallWatched(w, r);
      }
    }
  }

  /** A loop outside use_next_conn. */
  lemma OutsideWatched(w: Watched, l: nat)
    requires WInv(w) && l in w.s.loops && !w.s.loops[l].pc.Taking? && !HoldsNext(w.s.loops[l].pc)
    ensures WInv(Watch(w, Advance(l)))
  {
    var w' := Watch(w, Advance(l));
    assert LoopInv(w.s, l);
    NextKeeps(w.s, Advance(l));
    OutsideKeeps(w.s, l);
    SameFates(w, w');
  }

  lemma OutsideKeeps(s: State, l: nat)
    requires l in s.loops && LoopInv(s, l) && !s.loops[l].pc.Taking? && !HoldsNext(s.loops[l].pc)
    ensures var s' := LoopStep(s, l);
      && s'.conn == s.conn && s'.next == s.next && s'.adopted == s.adopted && s'.repls == s.repls
      && (AtNext(s') <==> AtNext(s))
  {
    LoopStepFrame(s, l);
    assert s.nextOwner != Some(l);
  }

  /** The steps of use_next_conn seen from one call. */
  lemma SwapWatched(w: Watched, l: nat, r: nat)
    requires WInv(w) && l in w.s.loops && (w.s.loops[l].pc.Taking? || HoldsNext(w.s.loops[l].pc))
    requires r in w.s.repls
    ensures CallWatched(WatchAdvance(w, l, SwapStep(w.s, l)), r)
  {
    assert LoopInv(w.s, l) && CallWatched(w, r);
    SwapFrame(w.s, l);
  }

  lemma SwapShared(w: Watched, l: nat)
    requires Inv(w.s) && SharedWatched(w) && l in w.s.loops && (w.s.loops[l].pc.Taking? || HoldsNext(w.s.loops[l].pc))
    ensures SharedWatched(WatchAdvance(w, l, SwapStep(w.s, l))) && SwapStep(w.s, l).repls == w.s.repls
  {
    assert LoopInv(w.s, l);
    SwapFrame(w.s, l);
  }

  lemma SwapKept(w: Watched, l: nat)
    requires WInv(w) && l in w.s.loops && (w.s.loops[l].pc.Taking? || HoldsNext(w.s.loops[l].pc))
    ensures WInv(Watch(w, Advance(l)))
  {
    hide Inv;
    hide SharedWatched;
    hide CallWatched;
    var w' := Watch(w, Advance(l));
    assert w' == WatchAdvance(w, l, SwapStep(w.s, l));
    NextKeeps(w.s, Advance(l));
    SwapShared(w, l);
    forall r | r in w'.s.repls ensures CallWatched(w', r) {
      SwapWatched(w, l, r);
    }
  }

  /** Handing over in c_next: the connection that was waiting there is dropped. */
  lemma OfferWatched(w: Watched, r: nat, q: nat)
    requires WInv(w) && r in w.s.repls && w.s.repls[r].Offering? && q in w.s.repls
    ensures var w' := WatchReplace(w, r, OfferStep(w.s, r)); CallWatched(w', q)
  {
    assert ReplInv(w.s, r) && CallWatched(w, r) && CallWatched(w, q);
  }

  lemma OfferShared(w: Watched, r: nat)
    requires WInv(w) && r in w.s.repls && w.s.repls[r].Offering?
    ensures var w' := WatchReplace(w, r, OfferStep(w.s, r));
      SharedWatched(w') && w'.s.repls.Keys == w.s.repls.Keys
  {
    assert ReplInv(w.s, r) && CallWatched(w, r);
    assert OfferStep(w.s, r).repls.Keys == w.s.repls.Keys;
  }

  /** Handing over on a paused device. */
  lemma SetWatched(w: Watched, r: nat, q: nat)
    requires WInv(w) && r in w.s.repls && w.s.repls[r].Setting? && q in w.s.repls
    ensures var w' := WatchReplace(w, r, SetStep(w.s, r)); CallWatched(w', q)
  {
    assert ReplInv(w.s, r) && CallWatched(w, r) && CallWatched(w, q);
  }

  lemma SetShared(w: Watched, r: nat)
    requires WInv(w) && r in w.s.repls && w.s.repls[r].Setting?
    ensures var w' := WatchReplace(w, r, SetStep(w.s, r));
      SharedWatched(w') && w'.s.repls.Keys == w.s.repls.Keys
  {
    assert SetStep(w.s, r).repls.Keys == w.s.repls.Keys;
  }

  lemma HandoverKept(w: Watched, r: nat)
    requires WInv(w) && r in w.s.repls && (w.s.repls[r].Offering? || w.s.repls[r].Setting?)
    ensures WInv(Watch(w, Replace(r)))
  {
    hide Inv;
    hide SharedWatched;
    hide CallWatched;
    var w' := Watch(w, Replace(r));
    NextKeeps(w.s, Replace(r));
    if w.s.repls[r].Offering? {
      assert w' == WatchReplace(w, r, OfferStep(w.s, r));
      OfferShared(w, r);
    } else {
      assert w' == WatchReplace(w, r, SetStep(w.s, r));
      SetShared(w, r);
    }
    forall q | q in w'.s.repls ensures CallWatched(w', q) {
      if w.s.repls[r].Offering? {
        OfferWatched(w, r, q);
      } else {
        SetWatched(w, r, q);
      }
    }
  }

  /** A step of call r that hands nothing over. */
  predicate Untouched(s: State, s': State, r: nat)
    requires r in s.repls
  {
    && s'.conn == s.conn && s'.next == s.next && s'.adopted == s.adopted && s'.nextOwner == s.nextOwner
    && (s'.loops == s.loops || (r !in s.loops && s'.loops == s.loops[r := Loop(Starting, None, 0)]))
    && r in s'.repls && s'.repls == s.repls[r := s'.repls[r]] && PcKept(s.repls[r], s'.repls[r])
  }

  lemma OfferKeeps(s: State, r: nat)
    requires r in s.repls && (s.repls[r].Offered? || s.repls[r].Closing?)
    ensures Untouched(s, OfferStep(s, r), r)
  {
  }

  lemma SetKeeps(s: State, r: nat)
    requires r in s.repls && OnPausedPath(s.repls[r]) && !s.repls[r].Setting?
    ensures Untouched(s, SetStep(s, r), r)
  {
  }

  lemma CallKeeps(s: State, r: nat)
    requires r in s.repls && !s.repls[r].Offering? && !s.repls[r].Setting?
    ensures Untouched(s, ReplStep(s, r), r)
  {
    match s.repls[r]
    case Calling | Looking | Finished =>
    case Offered | Closing => OfferKeeps(s, r);
    case _ => SetKeeps(s, r);
  }

  lemma CallKept(w: Watched, r: nat)
    requires WInv(w) && r in w.s.repls && !w.s.repls[r].Offering? && !w.s.repls[r].Setting?
    ensures WInv(Watch(w, Replace(r)))
  {
    CallKeeps(w.s, r);
    NextKeeps(w.s, Replace(r));
    SameFates(w, Watch(w, Replace(r)));
  }

  lemma WatchKeeps(w: Watched, a: Action)
    requires WInv(w)
    ensures WInv(Watch(w, a))
  {
    match a
    case Advance(l) =>
      if l in w.s.loops {
        if w.s.loops[l].pc.Taking? || HoldsNext(w.s.loops[l].pc) {
          SwapKept(w, l);
        } else {
          OutsideWatched(w, l);
        }
      }
    case Replace(r) =>
      if r in w.s.repls {
        if w.s.repls[r].Offering? || w.s.repls[r].Setting? {
          HandoverKept(w, r);
        } else {
          CallKept(w, r);
        }
      }
    case _ =>
      NextKeeps(w.s, a);
      SameFates(w, Watch(w, a));
  }

  lemma {:induction false} WatchAllKeeps(w: Watched, acts: seq<Action>)
    requires WInv(w)
    ensures WInv(WatchAll(w, acts))
    decreases |acts|
  {
    if acts != [] {
      WatchKeeps(w, acts[0]);
      WatchAllKeeps(Watch(w, acts[0]), acts[1..]);
    }
  }

  // ------------------------------------------------------------------- theorems

  ghost predicate Seen(w: Watched) {
    exists acts: seq<Action> :: w == WatchAll(Start(), acts)
  }

  lemma SeenInv(w: Watched)
    requires Seen(w)
    ensures WInv(w)
  {
    var acts: seq<Action> :| w == WatchAll(Start(), acts);
    WatchAllKeeps(Start(), acts);
  }

  /** The connection that ReplaceConn closes on a running device is its own exactly
    * when its offer has been taken from c_next meanwhile, provided nobody handed over
    * since; while the offer still waits it is another one in any case. */
  lemma ClosesItsOwnIff(w: Watched, r: nat)
    requires Seen(w) && r in w.s.repls && w.s.repls[r].Closing?
    ensures Next(w.s, Replace(r)).closed == w.s.closed + {w.s.conn}
    ensures w.s.next == Some(r) ==> w.s.conn != r
    ensures w.last == r ==> (w.s.conn == r <==> w.s.next != Some(r))
  {
    SeenInv(w);
    assert CallWatched(w, r);
  }

  /** Every offer is in exactly one place: adopted, waiting in c_next, or dropped for
    * a later offer.  Once nobody holds c_next_mu it is adopted exactly if some loop
    * looked at c_next while it was there. */
  lemma OfferFate(w: Watched, r: nat)
    requires Seen(w) && r in w.offers
    ensures r in w.s.adopted || w.s.next == Some(r) || r in w.dropped
    ensures !(r in w.s.adopted && w.s.next == Some(r)) && !(r in w.s.adopted && r in w.dropped)
    ensures !(w.s.next == Some(r) && r in w.dropped)
    ensures w.s.nextOwner.None? ==> (r in w.s.adopted <==> r in w.looked)
  {
    SeenInv(w);
    assert CallWatched(w, r);
  }

  // ------------------------------------------- runs from the initial state

  ghost predicate CarefullyReached(t: State) {
    exists acts: seq<Action> :: CarefulRun(Init(), acts) && t == Steps(Init(), acts)
  }

  lemma {:induction false} CarefulSnoc(s: State, acts: seq<Action>, a: Action)
    requires CarefulRun(s, acts) && Careful(Steps(s, acts), a)
    ensures CarefulRun(s, acts + [a])
    decreases |acts|
  {
    if acts == [] {
      assert acts + [a] == [a];
    } else {
      assert (acts + [a])[1..] == acts[1..] + [a];
      CarefulSnoc(Next(s, acts[0]), acts[1..], a);
    }
  }

  lemma Carefully(t: State, a: Action)
    requires CarefullyReached(t) && Careful(t, a)
    ensures CarefullyReached(Next(t, a))
  {
    var acts: seq<Action> :| CarefulRun(Init(), acts) && t == Steps(Init(), acts);
    CarefulSnoc(Init(), acts, a);
    StepsSnoc(Init(), acts, a);
  }

  /** The first loop alone, at the given place. */
  function Alone(pc: LoopPc, served: Option<nat>, rs: RunState, reading: set<nat>, closed: set<nat>,
      owner: Option<nat>): State {
    Init().(loops := map[0 := Loop(pc, served, 0)], rs := rs, reading := reading, closed := closed, nextOwner := owner)
  }

  lemma AloneStep(t: State, t': State)
    requires CarefullyReached(t) && t' == Next(t, Advance(0))
    ensures CarefullyReached(t')
  {
    Carefully(t, Advance(0));
  }

  lemma FirstServes()
    ensures CarefullyReached(Alone(Serving, Some(0), Running, {0}, {}, None))
  {
    assert CarefulRun(Init(), []) && Init() == Steps(Init(), []);
    AloneStep(Init(), Alone(Wanting, None, Running, {}, {}, None));
    AloneStep(Alone(Wanting, None, Running, {}, {}, None), Alone(Serving, Some(0), Running, {0}, {}, None));
  }

  lemma FirstLeaves()
    ensures CarefullyReached(Alone(Taking, Some(0), Running, {}, {0}, None))
  {
    FirstServes();
    AloneStep(Alone(Serving, Some(0), Running, {0}, {}, None), Alone(Leaving, Some(0), Running, {0}, {0}, None));
    AloneStep(Alone(Leaving, Some(0), Running, {0}, {0}, None), Alone(Checking, Some(0), Running, {}, {0}, None));
    AloneStep(Alone(Checking, Some(0), Running, {}, {0}, None), Alone(Taking, Some(0), Running, {}, {0}, None));
  }

  lemma FirstEnds()
    ensures CarefullyReached(Alone(Ending, Some(0), Running, {}, {0}, None))
    ensures CarefullyReached(Alone(Done, Some(0), Paused, {}, {0}, None))
  {
    FirstLeaves();
    AloneStep(Alone(Taking, Some(0), Running, {}, {0}, None), Alone(Holding, Some(0), Running, {}, {0}, Some(0)));
    AloneStep(Alone(Holding, Some(0), Running, {}, {0}, Some(0)), Alone(Ending, Some(0), Running, {}, {0}, None));
    AloneStep(Alone(Ending, Some(0), Running, {}, {0}, None), Alone(Done, Some(0), Paused, {}, {0}, None));
  }

  lemma {:induction false} StepsThen(s: State, acts: seq<Action>, more: seq<Action>)
    ensures Steps(s, acts + more) == Steps(Steps(s, acts), more)
    decreases |acts|
  {
    if acts == [] {
      assert acts + more == more;
    } else {
      assert (acts + more)[1..] == acts[1..] + more;
      StepsThen(Next(s, acts[0]), acts[1..], more);
    }
  }

  lemma LeadsOn(s: State, t: State, u: State)
    requires Leads(s, t) && Leads(t, u)
    ensures Leads(s, u)
  {
    var acts: seq<Action> :| t == Steps(s, acts);
    var more: seq<Action> :| u == Steps(t, more);
    StepsThen(s, acts, more);
  }

  lemma Reached(t: State)
    requires CarefullyReached(t)
    ensures Leads(Init(), t)
  {
    var acts: seq<Action> :| CarefulRun(Init(), acts) && t == Steps(Init(), acts);
  }

  /** A call on a running device, up to the point where it closes a connection. */
  lemma Offers(s: State, t: State, r: nat)
    requires Leads(s, t) && t.rs.Running? && t.rsOwner.None? && t.nextOwner.None? && r !in t.repls && r != 0
    ensures Leads(s, SetRepl(t, r, Closing).(next := Some(r)))
  {
    Then(s, t, Give(r));
    var u := SetRepl(t, r, Calling);
    Then(s, u, Replace(r));
    SetTwice(t, r, Calling, Looking);
    u := SetRepl(t, r, Looking).(rsOwner := Some(r));
    Then(s, u, Replace(r));
    SetTwice(t, r, Looking, Offering);
    u := SetRepl(t, r, Offering).(rsOwner := Some(r));
    Then(s, u, Replace(r));
    SetTwice(t, r, Offering, Offered);
    u := SetRepl(t, r, Offered).(rsOwner := Some(r), next := Some(r));
    Then(s, u, Replace(r));
    SetTwice(t, r, Offered, Closing);
  }

  /** From the initial state: ReplaceConn closes the connection it has handed over. */
  lemma OwnClosed() returns (t: State)
    ensures Leads(Init(), t) && t.conn == 1 && 1 in t.closed && 1 in t.repls && t.repls[1].Finished?
  {
    FirstServes();
    var u := Alone(Serving, Some(0), Running, {0}, {}, None);
    Reached(u);
    Offers(Init(), u, 1);
    u := SetRepl(u, 1, Closing).(next := Some(1));
    t := CallClosesItsOwn(u, 0, 1);
    LeadsOn(Init(), u, t);
  }

  /** From the initial state: a connection offered after the only loop has looked at
    * c_next for the last time is neither served nor closed, with everything over. */
  lemma OfferStranded() returns (t: State)
    ensures Leads(Init(), t) && t.rs.Paused? && t.next == Some(1) && 1 !in t.adopted && 1 !in t.closed
    ensures (forall l :: l in t.loops ==> t.loops[l].pc.Done?) && t.repls == map[1 := Finished]
  {
    FirstEnds();
    var u := Alone(Ending, Some(0), Running, {}, {0}, None);
    Reached(u);
    Offers(Init(), u, 1);
    t := SetRepl(u, 1, Closing).(next := Some(1));
    Then(Init(), t, Replace(1));
    t := Next(t, Replace(1));
    Then(Init(), t, Advance(0));
    t := Next(t, Advance(0));
    assert t.repls == map[1 := Finished];
  }

  /** Call 1 on the device that the first loop has left paused. */
  function OnCall(pc: ReplPc, conn: nat, adopted: seq<nat>, owner: Option<nat>, writer: Who): State {
    Alone(Done, Some(0), Paused, {}, {0}, None).(
      repls := map[1 := pc], conn := conn, adopted := adopted, rsOwner := owner, writer := writer)
  }

  lemma CallStep(t: State, t': State)
    requires CarefullyReached(t) && Careful(t, Replace(1)) && t' == Next(t, Replace(1))
    ensures CarefullyReached(t')
  {
    Carefully(t, Replace(1));
  }

  lemma FirstCallLooks()
    ensures CarefullyReached(OnCall(Announcing, 0, [0], Some(1), Nobody))
  {
    FirstEnds();
    var t := Alone(Done, Some(0), Paused, {}, {0}, None);
    Carefully(t, Give(1));
    assert Next(t, Give(1)) == OnCall(Calling, 0, [0], None, Nobody);
    CallStep(OnCall(Calling, 0, [0], None, Nobody), OnCall(Looking, 0, [0], Some(1), Nobody));
    CallStep(OnCall(Looking, 0, [0], Some(1), Nobody), OnCall(Announcing, 0, [0], Some(1), Nobody));
  }

  lemma FirstCallSets()
    ensures CarefullyReached(OnCall(Adopted, 1, [0, 1], Some(1), ByRepl(1)))
  {
    FirstCallLooks();
    CallStep(OnCall(Announcing, 0, [0], Some(1), Nobody), OnCall(Setting, 0, [0], Some(1), ByRepl(1)));
    assert [0] + [1] == [0, 1];
    CallStep(OnCall(Setting, 0, [0], Some(1), ByRepl(1)), OnCall(Adopted, 1, [0, 1], Some(1), ByRepl(1)));
  }

  /** The premises of CarelessTwoLoops are met: a second call is about to look while
    * the loop of the first has not started. */
  lemma CarelessReached() returns (t: State)
    ensures CarefullyReached(t) && t.rs.Paused? && t.rsOwner.None? && !t.stopped
    ensures t.repls == map[1 := Finished, 2 := Calling] && !Careful(t, Replace(2))
  {
    FirstCallSets();
    CallStep(OnCall(Adopted, 1, [0, 1], Some(1), ByRepl(1)), OnCall(Releasing, 1, [0, 1], Some(1), Nobody));
    CallStep(OnCall(Releasing, 1, [0, 1], Some(1), Nobody), OnCall(Spawning, 1, [0, 1], None, Nobody));
    t := OnCall(Spawning, 1, [0, 1], None, Nobody);
    Carefully(t, Replace(1));
    t := Next(t, Replace(1));
    Carefully(t, Give(2));
    t := Next(t, Give(2));
    assert t.loops[1].pc.Starting?;
    assert t.repls == map[1 := Finished, 2 := Calling];
  }

  /** From the initial state two loops reach the permanent deadlock. */
  lemma DeadlockReached() returns (a: nat, b: nat)
    ensures exists acts :: Deadlocked(Steps(Init(), acts), a, b)
  {
    var s := CarelessReached();
    var acts: seq<Action> :| CarefulRun(Init(), acts) && s == Steps(Init(), acts);
    var t;
    t, a := CarelessTwoLoops(acts, 2);
    b := 2;
    var u := TwoLoopsDeadlock(t, a, b, 3);
    Reached(s);
    Then(Init(), s, Replace(2));
    LeadsOn(Init(), Next(s, Replace(2)), t);
    LeadsOn(Init(), t, u);
    var all: seq<Action> :| u == Steps(Init(), all);
    assert Deadlocked(Steps(Init(), all), a, b);
  }
}
