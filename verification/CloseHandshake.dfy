/** internal/gps/gt06: one runner and any number of callers of TryCloseWait meet
  * on a condition variable guarded by a plain mutex.
  *
  * A run is any list of actions; an action that is not enabled leaves the state
  * alone.  The notify list is a queue and Signal wakes its oldest entry.
  */
module CloseHandshake {
  import opened Options

  datatype RunState = NotRun | Running | Closing | Closed

  datatype RunnerPc =
    | Start       // spawned, before it takes the lock
    | Setting     // holds the lock, about to set running
    | Serving     // inside run()
    | Finishing   // run() returned, holds the lock
    | Signalling  // found closing and set closed; Signal still to come
    | Ending      // about to release the lock
    | Done

  datatype CallerPc =
    | Calling
    | Holding        // holds the lock, about to look at the state
    | Checking       // holds the lock, at the head of the wait loop
    | Listed         // joined the notify list, still holds the lock
    | Parked         // released the lock inside Wait
    | Returned(ok: bool)

  datatype Owner = Nobody | Runner | Caller(c: nat)

  /** `shut` says the connection was closed.  `early` is the caller, if any, that
    * found the state not_run and `closer` the one that found it running. */
  datatype State = State(
    rs: RunState, runner: RunnerPc, callers: map<nat, CallerPc>, lock: Owner, list: seq<nat>,
    shut: bool, early: Option<nat>, closer: Option<nat>)

  datatype Action = Arrive(c: nat) | Call(c: nat) | Run

  function Init(): State {
    State(NotRun, Start, map[], Nobody, [], false, None, None)
  }

  // -------------------------------------------------------------------- steps

  function SetPc(s: State, c: nat, pc: CallerPc): State {
    s.(callers := s.callers[c := pc])
  }

  /** The test at the top of TryCloseWait, made while holding the lock. */
  function Decide(s: State, c: nat): State {
    match s.rs
    case Closed => SetPc(s, c, Returned(true)).(lock := Nobody)
    case Closing => SetPc(s, c, Returned(false)).(lock := Nobody)
    case NotRun => SetPc(s, c, Checking).(rs := Closing, shut := true, early := Some(c))
    case Running => SetPc(s, c, Checking).(rs := Closing, shut := true, closer := Some(c))
  }

  function CallerStep(s: State, c: nat): State
    requires c in s.callers
  {
    match s.callers[c]
    case Calling => if s.lock == Nobody then SetPc(s, c, Holding).(lock := Caller(c)) else s
    case Holding => Decide(s, c)
    case Checking =>
      if s.rs == Closed then SetPc(s, c, Returned(true)).(lock := Nobody)
      else SetPc(s, c, Listed).(list := s.list + [c])
    case Listed => SetPc(s, c, Parked).(lock := Nobody)
    case Parked =>
      if c !in s.list && s.lock == Nobody then SetPc(s, c, Checking).(lock := Caller(c)) else s
    case Returned(_) => s
  }

  function RunnerStep(s: State): State {
    match s.runner
    case Start => if s.lock == Nobody then s.(runner := Setting, lock := Runner) else s
    case Setting => s.(rs := Running, runner := Serving, lock := Nobody)
    case Serving => if s.lock == Nobody then s.(runner := Finishing, lock := Runner, shut := true) else s
    case Finishing => s.(rs := Closed, runner := if s.rs == Closing then Signalling else Ending)
    case Signalling => s.(list := if s.list == [] then [] else s.list[1..], runner := Ending)
    case Ending => s.(runner := Done, lock := Nobody)
    case Done => s
  }

  function Next(s: State, a: Action): State {
    match a
    case Arrive(c) => if c in s.callers then s else SetPc(s, c, Calling)
    case Call(c) => if c in s.callers then CallerStep(s, c) else s
    case Run => RunnerStep(s)
  }

  function Steps(s: State, acts: seq<Action>): State
    decreases |acts|
  {
    if acts == [] then s else Steps(Next(s, acts[0]), acts[1..])
  }

  // --------------------------------------------------------------- invariants

  predicate CallerHolds(pc: CallerPc) {
    pc.Holding? || pc.Checking? || pc.Listed?
  }

  predicate RunnerHolds(pc: RunnerPc) {
    pc.Setting? || pc.Finishing? || pc.Signalling? || pc.Ending?
  }

  /** The callers that are in, or on their way into or out of, Wait. */
  predicate Waiting(pc: CallerPc) {
    pc.Checking? || pc.Listed? || pc.Parked?
  }

  function Entry(o: Option<nat>): seq<nat> {
    if o.Some? then [o.value] else []
  }

  /** Who is asleep once the runner will signal no more. */
  function Leftover(s: State): seq<nat> {
    if s.closer.None? then Entry(s.early) else if s.early.Some? then Entry(s.closer) else []
  }

  predicate Signalled(pc: RunnerPc) {
    pc.Ending? || pc.Done?
  }

  /** What the state field and the two special callers say about the runner. */
  ghost predicate PhaseInv(s: State) {
    match s.runner
    case Start => StartInv(s)
    case Setting => StartInv(s)
    case Serving => ServeInv(s)
    case Finishing => ServeInv(s) && s.shut
    case Signalling => s.rs == Closed && s.closer.Some? && s.shut
    case Ending => s.rs == Closed && s.shut
    case Done => s.rs == Closed && s.shut
  }

  predicate StartInv(s: State) {
    s.closer.None? && s.rs == (if s.early.Some? then Closing else NotRun)
  }

  predicate ServeInv(s: State) {
    s.rs == (if s.closer.Some? then Closing else Running)
  }

  /** The notify list holds exactly the waiting callers, oldest first. */
  ghost predicate ListInv(s: State) {
    if Signalled(s.runner) then s.list == Leftover(s)
    else if s.lock.Caller? && s.early == Some(s.lock.c) then
      s.closer.None? && (s.list == [] || s.list == Entry(s.early))
    else if s.lock.Caller? && s.closer == Some(s.lock.c) then
      s.list == Entry(s.early) || s.list == Entry(s.early) + Entry(s.closer)
    else s.list == Entry(s.early) + Entry(s.closer)
  }

  ghost predicate SharedInv(s: State) {
    && PhaseInv(s) && ListInv(s)
    && (RunnerHolds(s.runner) <==> s.lock == Runner)
    && (s.lock.Caller? ==> s.lock.c in s.callers)
    && (s.early.Some? ==> s.early.value in s.callers && s.shut)
    && (s.closer.Some? ==> s.closer.value in s.callers && s.shut && s.closer != s.early)
  }

  /** The invariant seen by caller c; the others matter only through the shared
    * state. */
  ghost predicate CallerInv(s: State, c: nat)
    requires c in s.callers
  {
    var pc := s.callers[c];
    && (CallerHolds(pc) <==> s.lock == Caller(c))
    && (Waiting(pc) ==> s.early == Some(c) || s.closer == Some(c))
    && (pc.Calling? || pc.Holding? ==> s.early != Some(c) && s.closer != Some(c))
    && (c in s.list ==> pc.Listed? || pc.Parked?)
    && (pc.Listed? ==> c in s.list && s.rs != Closed)
    && (pc.Parked? && c !in s.list ==> Signalled(s.runner))
    && (pc == Returned(true) ==> s.rs == Closed)
    && (pc == Returned(false) ==> s.early.Some? || s.closer.Some?)
  }

  ghost predicate Inv(s: State) {
    SharedInv(s) && forall c :: c in s.callers ==> CallerInv(s, c)
  }

  lemma DecideKeeps(s: State, c: nat)
    requires Inv(s) && c in s.callers && s.callers[c].Holding?
    ensures Inv(Decide(s, c))
  {
    assert CallerInv(s, c);
    var s' := Decide(s, c);
    forall d | d in s'.callers ensures CallerInv(s', d) {
      assert CallerInv(s, d);
    }
  }

  lemma WaitKeepsShared(s: State, c: nat)
    requires SharedInv(s) && c in s.callers && CallerInv(s, c) && !s.callers[c].Holding?
    ensures SharedInv(CallerStep(s, c)) && CallerInv(CallerStep(s, c), c)
  {
  }

  lemma WaitKeepsOther(s: State, c: nat, d: nat)
    requires SharedInv(s) && c in s.callers && CallerInv(s, c) && !s.callers[c].Holding?
    requires d in s.callers && CallerInv(s, d) && d != c
    ensures CallerInv(CallerStep(s, c), d)
  {
  }

  lemma WaitKeeps(s: State, c: nat)
    requires Inv(s) && c in s.callers && !s.callers[c].Holding?
    ensures Inv(CallerStep(s, c))
  {
    hide SharedInv;
    hide CallerInv;
    WaitKeepsShared(s, c);
    forall d | d in s.callers && d != c ensures CallerInv(CallerStep(s, c), d) {
      WaitKeepsOther(s, c, d);
    }
  }

  lemma RunnerKeepsShared(s: State)
    requires SharedInv(s)
    ensures SharedInv(RunnerStep(s))
  {
  }

  lemma RunnerKeepsCaller(s: State, d: nat)
    requires SharedInv(s) && d in s.callers && CallerInv(s, d)
    ensures d in RunnerStep(s).callers && CallerInv(RunnerStep(s), d)
  {
  }

  lemma RunnerKeeps(s: State)
    requires Inv(s)
    ensures Inv(RunnerStep(s))
  {
    hide SharedInv;
    hide CallerInv;
    RunnerKeepsShared(s);
    forall d | d in s.callers ensures CallerInv(RunnerStep(s), d) {
      RunnerKeepsCaller(s, d);
    }
  }

  lemma ArriveKeeps(s: State, c: nat)
    requires Inv(s) && c !in s.callers
    ensures Inv(SetPc(s, c, Calling))
  {
    var s' := SetPc(s, c, Calling);
    forall d | d in s'.callers ensures CallerInv(s', d) {
      if d in s.callers {
        assert CallerInv(s, d);
      }
    }
  }

  lemma NextKeeps(s: State, a: Action)
    requires Inv(s)
    ensures Inv(Next(s, a))
  {
    hide Inv;
    match a
    case Arrive(c) =>
      if c !in s.callers {
        ArriveKeeps(s, c);
      }
    case Call(c) =>
      if c in s.callers && s.callers[c].Holding? {
        DecideKeeps(s, c);
      } else if c in s.callers {
        WaitKeeps(s, c);
      }
    case Run => RunnerKeeps(s);
  }

  lemma {:induction false} StepsKeep(s: State, acts: seq<Action>)
    requires Inv(s)
    ensures Inv(Steps(s, acts))
    decreases |acts|
  {
    hide Inv;
    if acts != [] {
      NextKeeps(s, acts[0]);
      StepsKeep(Next(s, acts[0]), acts[1..]);
    }
  }

  // ------------------------------------------------------------------ theorems

  ghost predicate Reachable(s: State) {
    exists acts: seq<Action> :: s == Steps(Init(), acts)
  }

  lemma ReachableInv(s: State)
    requires Reachable(s)
    ensures Inv(s)
  {
    var acts: seq<Action> :| s == Steps(Init(), acts);
    StepsKeep(Init(), acts);
  }

  /** Every true return saw a closed connection in its final state; two callers
    * can wait at once only if one of them came before the runner had set running,
    * and once the runner is done somebody is left asleep exactly in that case. */
  lemma Handshake(s: State)
    requires Reachable(s)
    ensures forall c :: c in s.callers && s.callers[c] == Returned(true) ==> s.rs == Closed && s.shut
    ensures s.early.None? ==>
      forall c, d :: c in s.callers && d in s.callers && Waiting(s.callers[c]) && Waiting(s.callers[d]) ==> c == d
    ensures s.runner.Done? ==> (s.early.Some? <==> exists c :: c in s.callers && s.callers[c].Parked? && c in s.list)
  {
    ReachableInv(s);
    if s.runner.Done? && s.early.Some? {
      var c := Leftover(s)[0];
      assert CallerInv(s, c);
      assert c in s.list;
      assert s.callers[c].Listed? || s.callers[c].Parked?;
    }
  }

  // ------------------------------------------------------------------ the answers

  /** Beside the state: the run state that each caller found when it looked. */
  function Note(s: State, seen: map<nat, RunState>, a: Action): map<nat, RunState> {
    if a.Call? && a.c in s.callers && s.callers[a.c].Holding? then seen[a.c := s.rs] else seen
  }

  function NoteAll(s: State, seen: map<nat, RunState>, acts: seq<Action>): map<nat, RunState>
    decreases |acts|
  {
    if acts == [] then seen else NoteAll(Next(s, acts[0]), Note(s, seen, acts[0]), acts[1..])
  }

  /** A caller that found closing has been refused; one that found closed has got
    * through; one that found not_run or running is the early caller or the closer, and
    * waits or has got through. */
  ghost predicate Answered(s: State, seen: map<nat, RunState>, c: nat)
    requires c in s.callers
  {
    var pc := s.callers[c];
    if pc.Calling? || pc.Holding? then c !in seen
    else
      && c in seen
      && (match seen[c]
          case NotRun => Waiting(pc) || pc == Returned(true)
          case Running => Waiting(pc) || pc == Returned(true)
          case Closing => pc == Returned(false)
          case Closed => pc == Returned(true))
      && (seen[c] == NotRun <==> s.early == Some(c))
      && (seen[c] == Running <==> s.closer == Some(c))
  }

  ghost predicate AllAnswered(s: State, seen: map<nat, RunState>) {
    seen.Keys <= s.callers.Keys && forall c :: c in s.callers ==> Answered(s, seen, c)
  }

  lemma LookAnswers(s: State, seen: map<nat, RunState>, c: nat)
    requires Inv(s) && AllAnswered(s, seen) && c in s.callers && s.callers[c].Holding?
    ensures AllAnswered(Decide(s, c), seen[c := s.rs])
  {
    var s' := Decide(s, c);
    assert CallerInv(s, c);
    forall d | d in s'.callers ensures Answered(s', seen[c := s.rs], d) {
      assert Answered(s, seen, d);
    }
  }

  /** Outside its look a caller changes no more than its own place and the locks. */
  lemma WaitMoves(s: State, c: nat)
    requires c in s.callers && !s.callers[c].Holding?
    ensures var s' := CallerStep(s, c);
      && c in s'.callers && s'.callers == s.callers[c := s'.callers[c]]
      && s'.rs == s.rs && s'.early == s.early && s'.closer == s.closer
      && match s.callers[c]
         case Calling => s'.callers[c].Calling? || s'.callers[c].Holding?
         case Returned(_) => s'.callers[c] == s.callers[c]
         case _ => Waiting(s'.callers[c]) || s'.callers[c] == Returned(true)
  {
  }

  lemma WaitAnswers(s: State, seen: map<nat, RunState>, c: nat)
    requires AllAnswered(s, seen) && c in s.callers && !s.callers[c].Holding?
    ensures AllAnswered(CallerStep(s, c), seen)
  {
    WaitMoves(s, c);
    var s' := CallerStep(s, c);
    hide CallerStep;
    forall d | d in s'.callers ensures Answered(s', seen, d) {
      assert Answered(s, seen, d);
    }
  }

  lemma NextAnswers(s: State, seen: map<nat, RunState>, a: Action)
    requires Inv(s) && AllAnswered(s, seen)
    ensures AllAnswered(Next(s, a), Note(s, seen, a))
  {
    var s' := Next(s, a);
    if a.Call? && a.c in s.callers {
      if s.callers[a.c].Holding? {
        LookAnswers(s, seen, a.c);
      } else {
        WaitAnswers(s, seen, a.c);
      }
    } else {
      hide Inv;
      forall d | d in s'.callers ensures Answered(s', seen, d) {
        if d in s.callers {
          assert Answered(s, seen, d);
        }
      }
    }
  }

  lemma {:induction false} StepsAnswer(s: State, seen: map<nat, RunState>, acts: seq<Action>)
    requires Inv(s) && AllAnswered(s, seen)
    ensures AllAnswered(Steps(s, acts), NoteAll(s, seen, acts))
    decreases |acts|
  {
    hide Inv;
    hide AllAnswered;
    if acts != [] {
      NextKeeps(s, acts[0]);
      NextAnswers(s, seen, acts[0]);
      StepsAnswer(Next(s, acts[0]), Note(s, seen, acts[0]), acts[1..]);
    }
  }

  /** Over every run, TryCloseWait returns false to exactly those callers that found the
    * state closing, and true to every other caller that returns; the early caller and
    * the closer are never refused. */
  lemma Answers(acts: seq<Action>, c: nat)
    requires c in Steps(Init(), acts).callers
    ensures
      var s, seen := Steps(Init(), acts), NoteAll(Init(), map[], acts);
      && (s.callers[c] == Returned(false) <==> c in seen && seen[c] == Closing)
      && (s.callers[c] == Returned(true) ==> c in seen && seen[c] != Closing)
      && (c in seen && seen[c] == Closed ==> s.callers[c] == Returned(true))
      && (s.callers[c] == Returned(false) ==> s.early != Some(c) && s.closer != Some(c))
      && (Waiting(s.callers[c]) ==> c in seen && (seen[c] == NotRun || seen[c] == Running))
  {
    StepsAnswer(Init(), map[], acts);
    assert Answered(Steps(Init(), acts), NoteAll(Init(), map[], acts), c);
  }

  lemma ClosedStep(s: State, a: Action)
    requires SharedInv(s) && s.rs == Closed
    ensures Next(s, a).rs == Closed
  {
  }

  /** closed is absorbing. */
  lemma {:induction false} ClosedStays(s: State, acts: seq<Action>)
    requires Inv(s) && s.rs == Closed
    ensures Steps(s, acts).rs == Closed
    decreases |acts|
  {
    hide SharedInv;
    hide CallerInv;
    if acts != [] {
      NextKeeps(s, acts[0]);
      ClosedStep(s, acts[0]);
      ClosedStays(Next(s, acts[0]), acts[1..]);
    }
  }

  /** A caller still in the notify list when the runner is done never returns. */
  lemma SleepsOn(s: State, c: nat, a: Action)
    requires SharedInv(s) && c in s.callers && CallerInv(s, c) && s.runner.Done? && c in s.list
    ensures Next(s, a).runner.Done? && c in Next(s, a).list && c in Next(s, a).callers
  {
    if a.Call? && a.c in s.callers && s.callers[a.c].Checking? {
      assert s.rs == Closed;
    }
  }

  lemma {:induction false} SleepsForever(s: State, c: nat, acts: seq<Action>)
    requires Inv(s) && s.runner.Done? && c in s.list && c in s.callers
    ensures var s' := Steps(s, acts); c in s'.list && c in s'.callers && !s'.callers[c].Returned?
    decreases |acts|
  {
    assert CallerInv(s, c);
    if acts != [] {
      NextKeeps(s, acts[0]);
      SleepsOn(s, c, acts[0]);
      SleepsForever(Next(s, acts[0]), c, acts[1..]);
    }
  }

  /** Nobody is early if no caller looks at the state before running is set. */
  lemma {:induction false} LateCallersOnly(s: State, acts: seq<Action>)
    requires s.rs != NotRun && s.early.None?
    ensures Steps(s, acts).rs != NotRun && Steps(s, acts).early.None?
    decreases |acts|
  {
    if acts != [] {
      LateCallersOnly(Next(s, acts[0]), acts[1..]);
    }
  }

  /** Steps left before the runner is done and the lock is free. */
  function Rank(s: State): nat {
    (match s.runner
     case Start => 60 case Setting => 50 case Serving => 40 case Finishing => 30
     case Signalling => 20 case Ending => 10 case Done => 0)
    + if s.lock.Caller? && s.lock.c in s.callers then
        (match s.callers[s.lock.c] case Holding => 3 case Checking => 2 case _ => 1)
      else 0
  }

  lemma StepsTwo(s: State, a: Action, b: Action)
    ensures Steps(s, [a, b]) == Next(Next(s, a), b)
  {
    assert [a, b][1..] == [b];
    assert Steps(Next(s, a), [b]) == Steps(Next(Next(s, a), b), [b][1..]);
  }

  /** What a late caller will be told: only who looks while another closes is refused. */
  predicate Promised(s: State, c: nat)
    requires c in s.callers
  {
    match s.callers[c]
    case Returned(ok) => ok
    case Holding => s.rs != Closing
    case _ => true
  }

  lemma PromiseKept(s: State, a: Action, c: nat)
    requires Inv(s) && s.rs != NotRun && s.early.None? && c in s.callers
    requires if s.lock.Caller? then a == Call(s.lock.c) else !s.runner.Done? && a == Run
    ensures c in Next(s, a).callers && Promised(Next(s, a), c) == Promised(s, c)
  {
    assert CallerInv(s, c);
    if s.lock.Caller? {
      assert CallerInv(s, s.lock.c);
      hide Inv;
      if !s.callers[s.lock.c].Holding? {
        WaitMoves(s, s.lock.c);
        hide CallerStep;
      }
    } else {
      hide Inv;
    }
  }

  /** When callers come late, each of them can still return from every reachable
    * state: none is ever left asleep. */
  lemma {:induction false} CanReturn(s: State, c: nat) returns (acts: seq<Action>)
    requires Inv(s) && s.rs != NotRun && s.early.None? && c in s.callers
    ensures c in Steps(s, acts).callers && Steps(s, acts).callers[c] == Returned(Promised(s, c))
    decreases Rank(s), 1
  {
    assert CallerInv(s, c);
    if s.lock.Caller? {
      acts := CanReturnAfter(s, Call(s.lock.c), c);
    } else if !s.runner.Done? {
      acts := CanReturnAfter(s, Run, c);
    } else if s.callers[c].Returned? {
      acts := [];
    } else {
      acts := [Call(c), Call(c)];
      StepsTwo(s, Call(c), Call(c));
    }
  }

  lemma CanReturnAfter(s: State, a: Action, c: nat) returns (acts: seq<Action>)
    requires Inv(s) && s.rs != NotRun && s.early.None? && c in s.callers
    requires if s.lock.Caller? then a == Call(s.lock.c) else !s.runner.Done? && a == Run
    ensures c in Steps(s, acts).callers && Steps(s, acts).callers[c] == Returned(Promised(s, c))
    decreases Rank(s), 0
  {
    hide Inv;
    NextKeeps(s, a);
    RankFalls(s, a);
    PromiseKept(s, a, c);
    LateCallersOnly(s, [a]);
    assert Steps(s, [a]) == Steps(Next(s, a), [a][1..]);
    var rest := CanReturn(Next(s, a), c);
    acts := [a] + rest;
    assert acts[1..] == rest;
  }

  lemma RankFalls(s: State, a: Action)
    requires Inv(s)
    requires if s.lock.Caller? then a == Call(s.lock.c) else !s.runner.Done? && a == Run
    ensures Rank(Next(s, a)) < Rank(s)
  {
    if s.lock.Caller? {
      assert CallerInv(s, s.lock.c);
    }
  }

  /** The guarantee of the call site: from any state in which running has been set
    * and nobody came early, whatever happens next, at most one caller waits at a
    * time and every caller can still return: with false if it has been refused or is
    * about to find the state closing, and otherwise with true. */
  lemma LateCallersReturn(s: State, acts: seq<Action>, c: nat) returns (more: seq<Action>)
    requires Reachable(s) && s.rs != NotRun && s.early.None? && c in Steps(s, acts).callers
    ensures
      var t := Steps(s, acts);
      && (Waiting(t.callers[c]) ==> forall d :: d in t.callers && Waiting(t.callers[d]) ==> d == c)
      && c in Steps(t, more).callers && Steps(t, more).callers[c] == Returned(Promised(t, c))
  {
    ReachableInv(s);
    StepsKeep(s, acts);
    LateCallersOnly(s, acts);
    var t := Steps(s, acts);
    if Waiting(t.callers[c]) {
      OneWaiter(t, c);
    }
    more := CanReturn(t, c);
  }

  lemma OneWaiter(s: State, c: nat)
    requires Inv(s) && s.early.None? && c in s.callers && Waiting(s.callers[c])
    ensures forall d :: d in s.callers && Waiting(s.callers[d]) ==> d == c
  {
    assert CallerInv(s, c);
    forall d | d in s.callers && Waiting(s.callers[d]) ensures d == c {
      assert CallerInv(s, d);
    }
  }

  lemma {:induction false} StepsSnoc(s: State, acts: seq<Action>, a: Action)
    ensures Steps(s, acts + [a]) == Next(Steps(s, acts), a)
    decreases |acts|
  {
    if acts == [] {
      assert acts + [a] == [a];
    } else {
      assert (acts + [a])[1..] == acts[1..] + [a];
      StepsSnoc(Next(s, acts[0]), acts[1..], a);
    }
  }

  lemma Then(s: State, a: Action)
    requires Reachable(s)
    ensures Reachable(Next(s, a))
  {
    var acts: seq<Action> :| s == Steps(Init(), acts);
    StepsSnoc(Init(), acts, a);
  }

  /** One step of a lone caller or of the runner. */
  lemma Alone(rs: RunState, runner: RunnerPc, pc: CallerPc, lock: Owner, list: seq<nat>, shut: bool,
      early: Option<nat>, a: Action)
      returns (s: State)
    requires a == Call(0) || a == Run
    requires Reachable(State(rs, runner, map[0 := pc], lock, list, shut, early, None))
    ensures s == Next(State(rs, runner, map[0 := pc], lock, list, shut, early, None), a) && Reachable(s)
    ensures a == Call(0) ==> s.callers.Keys == {0} && s.callers == map[0 := s.callers[0]]
  {
    s := State(rs, runner, map[0 := pc], lock, list, shut, early, None);
    Then(s, a);
    s := Next(s, a);
  }

  lemma FirstArrival()
    ensures Reachable(State(NotRun, Start, map[0 := Calling], Nobody, [], false, None, None))
  {
    var s := Init();
    assert s == Steps(Init(), []);
    Then(s, Arrive(0));
    assert map[][0 := Calling] == map[0 := Calling];
  }

  /** Before the runner starts a caller can set closing and go to sleep. */
  lemma EarlyCallerParks()
    ensures Reachable(State(Closing, Start, map[0 := Parked], Nobody, [0], true, Some(0), None))
  {
    FirstArrival();
    var s := Alone(NotRun, Start, Calling, Nobody, [], false, None, Call(0));
    s := Alone(NotRun, Start, Holding, Caller(0), [], false, None, Call(0));
    s := Alone(Closing, Start, Checking, Caller(0), [], true, Some(0), Call(0));
    s := Alone(Closing, Start, Listed, Caller(0), [0], true, Some(0), Call(0));
  }

  /** The precondition of LateCallersOnly is needed: a caller that looks before
    * the runner has set running is left asleep for ever. */
  lemma EarlyCallerSleeps()
    ensures Reachable(State(Closed, Done, map[0 := Parked], Nobody, [0], true, Some(0), None))
  {
    EarlyCallerParks();
    var s := Alone(Closing, Start, Parked, Nobody, [0], true, Some(0), Run);
    s := Alone(Closing, Setting, Parked, Runner, [0], true, Some(0), Run);
    s := Alone(Running, Serving, Parked, Nobody, [0], true, Some(0), Run);
    s := Alone(Running, Finishing, Parked, Runner, [0], true, Some(0), Run);
    s := Alone(Closed, Ending, Parked, Runner, [0], true, Some(0), Run);
  }
}
