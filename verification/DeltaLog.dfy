/** internal/gpsv2/device/gt06: which of the received status and location reports
  * are saved as events.
  *
  * `S` is the status record and `C` the cell information of a report; both are
  * compared as whole structs.  `P` is the rest of a location.  A device starts
  * from the zero values of its fields.
  */
module DeltaLog {
  import opened Options

  datatype Location<C, P> = Location(cell: C, fix: P)

  /** What the serving loop hands to the handlers; alarms carry a location too. */
  datatype Report<S, C, P> =
    | Heartbeat(si: S)
    | Position(loc: Location<C, P>)
    | Alarm(loc: Location<C, P>, si: S)

  /** A call of SaveEvent. */
  datatype Saved<S, C> =
    | StatusEvent(kind: string, si: S)
    | CellEvent(kind: string, cell: C)

  const HEARTBEAT_EVENT: string := "hearbeat.changed"
  const ALARM_EVENT: string := "alarm"
  const CELL_EVENT: string := "cell_info.changed"

  datatype Config = Config(store: bool, send: bool)

  datatype Device<S, C, P> =
    Device(si: S, cell: C, log: seq<Saved<S, C>>, stored: seq<Location<C, P>>, sent: seq<Location<C, P>>)

  function NewDevice<S, C, P>(si: S, cell: C): Device<S, C, P> {
    Device(si, cell, [], [], [])
  }

  // --------------------------------------------------------------- one report

  function AfterHeartbeat<S(==), C, P>(d: Device<S, C, P>, si: S): Device<S, C, P> {
    if d.si == si then d else d.(si := si, log := d.log + [StatusEvent(HEARTBEAT_EVENT, si)])
  }

  function AfterAlarm<S, C, P>(d: Device<S, C, P>, si: S): Device<S, C, P> {
    d.(si := si, log := d.log + [StatusEvent(ALARM_EVENT, si)])
  }

  function AfterLocation<S, C(==), P>(d: Device<S, C, P>, loc: Location<C, P>, conf: Config): Device<S, C, P> {
    d.(cell := loc.cell,
       log := if d.cell == loc.cell then d.log else d.log + [CellEvent(CELL_EVENT, loc.cell)],
       stored := if conf.store then d.stored + [loc] else d.stored,
       sent := if conf.send then d.sent + [loc] else d.sent)
  }

  function After<S(==), C(==), P>(d: Device<S, C, P>, r: Report<S, C, P>, conf: Config): Device<S, C, P> {
    match r
    case Heartbeat(si) => AfterHeartbeat(d, si)
    case Position(loc) => AfterLocation(d, loc, conf)
    case Alarm(loc, si) => AfterAlarm(AfterLocation(d, loc, conf), si)
  }

  // ---------------------------------------------------------------- the object

  class Gt06<S(==), C(==), P(==)> {
    const conf: Config
    var si: S
    var cell: C
    var log: seq<Saved<S, C>>
    var stored: seq<Location<C, P>>
    var sent: seq<Location<C, P>>

    ghost function Value(): Device<S, C, P>
      reads this
    {
      Device(si, cell, log, stored, sent)
    }

    constructor (conf: Config, si: S, cell: C)
      ensures Value() == NewDevice(si, cell) && this.conf == conf
    {
      this.conf := conf;
      this.si, this.cell := si, cell;
      log, stored, sent := [], [], [];
    }

    method HandleHeartbeat(si: S)
      modifies this
      ensures Value() == AfterHeartbeat(old(Value()), si)
      ensures log == old(log) + if old(this.si) == si then [] else [StatusEvent("hearbeat.changed", si)]
    {
      var changed := false;
      if this.si != si {
        changed := true;
      }
      this.si := si;
      if changed {
        log := log + [StatusEvent(HEARTBEAT_EVENT, si)];
      }
    }

    method HandleAlarm(si: S)
      modifies this
      ensures Value() == AfterAlarm(old(Value()), si)
      ensures log == old(log) + [StatusEvent("alarm", si)]
    {
      this.si := si;
      log := log + [StatusEvent(ALARM_EVENT, si)];
    }

    method HandleLocation(loc: Location<C, P>)
      modifies this
      ensures Value() == AfterLocation(old(Value()), loc, conf)
      ensures log == old(log) + if old(cell) == loc.cell then [] else [CellEvent("cell_info.changed", loc.cell)]
    {
      if conf.store {
        stored := stored + [loc];
      }
      if conf.send {
        sent := sent + [loc];
      }
      var changed := false;
      if loc.cell != cell {
        changed := true;
      }
      cell := loc.cell;
      if changed {
        log := log + [CellEvent(CELL_EVENT, loc.cell)];
      }
    }

    /** The dispatch of the serving loop. */
    method Handle(r: Report<S, C, P>)
      modifies this
      ensures Value() == After(old(Value()), r, conf)
    {
      match r
      case Heartbeat(si) => HandleHeartbeat(si);
      case Position(loc) => HandleLocation(loc);
      case Alarm(loc, si) =>
        HandleLocation(loc);
        HandleAlarm(si);
    }
  }

  // ------------------------------------------------------------- whole histories

  function Run<S(==), C(==), P>(d: Device<S, C, P>, rs: seq<Report<S, C, P>>, conf: Config): Device<S, C, P>
    decreases |rs|
  {
    if rs == [] then d else After(Run(d, rs[..|rs| - 1], conf), rs[|rs| - 1], conf)
  }

  /** The list without consecutive repeats, counting `first` as its predecessor. */
  function Changes<T(==)>(first: T, xs: seq<T>): seq<T>
    decreases |xs|
  {
    if xs == [] then []
    else
      var front := xs[..|xs| - 1];
      if xs[|xs| - 1] == Last(first, front) then Changes(first, front) else Changes(first, front) + [xs[|xs| - 1]]
  }

  function Last<T>(first: T, xs: seq<T>): T {
    if xs == [] then first else xs[|xs| - 1]
  }

  /** The reported statuses and cells, in order. */
  function Statuses<S, C, P>(rs: seq<Report<S, C, P>>): seq<S>
    decreases |rs|
  {
    if rs == [] then []
    else
      var r := rs[|rs| - 1];
      if r.Position? then Statuses(rs[..|rs| - 1]) else Statuses(rs[..|rs| - 1]) + [r.si]
  }

  function Places<S, C, P>(rs: seq<Report<S, C, P>>): seq<Location<C, P>>
    decreases |rs|
  {
    if rs == [] then []
    else
      var r := rs[|rs| - 1];
      if r.Heartbeat? then Places(rs[..|rs| - 1]) else Places(rs[..|rs| - 1]) + [r.loc]
  }

  function Cells<C, P>(locs: seq<Location<C, P>>): seq<C> {
    seq(|locs|, i requires 0 <= i < |locs| => locs[i].cell)
  }

  /** The payloads of the saved status events and of the saved cell events. */
  function SavedStatuses<S, C>(log: seq<Saved<S, C>>): seq<S>
    decreases |log|
  {
    if log == [] then []
    else
      var e := log[|log| - 1];
      if e.StatusEvent? then SavedStatuses(log[..|log| - 1]) + [e.si] else SavedStatuses(log[..|log| - 1])
  }

  function SavedCells<S, C>(log: seq<Saved<S, C>>): seq<C>
    decreases |log|
  {
    if log == [] then []
    else
      var e := log[|log| - 1];
      if e.CellEvent? then SavedCells(log[..|log| - 1]) + [e.cell] else SavedCells(log[..|log| - 1])
  }

  lemma SavedSnoc<S, C>(log: seq<Saved<S, C>>, e: Saved<S, C>)
    ensures SavedStatuses(log + [e]) == if e.StatusEvent? then SavedStatuses(log) + [e.si] else SavedStatuses(log)
    ensures SavedCells(log + [e]) == if e.CellEvent? then SavedCells(log) + [e.cell] else SavedCells(log)
  {
    assert (log + [e])[..|log|] == log;
  }

  lemma ChangesSnoc<T>(first: T, xs: seq<T>, x: T)
    ensures Changes(first, xs + [x]) == if x == Last(first, xs) then Changes(first, xs) else Changes(first, xs) + [x]
  {
    assert (xs + [x])[..|xs|] == xs;
  }

  lemma CellsSnoc<C, P>(locs: seq<Location<C, P>>, loc: Location<C, P>)
    ensures Cells(locs + [loc]) == Cells(locs) + [loc.cell]
  {
  }

  // ------------------------------------------------------------------ theorems

  /** The log determines the status and its history.  The current status is the
    * payload of the last saved heartbeat or alarm event (the zero value if there is
    * none), and the saved payloads go through exactly the changes that the reported
    * statuses went through: what is not saved is only repetition. */
  ghost predicate StatusLogged<S, C, P>(d: Device<S, C, P>, zero: S, reported: seq<S>) {
    && d.si == Last(zero, SavedStatuses(d.log)) == Last(zero, reported)
    && Changes(zero, SavedStatuses(d.log)) == Changes(zero, reported)
  }

  /** The saved cell events are the reported cells without consecutive repeats. */
  ghost predicate CellsLogged<S, C, P>(d: Device<S, C, P>, zero: C, places: seq<Location<C, P>>) {
    && d.cell == Last(zero, Cells(places))
    && SavedCells(d.log) == Changes(zero, Cells(places))
  }

  /** Every heartbeat event is a change from the status saved before it. */
  ghost predicate OnlyChanges<S, C>(log: seq<Saved<S, C>>, zero: S) {
    forall i :: 0 <= i < |log| && log[i].StatusEvent? && log[i].kind == HEARTBEAT_EVENT ==>
      log[i].si != Last(zero, SavedStatuses(log[..i]))
  }

  lemma OnlyChangesSnoc<S, C>(log: seq<Saved<S, C>>, zero: S, e: Saved<S, C>)
    requires OnlyChanges(log, zero)
    requires e.StatusEvent? && e.kind == HEARTBEAT_EVENT ==> e.si != Last(zero, SavedStatuses(log))
    ensures OnlyChanges(log + [e], zero)
  {
    var log' := log + [e];
    forall i | 0 <= i < |log'| && log'[i].StatusEvent? && log'[i].kind == HEARTBEAT_EVENT
      ensures log'[i].si != Last(zero, SavedStatuses(log'[..i]))
    {
      assert log'[..i] == log[..i];
      assert log[..|log|] == log;
    }
  }

  ghost predicate Logged<S, C, P>(d: Device<S, C, P>, zero: S, cell: C, reported: seq<S>,
      places: seq<Location<C, P>>, conf: Config)
  {
    && StatusLogged(d, zero, reported) && CellsLogged(d, cell, places) && OnlyChanges(d.log, zero)
    && d.stored == (if conf.store then places else []) && d.sent == (if conf.send then places else [])
  }

  lemma HeartbeatLogged<S, C, P>(d: Device<S, C, P>, zero: S, cell: C, reported: seq<S>, places: seq<Location<C, P>>,
      si: S, conf: Config)
    requires Logged(d, zero, cell, reported, places, conf)
    ensures Logged(AfterHeartbeat(d, si), zero, cell, reported + [si], places, conf)
  {
    SavedSnoc(d.log, StatusEvent(HEARTBEAT_EVENT, si));
    if d.si != si {
      OnlyChangesSnoc(d.log, zero, StatusEvent(HEARTBEAT_EVENT, si));
    }
    ChangesSnoc(zero, reported, si);
    ChangesSnoc(zero, SavedStatuses(d.log), si);
  }

  lemma AlarmLogged<S, C, P>(d: Device<S, C, P>, zero: S, cell: C, reported: seq<S>, places: seq<Location<C, P>>,
      si: S, conf: Config)
    requires Logged(d, zero, cell, reported, places, conf)
    ensures Logged(AfterAlarm(d, si), zero, cell, reported + [si], places, conf)
  {
    SavedSnoc(d.log, StatusEvent(ALARM_EVENT, si));
    OnlyChangesSnoc(d.log, zero, StatusEvent(ALARM_EVENT, si));
    ChangesSnoc(zero, reported, si);
    ChangesSnoc(zero, SavedStatuses(d.log), si);
  }

  lemma LocationLogged<S, C, P>(d: Device<S, C, P>, zero: S, cell: C, reported: seq<S>, places: seq<Location<C, P>>,
                                loc: Location<C, P>, conf: Config)
    requires Logged(d, zero, cell, reported, places, conf)
    ensures Logged(AfterLocation(d, loc, conf), zero, cell, reported, places + [loc], conf)
  {
    SavedSnoc(d.log, CellEvent(CELL_EVENT, loc.cell));
    OnlyChangesSnoc(d.log, zero, CellEvent(CELL_EVENT, loc.cell));
    CellsSnoc(places, loc);
    ChangesSnoc(cell, Cells(places), loc.cell);
  }

  lemma ReportLogged<S, C, P>(d: Device<S, C, P>, zero: S, cell: C, rs: seq<Report<S, C, P>>, r: Report<S, C, P>,
      conf: Config)
    requires Logged(d, zero, cell, Statuses(rs), Places(rs), conf)
    ensures Logged(After(d, r, conf), zero, cell, Statuses(rs + [r]), Places(rs + [r]), conf)
  {
    assert (rs + [r])[..|rs|] == rs;
    match r
    case Heartbeat(si) => HeartbeatLogged(d, zero, cell, Statuses(rs), Places(rs), si, conf);
    case Position(loc) => LocationLogged(d, zero, cell, Statuses(rs), Places(rs), loc, conf);
    case Alarm(loc, si) =>
      LocationLogged(d, zero, cell, Statuses(rs), Places(rs), loc, conf);
      AlarmLogged(AfterLocation(d, loc, conf), zero, cell, Statuses(rs), Places(rs) + [loc], si, conf);
  }

  /** After any reports in any order the log is lossless, keeps no idle heartbeat,
    * and every location was stored and sent on as configured. */
  lemma {:induction false} LogIsLossless<S, C, P>(zero: S, cell: C, rs: seq<Report<S, C, P>>, conf: Config)
    ensures Logged(Run(NewDevice(zero, cell), rs, conf), zero, cell, Statuses(rs), Places(rs), conf)
    decreases |rs|
  {
    if rs != [] {
      var front, r := rs[..|rs| - 1], rs[|rs| - 1];
      LogIsLossless(zero, cell, front, conf);
      assert rs == front + [r];
      ReportLogged(Run(NewDevice(zero, cell), front, conf), zero, cell, front, r, conf);
    }
  }

  /** The alarms among the reports, and among the saved events. */
  function Alarms<S, C, P>(rs: seq<Report<S, C, P>>): seq<S>
    decreases |rs|
  {
    if rs == [] then []
    else
      var r := rs[|rs| - 1];
      if r.Alarm? then Alarms(rs[..|rs| - 1]) + [r.si] else Alarms(rs[..|rs| - 1])
  }

  function SavedAlarms<S, C>(log: seq<Saved<S, C>>): seq<S>
    decreases |log|
  {
    if log == [] then []
    else
      var e := log[|log| - 1];
      if e.StatusEvent? && e.kind == ALARM_EVENT then SavedAlarms(log[..|log| - 1]) + [e.si]
      else SavedAlarms(log[..|log| - 1])
  }

  lemma SavedAlarmsSnoc<S, C>(log: seq<Saved<S, C>>, e: Saved<S, C>)
    ensures SavedAlarms(log + [e])
         == if e.StatusEvent? && e.kind == ALARM_EVENT then SavedAlarms(log) + [e.si] else SavedAlarms(log)
  {
    assert (log + [e])[..|log|] == log;
  }

  /** Every alarm is saved once, in order, whether or not it changes the status. */
  lemma {:induction false} AlarmsSaved<S, C, P>(zero: S, cell: C, rs: seq<Report<S, C, P>>, conf: Config)
    ensures SavedAlarms(Run(NewDevice(zero, cell), rs, conf).log) == Alarms(rs)
    decreases |rs|
  {
    if rs != [] {
      var front, r := rs[..|rs| - 1], rs[|rs| - 1];
      AlarmsSaved(zero, cell, front, conf);
      var d := Run(NewDevice(zero, cell), front, conf);
      assert |HEARTBEAT_EVENT| != |ALARM_EVENT|;
      match r
      case Heartbeat(si) => SavedAlarmsSnoc(d.log, StatusEvent(HEARTBEAT_EVENT, si));
      case Position(loc) => SavedAlarmsSnoc(d.log, CellEvent(CELL_EVENT, loc.cell));
      case Alarm(loc, si) =>
        SavedAlarmsSnoc(d.log, CellEvent(CELL_EVENT, loc.cell));
        SavedAlarmsSnoc(AfterLocation(d, loc, conf).log, StatusEvent(ALARM_EVENT, si));
    }
  }

  // ------------------------------------------------------------- the serving loop

  /** What the serving loop meets: the start of a pass, a message (a report or, as
    * None, something else), a heartbeat (or, as None, a time check) whose response
    * cannot be written, a read timeout with nothing read, or any other error. */
  datatype Input<S, C, P> =
    | PassStart
    | Message(report: Option<Report<S, C, P>>)
    | Unanswered(status: Option<S>)
    | TimedOut
    | Broken

  function Content<S, C, P>(input: Input<S, C, P>): Option<Report<S, C, P>> {
    match input
    case Message(m) => m
    case Unanswered(Some(si)) => Some(Heartbeat(si))
    case _ => None
  }

  /** `last` is the message buffer, which a first timeout in a pass dispatches again,
    * and `over` says that the pass has ended.  An unanswered heartbeat is not handled;
    * while it is `unseen` in the buffer a timeout can still dispatch it, and only then
    * it counts as received.  `repeats`, `missed` and `passes` are counts. */
  datatype Serving<S, C, P> = Serving(
    handled: seq<Report<S, C, P>>, received: seq<Report<S, C, P>>, last: Option<Report<S, C, P>>, unseen: bool,
    pinged: bool, over: bool, repeats: nat, missed: nat, passes: nat)

  function Idle<S, C, P>(): Serving<S, C, P> {
    Serving([], [], None, false, false, true, 0, 0, 0)
  }

  function Extend<T>(xs: seq<T>, o: Option<T>): seq<T> {
    if o.Some? then xs + [o.value] else xs
  }

  /** Whatever the buffer still held unseen is overwritten. */
  function Overwrite<S, C, P>(v: Serving<S, C, P>, m: Option<Report<S, C, P>>, unseen: bool): Serving<S, C, P> {
    v.(last := m, unseen := unseen, missed := if v.unseen then v.missed + 1 else v.missed)
  }

  function Serve<S, C, P>(v: Serving<S, C, P>, input: Input<S, C, P>): Serving<S, C, P> {
    match input
    case PassStart => v.(pinged := false, over := false, passes := v.passes + 1)
    case Message(m) =>
      if v.over then v
      else Overwrite(v, m, false).(handled := Extend(v.handled, m), received := Extend(v.received, m))
    case Unanswered(_) =>
      if v.over then v else Overwrite(v, Content(input), Content(input).Some?).(over := true)
    case TimedOut =>
      if v.over then v
      else if v.pinged then v.(over := true)
      else if v.unseen then
        v.(pinged := true, unseen := false,
           handled := Extend(v.handled, v.last), received := Extend(v.received, v.last))
      else v.(pinged := true, handled := Extend(v.handled, v.last),
              repeats := if v.last.Some? then v.repeats + 1 else v.repeats)
    case Broken => v.(over := true)
  }

  function ServeAll<S, C, P>(v: Serving<S, C, P>, ins: seq<Input<S, C, P>>): Serving<S, C, P>
    decreases |ins|
  {
    if ins == [] then v else Serve(ServeAll(v, ins[..|ins| - 1]), ins[|ins| - 1])
  }

  /** h is r with n of its elements repeated, each right after itself. */
  ghost predicate Stutters<T>(h: seq<T>, r: seq<T>, n: nat)
    decreases |h|
  {
    if h == [] then r == [] && n == 0
    else
      var front, x := h[..|h| - 1], h[|h| - 1];
      || (r != [] && r[|r| - 1] == x && Stutters(front, r[..|r| - 1], n))
      || (n > 0 && front != [] && front[|front| - 1] == x && Stutters(front, r, n - 1))
  }

  ghost predicate Served<S, C, P>(v: Serving<S, C, P>) {
    && Stutters(v.handled, v.received, v.repeats)
    && (v.last.Some? && !v.unseen ==> v.handled != [] && v.handled[|v.handled| - 1] == v.last.value)
    && (v.unseen ==> v.last.Some? && v.last.value.Heartbeat?)
    && v.repeats + (if v.pinged || v.passes == 0 then 0 else 1) <= v.passes
    && v.missed + (if v.unseen then 1 else 0) + (if v.over then 0 else 1) <= v.passes
    && (v.passes == 0 ==> v.over)
  }

  lemma StutterMore<T>(h: seq<T>, r: seq<T>, n: nat, x: T)
    requires Stutters(h, r, n)
    ensures Stutters(h + [x], r + [x], n)
    ensures h != [] && h[|h| - 1] == x ==> Stutters(h + [x], r, n + 1)
  {
    assert (h + [x])[..|h|] == h && (r + [x])[..|r|] == r;
  }

  lemma MessageKeeps<S, C, P>(v: Serving<S, C, P>, m: Option<Report<S, C, P>>)
    requires Served(v)
    ensures Served(Serve(v, Message(m)))
  {
    hide Stutters;
    if m.Some? {
      StutterMore(v.handled, v.received, v.repeats, m.value);
    }
  }

  lemma TimeoutKeeps<S, C, P>(v: Serving<S, C, P>)
    requires Served(v)
    ensures Served(Serve(v, TimedOut))
  {
    hide Stutters;
    if v.last.Some? {
      StutterMore(v.handled, v.received, v.repeats, v.last.value);
    }
  }

  lemma ServeKeeps<S, C, P>(v: Serving<S, C, P>, input: Input<S, C, P>)
    requires Served(v)
    ensures Served(Serve(v, input))
  {
    match input
    case Message(m) => MessageKeeps(v, m);
    case TimedOut => TimeoutKeeps(v);
    case _ => hide Stutters;
  }

  /** However often the reads time out, the reports handled are the reports received
    * with at most one of them repeated in each pass, and at most one heartbeat in each
    * pass is missed. */
  lemma {:induction false} HandledAlmostReceived<S, C, P>(ins: seq<Input<S, C, P>>)
    ensures var v := ServeAll(Idle<S, C, P>(), ins);
      Served(v) && Stutters(v.handled, v.received, v.repeats) && v.repeats <= v.passes && v.missed <= v.passes
    decreases |ins|
  {
    if ins != [] {
      HandledAlmostReceived(ins[..|ins| - 1]);
      ServeKeeps(ServeAll(Idle<S, C, P>(), ins[..|ins| - 1]), ins[|ins| - 1]);
    }
  }

  /** A heartbeat whose response could not be written is handled after all when the next
    * pass meets a timeout first. */
  lemma LateHeartbeat<S, C, P>(ins: seq<Input<S, C, P>>, si: S)
    requires !ServeAll(Idle(), ins).over
    ensures
      var v := ServeAll(Idle(), ins);
      var w := ServeAll(Idle(), ins + [Unanswered(Some(si))]);
      var u := ServeAll(Idle(), ins + [Unanswered(Some(si)), PassStart, TimedOut]);
      && w.over && w.handled == v.handled
      && u.handled == v.handled + [Heartbeat(si)] && u.received == v.received + [Heartbeat(si)]
      && u.repeats == v.repeats
  {
    var lost: Input<S, C, P> := Unanswered(Some(si));
    var start: Input<S, C, P>, timeout: Input<S, C, P> := PassStart, TimedOut;
    assert ins + [lost, start, timeout] == ins + [lost] + [start] + [timeout];
    ServeOn(Idle(), ins, [lost]);
    ServeOn(Idle(), ins + [lost], [start]);
    ServeOn(Idle(), ins + [lost] + [start], [timeout]);
    ServeOne(ServeAll(Idle(), ins), lost);
    ServeOne(ServeAll(Idle(), ins + [lost]), start);
    ServeOne(ServeAll(Idle(), ins + [lost] + [start]), timeout);
  }

  lemma ServeOne<S, C, P>(v: Serving<S, C, P>, input: Input<S, C, P>)
    ensures ServeAll(v, [input]) == Serve(v, input)
  {
    assert [input][..0] == [];
  }

  lemma {:induction false} PassOver<S, C, P>(v: Serving<S, C, P>, ins: seq<Input<S, C, P>>, i: nat)
    requires i <= |ins| && ServeAll(v, ins[..i]).over && forall j :: 0 <= j < |ins| ==> !ins[j].PassStart?
    ensures ServeAll(v, ins).handled == ServeAll(v, ins[..i]).handled
    ensures ServeAll(v, ins).last == ServeAll(v, ins[..i]).last
    ensures ServeAll(v, ins).over
    decreases |ins|
  {
    if i < |ins| {
      assert ins[..|ins| - 1][..i] == ins[..i];
      PassOver(v, ins[..|ins| - 1], i);
    } else {
      assert ins[..i] == ins;
    }
  }

  lemma RunMore<S, C, P>(d: Device<S, C, P>, rs: seq<Report<S, C, P>>, o: Option<Report<S, C, P>>, conf: Config)
    ensures Run(d, Extend(rs, o), conf) == if o.Some? then After(Run(d, rs, conf), o.value, conf) else Run(d, rs, conf)
  {
    if o.Some? {
      assert (rs + [o.value])[..|rs|] == rs;
    }
  }

  lemma ServeNext<S, C, P>(v: Serving<S, C, P>, ins: seq<Input<S, C, P>>, i: nat)
    requires i < |ins|
    ensures ServeAll(v, ins[..i + 1]) == Serve(ServeAll(v, ins[..i]), ins[i])
  {
    assert ins[..i + 1][..i] == ins[..i];
  }

  lemma {:induction false} ServeOn<S, C, P>(v: Serving<S, C, P>, a: seq<Input<S, C, P>>, b: seq<Input<S, C, P>>)
    ensures ServeAll(v, a + b) == ServeAll(ServeAll(v, a), b)
    decreases |b|
  {
    if b == [] {
      assert a + b == a;
    } else {
      assert (a + b)[..|a + b| - 1] == a + b[..|b| - 1];
      ServeOn(v, a, b[..|b| - 1]);
    }
  }

  /** What ends a pass, and what is dispatched otherwise. */
  lemma Turn<S, C, P>(v: Serving<S, C, P>, input: Input<S, C, P>)
    requires !v.over && !input.PassStart?
    ensures
      var v' := Serve(v, input);
      var held := if input.Message? || input.Unanswered? then Content(input) else v.last;
      && v'.last == held
      && (v'.over <==> input.Broken? || input.Unanswered? || (input.TimedOut? && v.pinged))
      && v'.handled == (if v'.over then v.handled else Extend(v.handled, held))
      && (!v'.over ==> (v'.pinged <==> v.pinged || input.TimedOut?))
  {
  }

  /** One turn: a first timeout falls through to the dispatch of whatever the message
    * buffer holds.  `before` are the reports handled since the device was `d0`. */
  method ServeTurn<S(==), C(==), P(==)>(dev: Gt06<S, C, P>, msg: Option<Report<S, C, P>>, pingSent: bool,
      input: Input<S, C, P>, ghost d0: Device<S, C, P>, ghost v: Serving<S, C, P>)
    returns (msg': Option<Report<S, C, P>>, pingSent': bool, over: bool)
    requires !input.PassStart? && !v.over && v.last == msg && v.pinged == pingSent
    requires dev.Value() == Run(d0, v.handled, dev.conf)
    modifies dev
    ensures
      var v' := Serve(v, input);
      && msg' == v'.last && over == v'.over && (!over ==> pingSent' == v'.pinged)
      && dev.Value() == Run(d0, v'.handled, dev.conf)
  {
    hide Serve;
    hide Run;
    Turn(v, input);
    msg', pingSent' := msg, pingSent || input.TimedOut?;
    if input.Message? || input.Unanswered? {
      msg' := Content(input);
    }
    over := input.Broken? || input.Unanswered? || (input.TimedOut? && pingSent);
    if !over {
      RunMore(d0, v.handled, msg', dev.conf);
      if msg'.Some? {
        dev.Handle(msg'.value);
      }
    }
  }

  /** One pass of the loop, after whatever came before it.  `d0` is the device as it
    * was before all of it. */
  method ServePass<S(==), C(==), P(==)>(dev: Gt06<S, C, P>, msg: Option<Report<S, C, P>>, ins: seq<Input<S, C, P>>,
      ghost before: seq<Input<S, C, P>>, ghost d0: Device<S, C, P>)
    returns (msg': Option<Report<S, C, P>>)
    requires forall j :: 0 <= j < |ins| ==> !ins[j].PassStart?
    requires ServeAll(Idle(), before).last == msg
    requires dev.Value() == Run(d0, ServeAll(Idle(), before).handled, dev.conf)
    modifies dev
    ensures
      var v := ServeAll(Idle(), before + [PassStart] + ins);
      msg' == v.last && dev.Value() == Run(d0, v.handled, dev.conf)
  {
    msg' := msg;
    var pingSent, i := false, 0;
    ghost var start := ServeAll(Idle(), before + [PassStart]);
    assert (before + [PassStart])[..|before|] == before;
    ghost var v := start;
    assert v == ServeAll(start, ins[..0]);
    assert !v.over && v.last == msg && !v.pinged && dev.Value() == Run(d0, v.handled, dev.conf);
    hide ServeAll;
    hide Serve;
    hide Run;
    ServeOn(Idle(), before + [PassStart], ins);
    while i < |ins|
      invariant 0 <= i <= |ins| && v == ServeAll(start, ins[..i])
      invariant !v.over && v.last == msg' && v.pinged == pingSent
      invariant dev.Value() == Run(d0, v.handled, dev.conf)
    {
      var over;
      msg', pingSent, over := ServeTurn(dev, msg', pingSent, ins[i], d0, v);
      ServeNext(start, ins, i);
      v := Serve(v, ins[i]);
      i := i + 1;
      if over {
        PassOver(start, ins, i);
        return;
      }
    }
    assert ins[..i] == ins;
  }

  /** The saved events other than alarms. */
  function OtherEvents<S, C>(log: seq<Saved<S, C>>): seq<Saved<S, C>>
    decreases |log|
  {
    if log == [] then []
    else
      var e := log[|log| - 1];
      if e.StatusEvent? && e.kind == ALARM_EVENT then OtherEvents(log[..|log| - 1])
      else OtherEvents(log[..|log| - 1]) + [e]
  }

  lemma OtherSnoc<S, C>(log: seq<Saved<S, C>>, e: Saved<S, C>)
    ensures OtherEvents(log + [e])
         == if e.StatusEvent? && e.kind == ALARM_EVENT then OtherEvents(log) else OtherEvents(log) + [e]
  {
    assert (log + [e])[..|log|] == log;
  }

  /** Two devices that agree but for the number of saved alarms and stored locations. */
  ghost predicate Alike<S, C, P>(d: Device<S, C, P>, e: Device<S, C, P>) {
    d.si == e.si && d.cell == e.cell && OtherEvents(d.log) == OtherEvents(e.log)
  }

  lemma AlikeAfter<S, C, P>(d: Device<S, C, P>, e: Device<S, C, P>, r: Report<S, C, P>, conf: Config)
    requires Alike(d, e)
    ensures Alike(After(d, r, conf), After(e, r, conf))
  {
    match r
    case Heartbeat(si) =>
      OtherSnoc(d.log, StatusEvent(HEARTBEAT_EVENT, si));
      OtherSnoc(e.log, StatusEvent(HEARTBEAT_EVENT, si));
    case Position(loc) =>
      OtherSnoc(d.log, CellEvent(CELL_EVENT, loc.cell));
      OtherSnoc(e.log, CellEvent(CELL_EVENT, loc.cell));
    case Alarm(loc, si) =>
      OtherSnoc(d.log, CellEvent(CELL_EVENT, loc.cell));
      OtherSnoc(e.log, CellEvent(CELL_EVENT, loc.cell));
      OtherSnoc(AfterLocation(d, loc, conf).log, StatusEvent(ALARM_EVENT, si));
      OtherSnoc(AfterLocation(e, loc, conf).log, StatusEvent(ALARM_EVENT, si));
  }

  /** Handling a report twice in a row saves nothing but one more alarm. */
  lemma RepeatOnlyAlarms<S, C, P>(d: Device<S, C, P>, r: Report<S, C, P>, conf: Config)
    ensures
      var once := After(d, r, conf);
      var twice := After(once, r, conf);
      && Alike(twice, once)
      && twice.log == if r.Alarm? then once.log + [StatusEvent(ALARM_EVENT, r.si)] else once.log
  {
    if r.Alarm? {
      OtherSnoc(After(d, r, conf).log, StatusEvent(ALARM_EVENT, r.si));
    }
  }

  lemma {:induction false} StutterAlike<S, C, P>(d: Device<S, C, P>, h: seq<Report<S, C, P>>,
      r: seq<Report<S, C, P>>, n: nat, conf: Config)
    requires Stutters(h, r, n)
    ensures Alike(Run(d, h, conf), Run(d, r, conf))
    ensures |Alarms(r)| <= |Alarms(h)| <= |Alarms(r)| + n
    decreases |h|
  {
    if h != [] {
      var front, x := h[..|h| - 1], h[|h| - 1];
      if r != [] && r[|r| - 1] == x && Stutters(front, r[..|r| - 1], n) {
        StutterAlike(d, front, r[..|r| - 1], n, conf);
        AlikeAfter(Run(d, front, conf), Run(d, r[..|r| - 1], conf), x, conf);
      } else {
        StutterAlike(d, front, r, n - 1, conf);
        RepeatOnlyAlarms(Run(d, front[..|front| - 1], conf), x, conf);
      }
    }
  }

  /** Read timeouts leave status, cells and every event but the alarms as if the
    * received reports had been handled once each; of the alarms at most one more is
    * saved in each pass. */
  lemma OnlyAlarmsRepeat<S, C, P>(ins: seq<Input<S, C, P>>, zero: S, cell: C, conf: Config)
    ensures
      var v := ServeAll(Idle<S, C, P>(), ins);
      var d, e := Run(NewDevice(zero, cell), v.handled, conf), Run(NewDevice(zero, cell), v.received, conf);
      && Alike(d, e)
      && |SavedAlarms(e.log)| <= |SavedAlarms(d.log)| <= |SavedAlarms(e.log)| + v.passes
  {
    var v := ServeAll(Idle<S, C, P>(), ins);
    HandledAlmostReceived(ins);
    StutterAlike(NewDevice(zero, cell), v.handled, v.received, v.repeats, conf);
    AlarmsSaved(zero, cell, v.handled, conf);
    AlarmsSaved(zero, cell, v.received, conf);
  }
}
