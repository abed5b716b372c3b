/** internal/gpsv2/device/gt06: the single command slot shared by the senders and
  * the reader.
  *
  * Every access to the slot is one critical section under cmd.mu, so an
  * interleaving is a list of the sections in the order in which they ran: submit,
  * mark as sent after the write, and handle a response.
  */
module CommandSlot {
  import opened Options

  const UINT32: nat := 0x1_0000_0000

  datatype Status = Submitted | Sent | Empty

  datatype Slot = Slot(status: Status, counter: nat, serial: nat, msg: string, flag: nat)

  function NewSlot(): Slot {
    Slot(Empty, 0, 0, "", 0)
  }

  predicate Accepts(s: Slot, force: bool) {
    force || s.status.Empty?
  }

  function Submit(s: Slot, msg: string): Slot {
    var flag := (s.counter + 1) % UINT32;
    Slot(Submitted, flag, s.serial + 1, msg, flag)
  }

  // ------------------------------------------------------ attribute commands

  /** Upper case of the characters that fold to an ASCII letter, including the
    * long s; the others play no part in the two attribute names. */
  function Upper(c: char): char {
    if 'a' <= c <= 'z' then c - 'a' + 'A'
    else if c == '\U{017F}' then 'S'
    else c
  }

  function ToUpper(s: string): (r: string)
    ensures |r| == |s|
    ensures forall i {:trigger r[i]} :: 0 <= i < |s| ==> r[i] == Upper(s[i])
  {
    seq(|s|, i requires 0 <= i < |s| => Upper(s[i]))
  }

  /** Equality of two characters under simple Unicode case folding, for b in ASCII:
    * the fold classes of k and s have a third member outside ASCII. */
  predicate FoldChar(a: char, b: char) {
    || a == b
    || ('a' <= a <= 'z' && b == a - 'a' + 'A') || ('A' <= a <= 'Z' && b == a - 'A' + 'a')
    || (a == '\U{017F}' && (b == 's' || b == 'S')) || (a == '\U{212A}' && (b == 'k' || b == 'K'))
  }

  predicate EqualFold(a: string, b: string) {
    |a| == |b| && forall i :: 0 <= i < |a| ==> FoldChar(a[i], b[i])
  }

  predicate IsAttribute(cmd: string) {
    EqualFold(cmd, "VERSION#") || EqualFold(cmd, "PARAM#")
  }

  lemma FoldUpper(cmd: string, name: string)
    requires EqualFold(cmd, name)
    requires forall i :: 0 <= i < |name| ==> ('A' <= name[i] <= 'Z' && name[i] != 'K') || name[i] == '#'
    ensures ToUpper(cmd) == name
  {
    forall i | 0 <= i < |name| ensures ToUpper(cmd)[i] == name[i] {
      assert FoldChar(cmd[i], name[i]);
    }
  }

  /** Whatever its spelling, an attribute command is stored under one of two keys. */
  lemma AttributeKey(cmd: string)
    requires IsAttribute(cmd)
    ensures ToUpper(cmd) in {"VERSION#", "PARAM#"}
  {
    if EqualFold(cmd, "VERSION#") {
      FoldUpper(cmd, "VERSION#");
    } else {
      FoldUpper(cmd, "PARAM#");
    }
  }

  lemma UpperFold(cmd: string, name: string)
    requires ToUpper(cmd) == name
    requires forall i :: 0 <= i < |name| ==> 'A' <= name[i] <= 'Z' || name[i] == '#'
    ensures EqualFold(cmd, name)
  {
    forall i | 0 <= i < |cmd| ensures FoldChar(cmd[i], name[i]) {
      assert Upper(cmd[i]) == name[i];
    }
  }

  /** The attribute commands are those whose upper case is one of the two names. */
  lemma AttributeIff(cmd: string)
    ensures IsAttribute(cmd) <==> ToUpper(cmd) in {"VERSION#", "PARAM#"}
  {
    if IsAttribute(cmd) {
      AttributeKey(cmd);
    } else if ToUpper(cmd) == "VERSION#" {
      UpperFold(cmd, "VERSION#");
    } else if ToUpper(cmd) == "PARAM#" {
      UpperFold(cmd, "PARAM#");
    }
  }

  // ------------------------------------------------------------- whole histories

  datatype Event =
    | DoSubmit(msg: string, force: bool)
    | DoMark(k: nat)                        // the sender of command k finished its write
    | DoRespond(flag: nat, text: string)

  /** A call of UpdateAttribute, with the response flag and the number of commands
    * issued before it. */
  datatype Update = Update(key: string, value: string, flag: nat, after: nat)

  /** The slot with its history: the commands issued and the flags they were given,
    * whether the latest was answered, and whether some sender marked the slot as
    * sent since that answer. */
  datatype Trace = Trace(
    slot: Slot, issued: seq<string>, flags: seq<nat>, answered: bool, remarked: bool, updates: seq<Update>)

  function Start(): Trace {
    Trace(NewSlot(), [], [], false, false, [])
  }

  function Respond(t: Trace, flag: nat, text: string): Trace {
    if flag != t.slot.flag then t
    else t.(
      slot := t.slot.(status := Empty), answered := true, remarked := false,
      updates :=
        if IsAttribute(t.slot.msg) then t.updates + [Update(ToUpper(t.slot.msg), text, flag, |t.issued|)]
        else t.updates)
  }

  function Step(t: Trace, ev: Event): Trace {
    match ev
    case DoSubmit(msg, force) =>
      if !Accepts(t.slot, force) then t
      else
        var slot := Submit(t.slot, msg);
        t.(slot := slot, issued := t.issued + [msg], flags := t.flags + [slot.flag],
           answered := false, remarked := false)
    case DoMark(k) => if k < |t.issued| then t.(slot := t.slot.(status := Sent), remarked := true) else t
    case DoRespond(flag, text) => Respond(t, flag, text)
  }

  function Run(t: Trace, evs: seq<Event>): Trace
    decreases |evs|
  {
    if evs == [] then t else Run(Step(t, evs[0]), evs[1..])
  }

  // ------------------------------------------------------------------ the object

  class CommandState {
    var status: Status
    var counter: nat
    var serial: nat
    var currentMsg: string
    var currentFlag: nat
    ghost var trace: Trace

    ghost predicate Valid()
      reads this
    {
      trace.slot == Slot(status, counter, serial, currentMsg, currentFlag) && Good(trace)
    }

    constructor ()
      ensures Valid() && trace == Start()
    {
      status, counter, serial, currentMsg, currentFlag := Empty, 0, 0, "", 0;
      trace := Start();
    }

    /** The first critical section of _send_command. */
    method SendCommand(msg: string, force: bool) returns (busy: bool, flag: nat, number: nat)
      requires Valid()
      modifies this
      ensures Valid() && trace == Step(old(trace), DoSubmit(msg, force))
      ensures busy <==> !force && !old(status).Empty?
      ensures !busy ==> trace.issued == old(trace).issued + [msg]
      ensures !busy ==> flag == |trace.issued| % UINT32 && number == |trace.issued|
    {
      StepGood(trace, DoSubmit(msg, force));
      trace := Step(trace, DoSubmit(msg, force));
      busy, flag, number := false, 0, 0;
      if !status.Empty? {
        if !force {
          busy := true;
          return;
        }
      }
      counter := (counter + 1) % UINT32;
      serial := serial + 1;
      flag, number := counter, serial;
      currentFlag := flag;
      currentMsg := msg;
      status := Submitted;
    }

    /** The second critical section, after the write of command k succeeded. */
    method MarkSent(k: nat)
      requires Valid() && k < |trace.issued|
      modifies this
      ensures Valid() && trace == Step(old(trace), DoMark(k)) && status == Sent
    {
      StepGood(trace, DoMark(k));
      trace := Step(trace, DoMark(k));
      status := Sent;
    }

    /** The critical section of handle_command_response, and the attribute to
      * store afterwards. */
    method HandleResponse(flag: nat, text: string) returns (matched: bool, attribute: Option<(string, string)>)
      requires Valid()
      modifies this
      ensures Valid() && trace == Step(old(trace), DoRespond(flag, text))
      ensures matched <==> flag == |trace.issued| % UINT32
      ensures !matched ==> trace == old(trace)
      ensures attribute.Some? <==>
        matched && trace.issued != [] && ToUpper(trace.issued[|trace.issued| - 1]) in {"VERSION#", "PARAM#"}
      ensures trace.updates == old(trace).updates
        + if attribute.Some? then [Update(attribute.value.0, text, flag, |trace.issued|)] else []
      ensures attribute.Some? ==>
        && trace.issued != []
        && attribute.value == (ToUpper(trace.issued[|trace.issued| - 1]), text)
        && attribute.value.0 in {"VERSION#", "PARAM#"}
    {
      StepGood(trace, DoRespond(flag, text));
      AttributeIff(currentMsg);
      trace := Step(trace, DoRespond(flag, text));
      attribute := None;
      matched := flag == currentFlag;
      if matched {
        status := Empty;
        if IsAttribute(currentMsg) {
          attribute := Some((ToUpper(currentMsg), text));
        }
      }
    }
  }

  // ------------------------------------------------------------------- invariant

  ghost predicate GoodUpdate(u: Update, issued: seq<string>) {
    && 0 < u.after <= |issued| && u.flag == u.after % UINT32
    && u.key == ToUpper(issued[u.after - 1]) && u.key in {"VERSION#", "PARAM#"}
  }

  ghost predicate Good(t: Trace) {
    && t.slot.counter == t.slot.flag == |t.issued| % UINT32
    && t.slot.serial == |t.issued| == |t.flags|
    && t.slot.msg == (if t.issued == [] then "" else t.issued[|t.issued| - 1])
    && (forall k :: 0 <= k < |t.flags| ==> t.flags[k] == (k + 1) % UINT32)
    && (t.slot.status.Empty? <==> t.issued == [] || (t.answered && !t.remarked))
    && (forall i :: 0 <= i < |t.updates| ==> GoodUpdate(t.updates[i], t.issued))
  }

  lemma ModSucc(n: nat)
    ensures (n % UINT32 + 1) % UINT32 == (n + 1) % UINT32
  {
  }

  lemma SubmitGood(t: Trace, msg: string, force: bool)
    requires Good(t)
    ensures Good(Step(t, DoSubmit(msg, force)))
  {
    ModSucc(|t.issued|);
    forall i | 0 <= i < |t.updates| ensures GoodUpdate(t.updates[i], t.issued + [msg]) {
      assert GoodUpdate(t.updates[i], t.issued);
    }
  }

  lemma RespondGood(t: Trace, flag: nat, text: string)
    requires Good(t)
    ensures Good(Respond(t, flag, text))
  {
    AttributeIff(t.slot.msg);
    hide IsAttribute;
    hide ToUpper;
  }

  lemma StepGood(t: Trace, ev: Event)
    requires Good(t)
    ensures Good(Step(t, ev))
  {
    match ev
    case DoSubmit(msg, force) => SubmitGood(t, msg, force);
    case DoMark(_) =>
    case DoRespond(flag, text) => RespondGood(t, flag, text);
  }

  lemma {:induction false} RunGood(t: Trace, evs: seq<Event>)
    requires Good(t)
    ensures Good(Run(t, evs))
    decreases |evs|
  {
    if evs != [] {
      StepGood(t, evs[0]);
      RunGood(Step(t, evs[0]), evs[1..]);
    }
  }

  // ------------------------------------------------------------------ theorems

  /** Over every interleaving: command number k carries flag k modulo 2^32, and
    * every attribute is stored under the upper-cased text of the command issued
    * under the flag of the response. */
  lemma FlagsNumberCommands(evs: seq<Event>)
    ensures
      var t := Run(Start(), evs);
      && |t.flags| == |t.issued| && (forall k :: 0 <= k < |t.flags| ==> t.flags[k] == (k + 1) % UINT32)
      && (forall i :: 0 <= i < |t.updates| ==> GoodUpdate(t.updates[i], t.issued))
  {
    RunGood(Start(), evs);
  }

  /** The flags handed out are pairwise different exactly while the counter has
    * not come round. */
  lemma FlagsDistinct(evs: seq<Event>)
    ensures
      var flags := Run(Start(), evs).flags;
      (forall i, j :: 0 <= i < j < |flags| ==> flags[i] != flags[j]) <==> |flags| <= 0x1_0000_0000
  {
    var flags := Run(Start(), evs).flags;
    RunGood(Start(), evs);
    if |flags| > UINT32 {
      assert flags[0] == flags[UINT32];
    }
  }

  /** An unforced command is accepted exactly when none was issued yet or the
    * latest was answered and nobody has marked the slot as sent since. */
  lemma UnforcedNeedsAnswer(evs: seq<Event>, msg: string)
    ensures
      var t := Run(Start(), evs);
      Step(t, DoSubmit(msg, false)).issued == t.issued + [msg] <==> t.issued == [] || (t.answered && !t.remarked)
  {
    RunGood(Start(), evs);
  }

  /** A response under any flag but the latest changes nothing. */
  lemma StaleFlagIgnored(evs: seq<Event>, flag: nat, text: string)
    requires flag != |Run(Start(), evs).issued| % UINT32
    ensures Step(Run(Start(), evs), DoRespond(flag, text)) == Run(Start(), evs)
  {
    RunGood(Start(), evs);
  }

  /** The answer to an attribute command is stored, and nothing else is. */
  lemma AttributeStored(evs: seq<Event>, flag: nat, text: string)
    ensures
      var t := Run(Start(), evs);
      var n := |t.issued|;
      Step(t, DoRespond(flag, text)).updates == t.updates
        + if n > 0 && flag == n % UINT32 && ToUpper(t.issued[n - 1]) in {"VERSION#", "PARAM#"}
          then [Update(ToUpper(t.issued[n - 1]), text, flag, n)] else []
  {
    RunGood(Start(), evs);
    AttributeIff(Run(Start(), evs).slot.msg);
  }

  /** A sender that finishes its write only after the answer was handled marks the
    * slot as sent again: unforced commands are then refused although nothing is
    * outstanding. */
  lemma LateMarkBlocks(msg: string, text: string, next: string)
    ensures
      var t := Run(Start(), [DoSubmit(msg, false), DoRespond(1, text), DoMark(0)]);
      t.answered && Step(t, DoSubmit(next, false)) == t
  {
    var evs := [DoSubmit(msg, false), DoRespond(1, text), DoMark(0)];
    assert evs[1..] == [DoRespond(1, text), DoMark(0)];
    assert evs[1..][1..] == [DoMark(0)];
    assert evs[1..][1..][1..] == [];
    var t1 := Step(Start(), evs[0]);
    var t2 := Step(t1, evs[1]);
    var t3 := Step(t2, evs[2]);
    assert Run(Start(), evs) == Run(t1, evs[1..]) == Run(t2, evs[1..][1..]) == t3;
  }
}
