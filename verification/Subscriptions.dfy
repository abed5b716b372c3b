/** internal/gpsv2/sublist and internal/webapp/tracker/webstream: subscriber sets
  * shared through copied handles, and every client's own index of them.
  *
  * A Go map is an object of its own, and so is the mutex next to it: copying the
  * struct that points to them shares them.  `SubscriberSet` is that pair.  One
  * operation is one step.  An operation that waits for a lock nobody will release
  * does not return; its method then returns `done == false` and leaves the locks
  * that it holds taken for ever.
  */
module Subscriptions {
  import opened Octets
  import opened Options

  const LIMIT: nat := 5

  class SubscriberSet {
    ghost const key: nat  // the one key it is stored under
    var members: set<Client>
    var stuck: bool       // its mutex is held by an operation that never returns

    constructor (ghost key: nat)
      ensures members == {} && !stuck && this.key == key
    {
      this.key := key;
      members := {};
      stuck := false;
    }
  }

  datatype Pushed = Delivered | Gone | Blocked

  class Client {
    var closed: bool
    var locked: bool  // a push has left the client's lock taken
    var buf: seq<seq<Octet>>
    var sublist: map<nat, Sublist>

    constructor ()
      ensures !closed && !locked && buf == [] && sublist == map[]
    {
      closed, locked, buf, sublist := false, false, [], map[];
    }

    /** A push to a closed client returns without releasing the lock it took. */
    method Push(sender: nat, d: seq<Octet>) returns (r: Pushed)
      modifies `buf, `locked
      ensures r == if old(locked) then Blocked else if closed then Gone else Delivered
      ensures buf == if r.Delivered? then old(buf) + [d] else old(buf)
      ensures locked == (old(locked) || closed)
    {
      if locked {
        return Blocked;
      }
      if closed {
        locked := true;
        return Gone;
      }
      buf := buf + [d];
      r := Delivered;
    }
  }

  /** Every member got the message once; the closed ones are gone, with their locks
    * left taken. */
  twostate predicate AllServed(list: SubscriberSet, members: set<Client>, d: seq<Octet>)
    reads list, members
  {
    && list.members == (set c | c in members && !c.closed)
    && (forall c :: c in members ==> c.locked == c.closed && c.buf == if c.closed then old(c.buf) else old(c.buf) + [d])
  }

  /** The send was cut short: open members stay, and nobody got more than one copy. */
  twostate predicate SomeServed(list: SubscriberSet, members: set<Client>, d: seq<Octet>)
    reads list, members
  {
    && list.members <= members
    && (forall c :: c in members ==>
          && (!c.closed ==> c in list.members && c.locked == old(c.locked))
          && (old(c.locked) ==> c.locked)
          && (c.buf == old(c.buf) || (!c.closed && c.buf == old(c.buf) + [d])))
  }

  /** A Sublist handle; every GetSublist makes a new one. */
  class Sublist {
    const key: nat
    const list: SubscriberSet
    var data: seq<Octet>
    var eventData: seq<Octet>

    constructor (s: Stored)
      ensures key == s.key && list == s.list && data == s.data && eventData == s.eventData
    {
      key := s.key;
      list := s.list;
      data := s.data;
      eventData := s.eventData;
    }

    /** Adds the subscriber and replays what this handle has sent last.  It returns
      * exactly for an open client: on a closed one the first push keeps the lock
      * that the second waits for, with the list's mutex held. */
    method Subscribe(sub: Client) returns (done: bool)
      modifies list, sub`buf, sub`locked
      ensures done <==> !old(list.stuck) && !sub.closed && !old(sub.locked)
      ensures list.stuck <==> !done
      ensures list.members == if old(list.stuck) then old(list.members) else old(list.members) + {sub}
      ensures sub.buf == if done then old(sub.buf) + [data, eventData] else old(sub.buf)
      ensures sub.locked == (old(sub.locked) || (sub.closed && !old(list.stuck)))
    {
      if list.stuck {
        return false;
      }
      list.members := list.members + {sub};
      var r := sub.Push(key, data);
      if !r.Blocked? {
        r := sub.Push(key, eventData);
      }
      list.stuck := r.Blocked?;
      done := !list.stuck;
    }

    method Unsubscribe(sub: Client) returns (done: bool)
      modifies list
      ensures done <==> !old(list.stuck)
      ensures list.members == if done then old(list.members) - {sub} else old(list.members)
      ensures list.stuck == old(list.stuck)
    {
      if list.stuck {
        return false;
      }
      list.members := list.members - {sub};
      done := true;
    }

    /** A completed send pushes once to every member and removes exactly the closed
      * ones, whose locks it leaves taken.  It completes exactly when no member's
      * lock was left taken before; otherwise the mutex of the set is never
      * released, and some members may have been served. */
    method Send(sender: nat, d: seq<Octet>) returns (done: bool)
      modifies list, list.members`buf, list.members`locked
      ensures done <==> !old(list.stuck) && forall c :: c in old(list.members) ==> !old(c.locked)
      ensures list.stuck <==> !done
      ensures if done then AllServed(list, old(list.members), d) else SomeServed(list, old(list.members), d)
    {
      if list.stuck {
        return false;
      }
      ghost var all := list.members;
      var todo := list.members;
      while todo != {}
        invariant todo <= all && !list.stuck
        invariant list.members == set c | c in all && (c in todo || !c.closed)
        invariant forall c :: c in todo ==> c.buf == old(c.buf) && c.locked == old(c.locked)
        invariant forall c :: c in all && c !in todo ==>
          !old(c.locked) && c.locked == c.closed && c.buf == if c.closed then old(c.buf) else old(c.buf) + [d]
        decreases |todo|
      {
        var sub :| sub in todo;
        var r := sub.Push(sender, d);
        if r.Blocked? {
          list.stuck := true;
          return false;
        }
        if r.Gone? {
          list.members := list.members - {sub};
        }
        todo := todo - {sub};
      }
      done := true;
    }

    method SendLocation(d: seq<Octet>) returns (done: bool)
      modifies `data, list, list.members`buf, list.members`locked
      ensures data == d
      ensures done <==> !old(list.stuck) && forall c :: c in old(list.members) ==> !old(c.locked)
      ensures list.stuck <==> !done
      ensures if done then AllServed(list, old(list.members), d) else SomeServed(list, old(list.members), d)
    {
      data := d;
      done := Send(key, data);
    }

    method SendEvent(d: seq<Octet>) returns (done: bool)
      modifies `eventData, list, list.members`buf, list.members`locked
      ensures eventData == d
      ensures done <==> !old(list.stuck) && forall c :: c in old(list.members) ==> !old(c.locked)
      ensures list.stuck <==> !done
      ensures if done then AllServed(list, old(list.members), d) else SomeServed(list, old(list.members), d)
    {
      eventData := d;
      done := Send(key, eventData);
    }
  }

  /** The struct kept in the map; its data fields are never written again. */
  datatype Stored = Stored(key: nat, list: SubscriberSet, data: seq<Octet>, eventData: seq<Octet>)

  class SublistMap {
    var list: map<nat, Stored>
    ghost var sets: set<SubscriberSet>  // the sets of all keys

    /** Different keys have different sets. */
    ghost predicate Valid()
      reads this
    {
      forall k :: k in list ==> list[k].key == k == list[k].list.key && list[k].list in sets
    }

    constructor ()
      ensures Valid() && list == map[] && sets == {}
    {
      list, sets := map[], {};
    }

    /** Every handle for a key denotes the one set of that key, which never changes
      * once it exists. */
    method GetSublist(key: nat, create: bool) returns (handle: Option<Sublist>)
      requires Valid()
      modifies this
      ensures Valid()
      ensures handle.Some? <==> key in old(list) || create
      ensures handle.Some? ==>
        && fresh(handle.value) && handle.value.key == key
        && key in list && handle.value.list == list[key].list
        && list.Keys == old(list).Keys + {key}
      ensures forall k :: k in old(list) ==> k in list && list[k] == old(list)[k]
      ensures handle.None? ==> list == old(list)
      ensures handle.Some? && key !in old(list) ==> handle.value.data == [0] && handle.value.eventData == [1]
      ensures handle.Some? ==> handle.value.data == list[key].data && handle.value.eventData == list[key].eventData
      ensures fresh(sets - old(sets)) && old(sets) <= sets
      ensures forall s :: s in sets && s !in old(sets) ==> s.members == {} && !s.stuck
      ensures handle.Some? && key !in old(list) ==> fresh(list[key].list) && list[key].list in sets
    {
      if key in list {
        var h := new Sublist(list[key]);
        return Some(h);
      }
      if !create {
        return None;
      }
      var s := new SubscriberSet(key);
      var m := Stored(key, s, [0], [1]);
      list := list[key := m];
      sets := sets + {s};
      var h := new Sublist(m);
      handle := Some(h);
    }
  }

  // ------------------------------------------------------------- the two indexes

  /** A client's own map agrees with the sets: its handles denote the right set, and
    * while it is open it is in exactly the sets it has handles for. */
  ghost predicate Indexed(m: SublistMap, c: Client)
    reads m, m.sets, c
  {
    && (forall id :: id in c.sublist ==>
          id in m.list && c.sublist[id].key == id && c.sublist[id].list == m.list[id].list)
    && (!c.closed ==>
          forall id :: id in m.list && m.list[id].list in m.sets ==>
            (c in m.list[id].list.members <==> id in c.sublist))
  }

  ghost predicate Linked(m: SublistMap, clients: set<Client>)
    reads m, m.sets, clients
  {
    && m.Valid()
    && (forall s :: s in m.sets ==> s.members <= clients)
    && (forall c :: c in clients ==> Indexed(m, c))
  }

  /** Only closed clients have their lock left taken, and an open client has at most
    * five subscriptions. */
  predicate Fits(c: Client)
    reads c
  {
    (c.locked ==> c.closed) && (c.closed || |c.sublist.Keys| <= 5)
  }

  ghost predicate World(m: SublistMap, clients: set<Client>)
    reads m, m.sets, clients
  {
    Linked(m, clients) && forall c :: c in clients ==> Fits(c)
  }

  /** The mutex of the set of this key, if there is one, can be taken. */
  ghost predicate Free(m: SublistMap, id: nat)
    reads m, m.sets
  {
    id in m.list && m.list[id].list in m.sets ==> !m.list[id].list.stuck
  }

  ghost function FreeKeys(m: SublistMap): iset<nat>
    reads m, m.sets
  {
    iset k: nat | Free(m, k)
  }

  method Connect(m: SublistMap, ghost clients: set<Client>) returns (c: Client)
    requires World(m, clients)
    ensures fresh(c) && !c.closed && c.sublist == map[] && World(m, clients + {c})
  {
    c := new Client();
    assert forall d :: d in clients ==> Indexed(m, d);
  }

  /** A read or write error; the client's lock must be free. */
  method Close(m: SublistMap, c: Client, ghost clients: set<Client>) returns (done: bool)
    requires World(m, clients) && c in clients
    modifies c`closed
    ensures World(m, clients) && c.closed
    ensures done <==> !c.locked
  {
    done := !c.locked;
    if done {
      c.closed := true;
    }
    assert forall d :: d in clients && d != c ==> Indexed(m, d);
  }

  /** GetSublist keeps both indexes: a new set is empty. */
  method Get(m: SublistMap, id: nat, ghost clients: set<Client>) returns (h: Sublist)
    requires Linked(m, clients)
    modifies m
    ensures Linked(m, clients) && fresh(h) && id in m.list && h.key == id && h.list == m.list[id].list
    ensures fresh(m.sets - old(m.sets)) && old(m.sets) <= m.sets
    ensures FreeKeys(m) == old(FreeKeys(m))
  {
    var r := m.GetSublist(id, true);
    h := r.value;
    forall c | c in clients ensures Indexed(m, c) {
      assert old(Indexed(m, c));
    }
  }

  /** Only an open client gets through. */
  method Join(m: SublistMap, c: Client, id: nat, h: Sublist, ghost clients: set<Client>) returns (done: bool)
    requires Linked(m, clients) && c in clients && id !in c.sublist
    requires id in m.list && h.key == id && h.list == m.list[id].list
    requires c.locked ==> c.closed
    modifies h.list, c
    ensures Linked(m, clients)
    ensures done <==> old(Free(m, id)) && !c.closed
    ensures c.sublist == (if done then old(c.sublist)[id := h] else old(c.sublist)) && c.closed == old(c.closed)
    ensures c.locked ==> c.closed
    ensures done ==> c.locked == old(c.locked) && FreeKeys(m) == old(FreeKeys(m))
    ensures !done ==> !Free(m, id)
  {
    done := h.Subscribe(c);
    if !done {
      forall d | d in clients ensures Indexed(m, d) {
        assert old(Indexed(m, d));
      }
      return;
    }
    c.sublist := c.sublist[id := h];
    forall d | d in clients ensures Indexed(m, d) {
      assert old(Indexed(m, d));
    }
  }

  method Leave(m: SublistMap, c: Client, id: nat, ghost clients: set<Client>) returns (done: bool)
    requires Linked(m, clients) && c in clients && id in c.sublist
    modifies m.list[id].list, c`sublist
    ensures Linked(m, clients)
    ensures done <==> old(Free(m, id))
    ensures c.sublist == if done then old(c.sublist) - {id} else old(c.sublist)
    ensures FreeKeys(m) == old(FreeKeys(m))
  {
    done := c.sublist[id].Unsubscribe(c);
    if done {
      c.sublist := c.sublist - {id};
    }
    forall d | d in clients ensures Indexed(m, d) {
      assert old(Indexed(m, d));
    }
  }

  /** A new subscription. */
  method Track(m: SublistMap, c: Client, id: nat, ghost clients: set<Client>) returns (done: bool)
    requires Linked(m, clients) && c in clients && id !in c.sublist && (c.locked ==> c.closed)
    modifies m, m.sets, c
    ensures Linked(m, clients)
    ensures fresh(m.sets - old(m.sets)) && old(m.sets) <= m.sets
    ensures done <==> old(Free(m, id)) && !c.closed
    ensures c.closed == old(c.closed) && (c.locked ==> c.closed)
    ensures if done then Joined(c.sublist.Keys, old(c.sublist).Keys, [id]) else c.sublist == old(c.sublist)
    ensures done ==> FreeKeys(m) == old(FreeKeys(m))
    ensures !done ==> !Free(m, id)
  {
    var h := Get(m, id, clients);
    assert Free(m, id) <==> id in FreeKeys(m);
    done := Join(m, c, id, h, clients);
  }

  method Limit(m: SublistMap, c: Client, ghost clients: set<Client>)
    requires Linked(m, clients) && c in clients
    modifies c`closed
    ensures Linked(m, clients)
    ensures c.closed <==> old(c.closed) || |c.sublist.Keys| > LIMIT
    ensures FreeKeys(m) == old(FreeKeys(m))
  {
    if |c.sublist.Keys| > LIMIT {
      c.closed := true;
    }
    assert forall d :: d in clients && d != c ==> Indexed(m, d);
  }

  /** A client as an ADDSUB message sees it; `going` ends when an id never returns. */
  datatype Reader = Reader(keys: set<nat>, closed: bool, going: bool)

  /** One id: known, or new and subscribed to, or new and stuck.  `free` are the keys
    * whose mutex can be taken. */
  ghost function AfterId(free: iset<nat>, r: Reader, id: nat): Reader {
    if !r.going then r
    else if id !in r.keys && (id !in free || r.closed) then r.(going := false)
    else Reader(r.keys + {id}, r.closed || |r.keys + {id}| > LIMIT, true)
  }

  ghost function AfterIds(free: iset<nat>, r: Reader, ids: seq<nat>): Reader
    decreases |ids|
  {
    if ids == [] then r else AfterId(free, AfterIds(free, r, ids[..|ids| - 1]), ids[|ids| - 1])
  }

  lemma {:induction false} Stopped(free: iset<nat>, r: Reader, ids: seq<nat>, i: nat)
    requires i <= |ids| && !AfterIds(free, r, ids[..i]).going
    ensures AfterIds(free, r, ids) == AfterIds(free, r, ids[..i])
    decreases |ids|
  {
    if i < |ids| {
      var front := ids[..|ids| - 1];
      assert front[..i] == ids[..i];
      Stopped(free, r, front, i);
    } else {
      assert ids[..i] == ids;
    }
  }

  lemma Proceeds(free: iset<nat>, r: Reader, ids: seq<nat>, i: nat, now: Reader, next: Reader)
    requires i < |ids| && now == AfterIds(free, r, ids[..i]) && next == AfterId(free, now, ids[i])
    ensures next == AfterIds(free, r, ids[..if next.going then i + 1 else |ids|])
  {
    assert ids[..i + 1][..i] == ids[..i];
    if !next.going {
      Stopped(free, r, ids, i + 1);
      assert ids[..|ids|] == ids;
    }
  }

  ghost function View(c: Client, going: bool): Reader
    reads c
  {
    Reader(c.sublist.Keys, c.closed, going)
  }

  /** One id of an ADDSUB message. */
  method AddOne(m: SublistMap, c: Client, id: nat, ghost clients: set<Client>) returns (done: bool)
    requires Linked(m, clients) && c in clients && (c.locked ==> c.closed)
    modifies m, m.sets, c
    ensures Linked(m, clients)
    ensures fresh(m.sets - old(m.sets)) && old(m.sets) <= m.sets
    ensures View(c, done) == AfterId(old(FreeKeys(m)), old(View(c, true)), id)
    ensures c.locked ==> c.closed
    ensures done ==> FreeKeys(m) == old(FreeKeys(m))
  {
    hide Linked;
    hide Indexed;
    if id !in c.sublist {
      done := Track(m, c, id, clients);
      if !done {
        return;
      }
      assert c.sublist.Keys == old(c.sublist).Keys + {id};
    }
    Limit(m, c, clients);
    done := true;
    assert c.sublist.Keys == old(c.sublist).Keys + {id};
  }

  ghost predicate Joined(keys: set<nat>, start: set<nat>, ids: seq<nat>) {
    forall id :: id in keys <==> id in start || id in ids
  }

  /** The keys that an ADDSUB message leaves when all its ids get through. */
  function Wanted(keys: set<nat>, ids: seq<nat>): set<nat>
    decreases |ids|
  {
    if ids == [] then keys else Wanted(keys, ids[..|ids| - 1]) + {ids[|ids| - 1]}
  }

  lemma {:induction false} WantedKeys(keys: set<nat>, ids: seq<nat>)
    ensures forall id :: id in Wanted(keys, ids) <==> id in keys || id in ids
    decreases |ids|
  {
    if ids != [] {
      WantedKeys(keys, ids[..|ids| - 1]);
      assert ids == ids[..|ids| - 1] + [ids[|ids| - 1]];
    }
  }

  lemma SubsetSize(a: set<nat>, b: set<nat>)
    requires a <= b
    ensures |a| <= |b|
  {
    assert b == a + (b - a);
  }

  /** When a message is processed to its end: the mutexes of the new keys are free,
    * and an open client does not reach its seventh subscription, a closed one asks
    * for nothing new. */
  ghost predicate Completes(free: iset<nat>, keys: set<nat>, closed: bool, ids: seq<nat>) {
    && (forall id :: id in ids && id !in keys ==> id in free)
    && if closed then forall id :: id in ids ==> id in keys else |Wanted(keys, ids)| <= 6
  }

  lemma CompletesFront(free: iset<nat>, keys: set<nat>, closed: bool, ids: seq<nat>)
    requires ids != [] && Completes(free, keys, closed, ids)
    ensures Completes(free, keys, closed, ids[..|ids| - 1])
  {
    var front := ids[..|ids| - 1];
    assert forall id :: id in front ==> id in ids;
    SubsetSize(Wanted(keys, front), Wanted(keys, ids));
  }

  /** The last id of a message whose other ids all got through. */
  lemma LastId(free: iset<nat>, keys: set<nat>, closed: bool, ids: seq<nat>)
    requires ids != [] && (!closed ==> |keys| <= LIMIT) && Completes(free, keys, closed, ids[..|ids| - 1])
    ensures
      var have := Wanted(keys, ids[..|ids| - 1]);
      var r := AfterId(free, Reader(have, closed || |have| > LIMIT, true), ids[|ids| - 1]);
      r.going <==> Completes(free, keys, closed, ids)
  {
    var front, id := ids[..|ids| - 1], ids[|ids| - 1];
    WantedKeys(keys, front);
    assert forall i :: i in ids <==> i in front || i == id;
    if id in Wanted(keys, front) {
      assert Wanted(keys, front) + {id} == Wanted(keys, front);
    }
  }

  /** A message is processed to its end exactly under that condition; the client has
    * then all the keys asked for, and is closed from the sixth on. */
  lemma {:induction false} CompletesIff(free: iset<nat>, keys: set<nat>, closed: bool, ids: seq<nat>)
    requires !closed ==> |keys| <= LIMIT
    ensures
      var r := AfterIds(free, Reader(keys, closed, true), ids);
      && (r.going <==> Completes(free, keys, closed, ids))
      && (r.going ==> r.keys == Wanted(keys, ids) && (r.closed <==> closed || |r.keys| > LIMIT))
      && (r.closed || |r.keys| <= LIMIT)
    decreases |ids|
  {
    if ids != [] {
      CompletesIff(free, keys, closed, ids[..|ids| - 1]);
      if Completes(free, keys, closed, ids[..|ids| - 1]) {
        LastId(free, keys, closed, ids);
        SubsetSize(Wanted(keys, ids[..|ids| - 1]), Wanted(keys, ids));
      } else if Completes(free, keys, closed, ids) {
        CompletesFront(free, keys, closed, ids);
      }
    }
  }

  /** The client after the first i ids of a message. */
  ghost predicate Reads(m: SublistMap, c: Client, going: bool, free: iset<nat>, r: Reader, ids: seq<nat>, i: nat)
    requires i <= |ids|
    reads m, m.sets, c
  {
    && (c.locked ==> c.closed) && (going ==> FreeKeys(m) == free)
    && View(c, going) == AfterIds(free, r, ids[..i])
  }

  method AddNext(m: SublistMap, c: Client, ids: seq<nat>, i: nat, ghost clients: set<Client>, ghost free: iset<nat>,
      ghost r: Reader)
    returns (done: bool)
    requires Linked(m, clients) && c in clients && i < |ids| && Reads(m, c, true, free, r, ids, i)
    modifies m, m.sets, c
    ensures Linked(m, clients)
    ensures fresh(m.sets - old(m.sets)) && old(m.sets) <= m.sets
    ensures Reads(m, c, done, free, r, ids, if done then i + 1 else |ids|)
  {
    ghost var now := View(c, true);
    done := AddOne(m, c, ids[i], clients);
    Proceeds(free, r, ids, i, now, View(c, done));
  }

  /** The ids of an ADDSUB message that are numbers, in order. */
  method AddSub(m: SublistMap, c: Client, ids: seq<nat>, ghost clients: set<Client>) returns (done: bool)
    requires World(m, clients) && c in clients
    modifies m, m.sets, c
    ensures World(m, clients)
    ensures done <==> Completes(old(FreeKeys(m)), old(c.sublist).Keys, old(c.closed), ids)
    ensures done ==> c.sublist.Keys == Wanted(old(c.sublist).Keys, ids)
    ensures done ==> (c.closed <==> old(c.closed) || |c.sublist.Keys| > LIMIT)
  {
    ghost var free, r := FreeKeys(m), View(c, true);
    done := ReadIds(m, c, ids, clients, free, r);
    CompletesIff(free, r.keys, r.closed, ids);
    assert ids[..|ids|] == ids;
  }

  method ReadIds(m: SublistMap, c: Client, ids: seq<nat>, ghost clients: set<Client>, ghost free: iset<nat>,
      ghost r: Reader)
    returns (done: bool)
    requires Linked(m, clients) && c in clients && (c.locked ==> c.closed) && free == FreeKeys(m) && r == View(c, true)
    modifies m, m.sets, c
    ensures Linked(m, clients)
    ensures Reads(m, c, done, free, r, ids, |ids|)
  {
    hide Linked;
    hide Indexed;
    var i := 0;
    done := true;
    while i < |ids|
      invariant 0 <= i <= |ids| && Linked(m, clients) && done
      invariant fresh(m.sets - old(m.sets)) && old(m.sets) <= m.sets
      invariant Reads(m, c, true, free, r, ids, i)
    {
      done := AddNext(m, c, ids, i, clients, free, r);
      if !done {
        return;
      }
      i := i + 1;
    }
  }

  /** One id of a DELSUB message; an id without subscription is ignored. */
  method DelOne(m: SublistMap, c: Client, id: nat, ghost clients: set<Client>) returns (done: bool)
    requires Linked(m, clients) && c in clients
    modifies m.sets, c`sublist
    ensures Linked(m, clients)
    ensures done <==> id !in old(c.sublist) || id in old(FreeKeys(m))
    ensures c.sublist.Keys == if done then old(c.sublist).Keys - {id} else old(c.sublist).Keys
    ensures FreeKeys(m) == old(FreeKeys(m))
  {
    done := true;
    if id in c.sublist {
      assert Free(m, id) <==> id in FreeKeys(m);
      done := Leave(m, c, id, clients);
    }
  }

  /** The keys left, and whether the message got this far. */
  ghost function Without(free: iset<nat>, start: set<nat>, ids: seq<nat>): Option<set<nat>>
    decreases |ids|
  {
    if ids == [] then Some(start)
    else
      var before := Without(free, start, ids[..|ids| - 1]);
      var id := ids[|ids| - 1];
      if before.None? || (id in before.value && id !in free) then None else Some(before.value - {id})
  }

  lemma {:induction false} WithoutIff(free: iset<nat>, start: set<nat>, ids: seq<nat>)
    ensures var w := Without(free, start, ids);
      && (w.Some? <==> forall id :: id in ids && id in start ==> id in free)
      && (w.Some? ==> w.value <= start && forall id :: id in w.value <==> id in start && id !in ids)
    decreases |ids|
  {
    if ids != [] {
      var front := ids[..|ids| - 1];
      WithoutIff(free, start, front);
      assert forall id :: id in ids <==> id in front || id == ids[|ids| - 1];
    }
  }

  lemma {:induction false} WithoutStops(free: iset<nat>, start: set<nat>, ids: seq<nat>, i: nat)
    requires i <= |ids| && Without(free, start, ids[..i]).None?
    ensures Without(free, start, ids).None?
    decreases |ids|
  {
    if i < |ids| {
      assert ids[..|ids| - 1][..i] == ids[..i];
      WithoutStops(free, start, ids[..|ids| - 1], i);
    } else {
      assert ids[..i] == ids;
    }
  }

  method DelNext(m: SublistMap, c: Client, ids: seq<nat>, i: nat, ghost clients: set<Client>, ghost free: iset<nat>,
      ghost start: set<nat>)
    returns (done: bool)
    requires Linked(m, clients) && c in clients && i < |ids|
    requires FreeKeys(m) == free && Without(free, start, ids[..i]) == Some(c.sublist.Keys)
    modifies m.sets, c`sublist
    ensures Linked(m, clients) && FreeKeys(m) == free
    ensures if done then Without(free, start, ids[..i + 1]) == Some(c.sublist.Keys)
            else Without(free, start, ids).None? && c.sublist.Keys == old(c.sublist).Keys
  {
    assert ids[..i + 1][..i] == ids[..i];
    done := DelOne(m, c, ids[i], clients);
    if !done {
      WithoutStops(free, start, ids, i + 1);
    }
  }

  method DropIds(m: SublistMap, c: Client, ids: seq<nat>, ghost clients: set<Client>, ghost free: iset<nat>,
      ghost start: set<nat>)
    returns (done: bool)
    requires Linked(m, clients) && c in clients && FreeKeys(m) == free && c.sublist.Keys == start
    modifies m.sets, c`sublist
    ensures Linked(m, clients)
    ensures if done then Without(free, start, ids) == Some(c.sublist.Keys)
            else Without(free, start, ids).None? && c.sublist.Keys <= start
  {
    var i := 0;
    while i < |ids|
      invariant 0 <= i <= |ids| && Linked(m, clients) && FreeKeys(m) == free
      invariant Without(free, start, ids[..i]) == Some(c.sublist.Keys)
    {
      ghost var keys := c.sublist.Keys;
      done := DelNext(m, c, ids, i, clients, free, start);
      if !done {
        WithoutIff(free, start, ids[..i]);
        return;
      }
      i := i + 1;
    }
    assert ids[..i] == ids;
    done := true;
  }

  /** A DELSUB message is processed to its end exactly when the mutexes of the keys it
    * gives up are free. */
  method DelSub(m: SublistMap, c: Client, ids: seq<nat>, ghost clients: set<Client>) returns (done: bool)
    requires World(m, clients) && c in clients
    modifies m.sets, c`sublist
    ensures World(m, clients)
    ensures done <==> forall id :: id in ids && id in old(c.sublist) ==> id in old(FreeKeys(m))
    ensures done ==> forall id :: id in c.sublist <==> id in old(c.sublist) && id !in ids
  {
    ghost var free, start := FreeKeys(m), c.sublist.Keys;
    WithoutIff(free, start, ids);
    done := DropIds(m, c, ids, clients, free, start);
    SubsetSize(c.sublist.Keys, start);
  }

  /** A location sent through any handle of a key.  It completes exactly when the
    * mutex is free and no member's lock was left taken; it then reached, once, every
    * open client that has the key in its own map, and no other, and the closed
    * clients have left the set. */
  method Broadcast(m: SublistMap, h: Sublist, d: seq<Octet>, ghost clients: set<Client>) returns (done: bool)
    requires World(m, clients) && h.key in m.list && h.list == m.list[h.key].list
    modifies h`data, h.list, h.list.members`buf, h.list.members`locked
    ensures World(m, clients)
    ensures done <==> h.key in old(FreeKeys(m)) && forall c :: c in old(h.list.members) ==> !old(c.locked)
    ensures done ==> forall c :: c in clients && !c.closed ==>
      c.buf == if h.key in c.sublist then old(c.buf) + [d] else old(c.buf)
    ensures done ==> forall c :: c in clients && c.closed ==> c !in h.list.members && c.buf == old(c.buf)
    ensures done ==> forall c :: c in old(h.list.members) && c.closed ==> c.locked
    ensures !done ==> h.key !in FreeKeys(m)
  {
    assert old(Free(m, h.key)) <==> h.key in old(FreeKeys(m));
    done := h.SendLocation(d);
    forall c | c in clients ensures Indexed(m, c) && Fits(c) {
      assert old(Indexed(m, c)) && old(Fits(c));
    }
    assert Free(m, h.key) <==> h.key in FreeKeys(m);
  }

  // ----------------------------------------------------------- how it gets stuck

  lemma {:induction false} DistinctSize(keys: set<nat>, ids: seq<nat>)
    requires forall i :: 0 <= i < |ids| ==> ids[i] !in keys
    requires forall i, j :: 0 <= i < j < |ids| ==> ids[i] != ids[j]
    ensures |Wanted(keys, ids)| == |keys| + |ids|
    decreases |ids|
  {
    if ids != [] {
      var front := ids[..|ids| - 1];
      DistinctSize(keys, front);
      WantedKeys(keys, front);
    }
  }

  /** A client without subscriptions that asks for seven is never read again: the
    * sixth closes it, and the seventh set's mutex stays taken. */
  method SevenSubscriptions(ids: seq<nat>) returns (done: bool)
    requires |ids| == 7 && forall i, j :: 0 <= i < j < |ids| ==> ids[i] != ids[j]
    ensures !done
  {
    var m := new SublistMap();
    var c := Connect(m, {});
    DistinctSize({}, ids);
    done := AddSub(m, c, ids, {c});
  }

  /** Of two sends to different keys of a closed client at most one completes, in any
    * state: the first leaves the lock taken that the second waits for. */
  method SecondSender(m: SublistMap, c: Client, h: Sublist, g: Sublist, d: seq<Octet>, ghost clients: set<Client>)
    returns (first: bool, second: bool)
    requires World(m, clients) && c.closed && h.key != g.key
    requires h.key in m.list && h.list == m.list[h.key].list && c in h.list.members
    requires g.key in m.list && g.list == m.list[g.key].list && c in g.list.members
    modifies h, g, h.list, g.list, h.list.members, g.list.members
    ensures !first || !second
    ensures first <==> h.key in old(FreeKeys(m)) && forall b :: b in old(h.list.members) ==> !old(b.locked)
  {
    first := Broadcast(m, h, d, clients);
    second := g.SendLocation(d);
  }

  method TrackTwo(m: SublistMap, c: Client, j: nat, k: nat, ghost clients: set<Client>)
    requires Linked(m, clients) && c in clients && !c.closed && !c.locked && c.sublist == map[] && j != k
    requires j in FreeKeys(m) && k in FreeKeys(m)
    modifies m, m.sets, c
    ensures Linked(m, clients) && !c.closed && !c.locked && j in c.sublist && k in c.sublist
    ensures fresh(m.sets - old(m.sets)) && FreeKeys(m) == old(FreeKeys(m))
  {
    assert Free(m, j) <==> j in FreeKeys(m);
    var joined := Track(m, c, j, clients);
    assert Free(m, k) <==> k in FreeKeys(m);
    joined := Track(m, c, k, clients);
  }

  /** The two handles of a client that closes. */
  method CloseWithTwo(m: SublistMap, c: Client, j: nat, k: nat, ghost clients: set<Client>)
    returns (h: Sublist, g: Sublist)
    requires Linked(m, clients) && clients == {c} && !c.closed && !c.locked && j in c.sublist && k in c.sublist
    modifies c`closed
    ensures World(m, clients) && c.closed && FreeKeys(m) == old(FreeKeys(m))
    ensures h == c.sublist[j] && h.key == j && j in m.list && h.list == m.list[j].list && c in h.list.members
    ensures g == c.sublist[k] && g.key == k && k in m.list && g.list == m.list[k].list && c in g.list.members
    ensures h.list in m.sets && g.list in m.sets && h.list.members <= clients
  {
    assert Indexed(m, c);
    h, g := c.sublist[j], c.sublist[k];
    c.closed := true;
  }

  method TwoSubscriptions(j: nat, k: nat) returns (m: SublistMap, c: Client)
    requires j != k
    ensures fresh(m) && fresh(c) && fresh(m.sets)
    ensures Linked(m, {c}) && !c.closed && !c.locked && j in c.sublist && k in c.sublist
    ensures j in FreeKeys(m) && k in FreeKeys(m)
  {
    m := new SublistMap();
    c := Connect(m, {});
    TrackTwo(m, c, j, k, {c});
  }

  /** So the second sender to such a client never returns. */
  method ClosedWithTwo(j: nat, k: nat, d: seq<Octet>) returns (first: bool, second: bool)
    requires j != k
    ensures first && !second
  {
    var m, c := TwoSubscriptions(j, k);
    var h, g := CloseWithTwo(m, c, j, k, {c});
    first, second := SecondSender(m, c, h, g, d, {c});
  }
}
