/** The stream server's shared state and the methods that run under its mutex,
    each proved against the registry operation it performs. */
module Server {
  import opened Wrappers
  import R = Registry

  type User = R.User
  type Id = R.Id
  type Event = R.Event

  /** One open stream. `out` is the buffered channel, `done` the closed one; the
      ghost fields keep what was taken from and offered to the queue. */
  class Stream {
    const id: Id
    const user: User
    var out: seq<Event>
    var done: bool
    ghost var taken: seq<Event>
    ghost var offered: seq<Event>

    ghost function View(): R.Stream
      reads this
    {
      R.Stream(user, out, done, taken, offered)
    }

    constructor (id: Id, user: User)
      ensures this.id == id && View() == R.Opened(user, false)
    {
      this.id, this.user, out, done := id, user, [], false;
      taken, offered := [], [];
    }

    method Stop()
      modifies this`done
      ensures View() == old(View()).(done := true)
    {
      done := true;
    }

    /** Queues e without blocking; a full queue stops the stream and reports false. */
    method Offer(e: Event) returns (ok: bool)
      modifies this
      ensures View() == R.OfferTo(old(View()), e)
      ensures ok == !R.Overflows(old(View()))
    {
      offered := offered + [e];
      if done { return true; }
      if |out| < R.BUFFER_SIZE {
        out := out + [e];
        return true;
      }
      Stop();
      ok := false;
    }
  }

  ghost function Keys<V>(streams: map<User, map<Id, V>>): map<User, set<Id>> {
    map u | u in streams :: streams[u].Keys
  }

  /** deregisterLocked on the registered streams: an id goes, and so does a user left with none. */
  function Removed<V>(streams: map<User, map<Id, V>>, user: User, id: Id): map<User, map<Id, V>> {
    if user !in streams then streams
    else if streams[user] - {id} == map[] then streams - {user}
    else streams[user := streams[user] - {id}]
  }

  lemma RemovedKeys<V>(streams: map<User, map<Id, V>>, user: User, id: Id)
    requires forall u :: u in streams ==> streams[u] != map[] && (id in streams[u] ==> u == user)
    ensures var k := Keys(streams);
            Keys(Removed(streams, user, id)) == map u | u in k && k[u] - {id} != {} :: k[u] - {id}
  {
    var k, left := Keys(streams), Keys(Removed(streams, user, id));
    forall u | u in streams
      ensures u in left <==> k[u] - {id} != {}
      ensures u in left ==> left[u] == k[u] - {id}
    {
      assert (streams[u] - {id}).Keys == k[u] - {id};
      if u != user {
        assert streams[u] - {id} == streams[u];
        var i :| i in streams[u];
        assert i in k[u] - {id};
      } else if k[u] - {id} != {} {
        var i :| i in k[u] - {id};
        assert i in streams[u] - {id};
      }
    }
  }

  /** deregisterLocked on both maps is the registry's Deregister. */
  lemma RemovedIsDeregister<V>(r: R.Registry, streams: map<User, map<Id, V>>, user: User, id: Id)
    requires R.Valid(r) && r.streams == Keys(streams)
    requires forall u :: u in streams && id in streams[u] ==> u == user
    ensures var left := Removed(streams, user, id);
            && Keys(left) == R.Deregister(r, id).streams
            && (if user in left then r.latest else r.latest - {user}) == R.Deregister(r, id).latest
  {
    hide R.Valid, Removed;
    ValidParts(r);
    forall u | u in streams ensures streams[u] != map[] {
      assert r.streams[u] != {};
    }
    RemovedKeys(streams, user, id);
    LatestLeft(r, user, id);
    var left := Removed(streams, user, id);
    assert left.Keys == Keys(left).Keys;
  }

  lemma DeregisterIs(r: R.Registry, id: Id)
    requires R.Valid(r)
    ensures var r' := R.Deregister(r, id);
            R.Valid(r') && r'.all == r.all && r'.closed == r.closed
  {
    R.WithoutValid(r, {id});
  }

  /** A stream is registered under its own user alone. */
  lemma RegisteredUnder(r: R.Registry, streams: map<User, map<Id, Stream>>, st: Stream)
    requires R.Valid(r) && r.streams == Keys(streams) && st.id in r.all && r.all[st.id].user == st.user
    ensures forall u :: u in streams && st.id in streams[u] ==> u == st.user
  {
    forall u | u in streams && st.id in streams[u] ensures u == st.user {
      assert u in r.streams && st.id in r.streams[u];
    }
  }

  lemma ValidParts(r: R.Registry)
    requires R.Valid(r)
    ensures r.latest.Keys <= r.streams.Keys && forall u :: u in r.streams ==> r.streams[u] != {}
  {}

  lemma LatestLeft(r: R.Registry, user: User, id: Id)
    requires r.latest.Keys <= r.streams.Keys
    requires forall u :: u in r.streams ==> r.streams[u] != {} && (id in r.streams[u] ==> u == user)
    ensures var r' := R.Deregister(r, id);
            r'.latest == if user in r'.streams then r.latest else r.latest - {user}
  {
    forall u | u in r.streams && u != user ensures r.streams[u] - {id} == r.streams[u] {}
  }

  ghost function Views(all: map<Id, Stream>): map<Id, R.Stream>
    reads all.Values
  {
    map i | i in all :: all[i].View()
  }

  /** The two-level map holds the very streams that were registered. */
  ghost predicate Linked(all: map<Id, Stream>, streams: map<User, map<Id, Stream>>) {
    && (forall i :: i in all ==> all[i].id == i)
    && (forall u, i :: u in streams && i in streams[u] ==> i in all && all[i] == streams[u][i] && all[i].user == u)
  }

  lemma RemovedLinked(all: map<Id, Stream>, streams: map<User, map<Id, Stream>>, user: User, id: Id)
    requires Linked(all, streams)
    ensures Linked(all, Removed(streams, user, id))
  {
    var left := Removed(streams, user, id);
    forall u, i | u in left && i in left[u]
      ensures i in all && all[i] == left[u][i] && all[i].user == u
    {
      assert u in streams && i in streams[u] && left[u][i] == streams[u][i];
    }
  }

  /** register on the registered streams: a user's first stream adds the user. */
  function Added(streams: map<User, map<Id, Stream>>, st: Stream): map<User, map<Id, Stream>> {
    var inner: map<Id, Stream> := if st.user in streams then streams[st.user] else map[];
    streams[st.user := inner[st.id := st]]
  }

  lemma AddedKeys(streams: map<User, map<Id, Stream>>, st: Stream)
    ensures var k := Keys(streams);
            Keys(Added(streams, st)) == k[st.user := (if st.user in k then k[st.user] else {}) + {st.id}]
  {
    var inner: map<Id, Stream> := if st.user in streams then streams[st.user] else map[];
    assert inner[st.id := st].Keys == inner.Keys + {st.id};
    var k := Keys(streams);
    var wanted := k[st.user := (if st.user in k then k[st.user] else {}) + {st.id}];
    assert Keys(Added(streams, st)).Keys == wanted.Keys;
    forall u | u in wanted ensures Keys(Added(streams, st))[u] == wanted[u] {
      assert u != st.user ==> u in streams;
    }
  }

  lemma ViewsAdded(all: map<Id, Stream>, st: Stream)
    requires st.id !in all
    ensures Views(all[st.id := st]) == Views(all)[st.id := st.View()]
  {
    assert forall i :: i in all ==> all[st.id := st][i] == all[i];
  }

  lemma AddedLinked(all: map<Id, Stream>, streams: map<User, map<Id, Stream>>, st: Stream)
    requires Linked(all, streams) && st.id !in all
    ensures Linked(all[st.id := st], Added(streams, st))
  {
    var added := Added(streams, st);
    forall u, i | u in added && i in added[u]
      ensures added[u][i] == all[st.id := st][i] && added[u][i].user == u && i in all[st.id := st]
    {
      if i != st.id { assert u in streams && i in streams[u]; }
    }
  }

  /** The events still to be offered to the users that are left: all of their streams'. */
  ghost predicate LeftFor(events: map<Id, Event>, users: set<User>, keys: map<User, set<Id>>, all: map<Id, Stream>) {
    && users <= keys.Keys
    && (forall u, i :: u in keys && i in keys[u] ==> i in all && all[i].user == u)
    && (forall i :: i in events <==> i in all && all[i].user in users && i in keys[all[i].user])
    && (forall i :: i in events ==> events[i].Ping?)
  }

  lemma LeftForOneLess(events: map<Id, Event>, users: set<User>, keys: map<User, set<Id>>, all: map<Id, Stream>,
                       u: User)
    requires LeftFor(events, users, keys, all) && u in users
    ensures LeftFor(events - keys[u], users - {u}, keys, all)
    ensures keys[u] <= events.Keys && forall i :: i in events ==> events[i].Ping?
  {}

  /** The users but one have the streams they had. */
  ghost predicate Kept(was: map<User, set<Id>>, now: map<User, set<Id>>, user: User) {
    forall u :: u in was && u != user ==> u in now && now[u] == was[u]
  }

  lemma KeptNow(was: map<User, set<Id>>, user: User)
    ensures Kept(was, was, user)
  {}

  lemma KeptThrough(first: map<User, set<Id>>, was: map<User, set<Id>>, now: map<User, set<Id>>, user: User)
    requires Kept(first, was, user) && Kept(was, now, user)
    ensures Kept(first, now, user)
  {}

  lemma KeptBut(was: map<User, set<Id>>, now: map<User, set<Id>>, user: User)
    requires Kept(was, now, user)
    ensures forall u :: u in was && u != user ==> u in now && now[u] == was[u]
  {}

  lemma NoneLeft(events: map<Id, Event>, keys: map<User, set<Id>>, all: map<Id, Stream>)
    requires LeftFor(events, {}, keys, all)
    ensures events == map[]
  {}

  lemma KeysOf<V>(streams: map<User, map<Id, V>>)
    ensures Keys(streams).Keys == streams.Keys
    ensures forall u :: u in streams ==> Keys(streams)[u] == streams[u].Keys
  {}

  lemma WithoutOneMore<V>(m: map<Id, V>, ids: set<Id>, todo: set<Id>, i: Id)
    requires i in todo && todo <= ids
    ensures (m - (ids - todo)) - {i} == m - (ids - (todo - {i}))
  {
    assert ids - (todo - {i}) == (ids - todo) + {i};
  }

  function StreamsOf(streams: map<User, map<Id, Stream>>, owner: User): map<Id, Stream> {
    if owner in streams then streams[owner] else map[]
  }

  lemma OneOffered(was: R.Registry, all: map<Id, R.Stream>, id: Id, e: Event)
    requires id in was.all && all == was.all[id := R.OfferTo(was.all[id], e)]
    ensures was.(all := all) == R.OfferEach(was, map[id := e])
    ensures R.Overflowing(was, map[id := e]) == if R.Overflows(was.all[id]) then {id} else {}
  {}

  class Server {
    var streams: map<User, map<Id, Stream>>
    var latest: map<User, int>
    var closed: bool
    ghost var all: map<Id, Stream>   // every stream ever registered

    ghost function Abs(): R.Registry
      reads this, all.Values
    {
      R.Registry(Views(all), Keys(streams), latest, closed)
    }

    ghost predicate Valid()
      reads this, all.Values
    {
      Linked(all, streams) && R.Valid(Abs())
    }

    constructor ()
      ensures Valid() && Abs() == R.Registry(map[], map[], map[], false) && all == map[]
    {
      streams, latest, closed, all := map[], map[], false, map[];
    }

    /** A missing user's latest id reads as 0. */
    method RaiseLatestLocked(user: User, id: int)
      modifies this`latest
      ensures Abs() == R.Raise(old(Abs()), user, id)
    {
      if id > (if user in latest then latest[user] else 0) {
        latest := latest[user := id];
      }
    }

    method DeregisterLocked(st: Stream)
      requires Valid() && st.id in all && all[st.id] == st
      modifies this`streams, this`latest
      ensures Valid() && Abs() == R.Deregister(old(Abs()), st.id)
    {
      hide R.Valid, Removed, R.Deregister;
      ghost var was := Abs();
      DeregisterIs(was, st.id);
      RegisteredUnder(was, streams, st);
      RemovedIsDeregister(was, streams, st.user, st.id);
      RemovedLinked(all, streams, st.user, st.id);
      streams := Removed(streams, st.user, st.id);
      if st.user !in streams {
        latest := latest - {st.user};
      }
      assert Abs() == R.Deregister(was, st.id);
    }

    /** Queues e on st, deregistering st at once if that drops it as a slow client. */
    method OfferLocked(st: Stream, e: Event)
      requires Valid() && st.id in all && all[st.id] == st && R.Timely(Abs(), st.id, e)
      modifies this`streams, this`latest, st
      ensures Valid() && Abs() == R.OfferAll(old(Abs()), map[st.id := e]) && closed == old(closed)
    {
      ghost var was, events := Abs(), map[st.id := e];
      var ok := OfferOnly(st, e);
      R.OfferEachValid(was, events);
      R.WithoutNone(Abs());
      hide *;
      if !ok {
        DeregisterLocked(st);
      }
      R.OfferAllIs(was, events, if ok then {} else {st.id});
    }

    /** stream.offer on a registered stream, before any deregistering. */
    method OfferOnly(st: Stream, e: Event) returns (ok: bool)
      requires Linked(all, streams) && st.id in all && all[st.id] == st
      modifies st
      ensures Abs() == R.OfferEach(old(Abs()), map[st.id := e])
      ensures R.Overflowing(old(Abs()), map[st.id := e]) == if ok then {} else {st.id}
    {
      hide R.OfferEach, R.OfferTo, R.Overflows, R.Overflowing;
      ghost var was := Abs();
      ok := st.Offer(e);
      OneOffered(was, Abs().all, st.id, e);
    }

    method PingLocked(st: Stream)
      requires Valid() && st.id in all && all[st.id] == st && R.Registered(Abs(), st.id)
      modifies this`streams, this`latest, st
      ensures Valid() && Abs() == R.PingOne(old(Abs()), st.id) && closed == old(closed)
    {
      OfferLocked(st, R.Ping(if st.user in latest then latest[st.user] else 0));
    }

    /** A wake ping: false for a stream the user doesn't have. */
    method ServePing(user: User, id: Id) returns (known: bool)
      requires Valid()
      modifies this`streams, this`latest, all.Values
      ensures Valid() && known == (user in old(Abs()).streams && id in old(Abs()).streams[user])
      ensures Abs() == R.PingUsers(old(Abs()), user, id)
    {
      known := user in streams && id in streams[user];
      if known {
        var st := streams[user][id];
        assert st == all[id] && st.id == id && st.user == user;
        PingLocked(st);
      }
    }

    method Register(st: Stream)
      requires Valid() && st.id !in all && st.View() == R.Opened(st.user, false)
      modifies this`streams, this`all, st`done
      ensures all == old(all)[st.id := st]
      ensures Valid() && Abs() == R.Register(old(Abs()), st.id, st.user)
    {
      ghost var was := Abs();
      if closed { st.Stop(); }
      Enter(st);
      assert st.View() == R.Opened(st.user, was.closed);
      R.RegisterValid(was, st.id, st.user);
    }

    /** Adds a stream that isn't registered yet. */
    method Enter(st: Stream)
      requires Linked(all, streams) && st.id !in all
      modifies this`streams, this`all
      ensures Linked(all, streams) && all == old(all)[st.id := st]
      ensures var was := old(Abs());
              Abs() == was.(all := was.all[st.id := st.View()], streams := R.Register(was, st.id, st.user).streams)
    {
      AddedKeys(streams, st);
      AddedLinked(all, streams, st);
      ViewsAdded(all, st);
      streams := Added(streams, st);
      all := all[st.id := st];
    }

    method Deregister(st: Stream)
      requires Valid() && st.id in all && all[st.id] == st
      modifies this`streams, this`latest
      ensures Valid() && Abs() == R.Deregister(old(Abs()), st.id)
    {
      DeregisterLocked(st);
    }

    /** The streams still to be offered their event: all registered, so still in the map. */
    ghost predicate Pending(events: map<Id, Event>)
      reads this, all.Values
    {
      Valid() && forall i :: i in events ==> R.Timely(Abs(), i, events[i])
    }

    /** One turn of a loop over registered streams. */
    method OfferNext(st: Stream, e: Event, ghost events: map<Id, Event>)
      requires Pending(events) && st.id in events && all[st.id] == st && events[st.id] == e
      modifies this`streams, this`latest, all.Values
      ensures Pending(events - {st.id}) && closed == old(closed)
      ensures R.OfferAll(Abs(), events - {st.id}) == R.OfferAll(old(Abs()), events)
      ensures Kept(old(Keys(streams)), Keys(streams), st.user)
    {
      ghost var was := Abs();
      R.OfferAllProgress(was, events, st.id);
      OfferLocked(st, e);
      forall u | u in was.streams && u != st.user
        ensures u in Keys(streams) && Keys(streams)[u] == was.streams[u]
      {
        R.OfferLeavesOthers(was, st.id, e, u);
      }
    }

    /** What the loop over owner's streams starts with. */
    lemma OwnersStreams(owner: User, e: Event)
      requires Valid() && Pending(R.ToOwner(Abs(), owner, e))
      ensures var events, ids := R.ToOwner(Abs(), owner, e), StreamsOf(streams, owner);
              && events.Keys == ids.Keys
              && (forall i :: i in events ==> events[i] == e)
              && (forall i :: i in ids ==> i in all && ids[i] == all[i] && all[i].id == i)
    {
      hide R.Valid, Views;
    }

    /** Offers e to each of owner's streams, in whatever order the map gives them. */
    method OfferToOwner(owner: User, e: Event)
      requires Valid() && Pending(R.ToOwner(Abs(), owner, e))
      modifies this`streams, this`latest, all.Values
      ensures Valid() && Abs() == R.OfferAll(old(Abs()), R.ToOwner(old(Abs()), owner, e))
    {
      hide *;
      ghost var events := R.ToOwner(Abs(), owner, e);
      var ids := StreamsOf(streams, owner);
      var left := ids.Keys;
      OwnersStreams(owner, e);
      while left != {}
        invariant Pending(events) && events.Keys == left <= ids.Keys
        invariant forall i :: i in events ==> events[i] == e
        invariant R.OfferAll(Abs(), events) == R.OfferAll(old(Abs()), R.ToOwner(old(Abs()), owner, e))
        decreases left
      {
        var i :| i in left;
        OfferNext(ids[i], e, events);
        events, left := events - {i}, left - {i};
      }
      assert events == map[];
      PendingValid(events);
    }

    /** Deliver: owner is what the lookup found, None for an error or no owner. */
    method Deliver(owner: Option<User>, e: Event)
      requires Valid() && e.Live?
      modifies this`streams, this`latest, all.Values
      ensures Valid()
      ensures Abs() == if owner.None? then old(Abs()) else R.Deliver(old(Abs()), owner.value, e)
    {
      ghost var was := Abs();
      if streams == map[] || owner.None? {
        R.OfferNone(was);
        return;
      }
      R.DeliverTimely(was, owner.value, e);
      assert owner.value in streams ==> was.streams[owner.value] != {};
      if e.messageId.Some? && owner.value in streams && |streams[owner.value]| > 0 {
        RaiseLatestLocked(owner.value, e.messageId.value);
      }
      assert Abs() == R.RaisedFor(was, owner.value, e);
      OfferToOwner(owner.value, e);
    }

    /** A stream found in the two-level map is the one registered under its id. */
    lemma Find(user: User)
      requires Valid() && user in streams
      ensures forall i :: i in streams[user] ==>
                            i in all && all[i] == streams[user][i] && all[i].id == i && all[i].user == user
    {}

    /** Pings each of one user's streams: pingAll's inner loop. */
    method PingUser(user: User, ghost events: map<Id, Event>) returns (ghost left: map<Id, Event>)
      requires Valid() && Pending(events) && user in streams && streams[user].Keys <= events.Keys
      requires forall i :: i in events ==> events[i].Ping?
      modifies this`streams, this`latest, all.Values
      ensures Pending(left) && closed == old(closed)
      ensures left == events - old(streams)[user].Keys
      ensures R.OfferAll(Abs(), left) == R.OfferAll(old(Abs()), events)
      ensures Kept(old(Keys(streams)), Keys(streams), user)
    {
      hide *;
      var ids := streams[user];
      Find(user);
      var todo := ids.Keys;
      left := events;
      ghost var first := Keys(streams);
      KeptNow(first, user);
      while todo != {}
        invariant Pending(left) && closed == old(closed)
        invariant left == events - (ids.Keys - todo) && todo <= ids.Keys
        invariant R.OfferAll(Abs(), left) == R.OfferAll(old(Abs()), events)
        invariant Kept(first, Keys(streams), user)
        decreases todo
      {
        var i :| i in todo;
        ghost var was := Keys(streams);
        PendingPing(left, i);
        OfferNext(ids[i], R.Ping(if user in latest then latest[user] else 0), left);
        KeptThrough(first, was, Keys(streams), user);
        WithoutOneMore(events, ids.Keys, todo, i);
        left, todo := left - {i}, todo - {i};
      }
      assert ids.Keys - todo == ids.Keys;
    }

    /** A pending ping carries the latest id as it is now. */
    lemma PendingPing(events: map<Id, Event>, i: Id)
      requires Pending(events) && i in events && events[i].Ping?
      ensures i in all && events[i] == R.Ping(if all[i].user in latest then latest[all[i].user] else 0)
    {}

    /** Pings every registered stream, users and streams in whatever order the maps give. */
    method PingAll()
      requires Valid()
      modifies this`streams, this`latest, all.Values
      ensures Valid() && Abs() == R.PingAll(old(Abs()))
    {
      hide *;
      ghost var keys, events := Keys(streams), R.Pings(Abs());
      PingsPending();
      var users := streams.Keys;
      KeysOf(streams);
      while users != {}
        invariant Pending(events) && closed == old(closed)
        invariant LeftFor(events, users, keys, all)
        invariant forall u :: u in users ==> u in Keys(streams) && Keys(streams)[u] == keys[u]
        invariant R.OfferAll(Abs(), events) == R.PingAll(old(Abs()))
        decreases users
      {
        var u :| u in users;
        LeftForOneLess(events, users, keys, all, u);
        KeysOf(streams);
        PendingValid(events);
        ghost var was := Keys(streams);
        events := PingUser(u, events);
        KeptBut(was, Keys(streams), u);
        users := users - {u};
      }
      NoneLeft(events, keys, all);
      PendingValid(events);
    }

    lemma PingsPending()
      requires Valid()
      ensures Pending(R.Pings(Abs())) && LeftFor(R.Pings(Abs()), streams.Keys, Keys(streams), all)
      ensures R.OfferAll(Abs(), R.Pings(Abs())) == R.PingAll(Abs())
    {}

    lemma PendingValid(events: map<Id, Event>)
      requires Pending(events)
      ensures Valid() && (events == map[] ==> R.OfferAll(Abs(), events) == Abs())
    {
      R.OfferNone(Abs());
    }

    /** The second critical section of serveStream's seeding: nothing is raised once
        the user's last stream has ended. */
    method Seed(user: User, queried: int)
      requires Valid()
      modifies this`latest
      ensures Valid() && Abs() == R.Seed(old(Abs()), user, queried)
    {
      assert user in streams ==> Abs().streams[user] != {};
      if user in streams && |streams[user]| > 0 {
        R.RaiseValid(Abs(), user, queried);
        RaiseLatestLocked(user, queried);
      }
    }

    /** Stops every registered stream; register stops those that come later. */
    method CloseStreams()
      requires Valid()
      modifies this`closed, all.Values
      ensures Valid() && Abs() == R.CloseStreams(old(Abs()))
    {
      ghost var was := Abs();
      R.CloseStreamsValid(was);
      StoppedEnds(was);
      ClosedRegistry(was);
      KeysOf(streams);
      hide *;
      var users := streams.Keys;
      while users != {}
        invariant users <= streams.Keys && Linked(all, streams) && Abs() == was.(all := StoppedBut(was, users))
        decreases users
      {
        var u :| u in users;
        StoppedMore(was, users, u);
        StopUser(u);
        users := users - {u};
      }
      Close();
    }

    method Close()
      modifies this`closed
      ensures Abs() == old(Abs()).(closed := true)
    {
      closed := true;
    }

    /** CloseStreams' inner loop. */
    method StopUser(user: User)
      requires Linked(all, streams) && user in streams
      modifies all.Values
      ensures Abs() == old(Abs()).(all := StopIn(old(Views(all)), streams[user].Keys))
    {
      var ids := streams[user];
      var todo := ids.Keys;
      while todo != {}
        invariant todo <= ids.Keys
        invariant forall i :: i in all ==>
                                all[i].View() == if i in ids && i !in todo then old(all[i].View()).(done := true)
                                else old(all[i].View())
        decreases todo
      {
        var i :| i in todo;
        assert ids[i] == all[i];
        ids[i].Stop();
        todo := todo - {i};
      }
    }
  }

  ghost function StopIn(all: map<Id, R.Stream>, ids: set<Id>): map<Id, R.Stream> {
    map i | i in all :: if i in ids then all[i].(done := true) else all[i]
  }

  /** The streams when those of every registered user but the given ones have been stopped. */
  ghost function StoppedBut(r: R.Registry, users: set<User>): map<Id, R.Stream> {
    map i | i in r.all :: if R.Registered(r, i) && r.all[i].user !in users then r.all[i].(done := true) else r.all[i]
  }

  lemma StoppedMore(r: R.Registry, users: set<User>, u: User)
    requires R.Valid(r) && u in users && u in r.streams
    ensures StopIn(StoppedBut(r, users), r.streams[u]) == StoppedBut(r, users - {u})
  {
    forall i | i in r.all ensures i in r.streams[u] <==> R.Registered(r, i) && r.all[i].user == u {}
  }

  lemma StoppedEnds(r: R.Registry)
    ensures StoppedBut(r, r.streams.Keys) == r.all && StoppedBut(r, {}) == R.CloseStreams(r).all
  {}

  lemma ClosedRegistry(r: R.Registry)
    ensures R.CloseStreams(r) == r.(closed := true, all := R.CloseStreams(r).all)
  {}
}
