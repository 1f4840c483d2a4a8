/** The stream server's registry as a value: what each critical section under
    the server's mutex does to it, and the invariant all of them keep. */
module Registry {
  import opened Wrappers

  type User = string
  type Id = string

  /** What a stream may queue (bufferSize). */
  const BUFFER_SIZE: nat := 1024

  /** A queued event. A live one has a message id when its MessageId reads as an int64. */
  datatype Event = Ping(lastId: int) | Live(body: string, messageId: Option<int>)

  /** One stream: its queue, whether it has been stopped, the events taken from
      the queue, and every event ever offered to it. */
  datatype Stream = Stream(user: User, out: seq<Event>, done: bool, taken: seq<Event>, offered: seq<Event>)

  datatype Registry = Registry(
    all: map<Id, Stream>,            // every stream ever registered
    streams: map<User, set<Id>>,     // the registered ones, by user
    latest: map<User, int>,
    closed: bool)

  function Latest(r: Registry, u: User): int {
    if u in r.latest then r.latest[u] else 0
  }

  predicate Registered(r: Registry, i: Id) {
    i in r.all && r.all[i].user in r.streams && i in r.streams[r.all[i].user]
  }

  // ---- the operations ----

  function Opened(u: User, done: bool): Stream { Stream(u, [], done, [], []) }

  function Register(r: Registry, i: Id, u: User): Registry {
    r.(all := r.all[i := Opened(u, r.closed)],
    streams := r.streams[u := (if u in r.streams then r.streams[u] else {}) + {i}])
  }

  /** Takes streams out of the registry; a user left with none loses its latest id. */
  function Without(r: Registry, gone: set<Id>): Registry {
    var left := map u | u in r.streams && r.streams[u] - gone != {} :: r.streams[u] - gone;
    r.(streams := left, latest := map u | u in r.latest && u in left :: r.latest[u])
  }

  function Deregister(r: Registry, i: Id): Registry { Without(r, {i}) }

  function Raise(r: Registry, u: User, n: int): Registry {
    if n > Latest(r, u) then r.(latest := r.latest[u := n]) else r
  }

  /** stream.offer: a stopped stream ignores the event, a full one is stopped. */
  function OfferTo(st: Stream, e: Event): Stream {
    var st' := st.(offered := st.offered + [e]);
    if st.done then st'
    else if |st.out| < BUFFER_SIZE then st'.(out := st.out + [e])
    else st'.(done := true)
  }

  /** Whether stream.offer reports a slow client. */
  predicate Overflows(st: Stream) { !st.done && |st.out| >= BUFFER_SIZE }

  function Overflowing(r: Registry, events: map<Id, Event>): set<Id> {
    set i | i in events && i in r.all && Overflows(r.all[i])
  }

  function OfferEach(r: Registry, events: map<Id, Event>): Registry {
    r.(all := map i | i in r.all :: if i in events then OfferTo(r.all[i], events[i]) else r.all[i])
  }

  /** Offers each stream its event, and deregisters those that overflow. */
  function OfferAll(r: Registry, events: map<Id, Event>): Registry {
    Without(OfferEach(r, events), Overflowing(r, events))
  }

  function PingOne(r: Registry, i: Id): Registry
    requires i in r.all
  {
    OfferAll(r, map[i := Ping(Latest(r, r.all[i].user))])
  }

  /** A wake ping for a user's stream, if it is one of theirs. */
  function PingUsers(r: Registry, u: User, i: Id): Registry {
    if i in r.all && u in r.streams && i in r.streams[u] then PingOne(r, i) else r
  }

  function Pings(r: Registry): map<Id, Event> {
    map i | i in r.all && Registered(r, i) :: Ping(Latest(r, r.all[i].user))
  }

  function PingAll(r: Registry): Registry { OfferAll(r, Pings(r)) }

  function ToOwner(r: Registry, owner: User, e: Event): map<Id, Event> {
    if owner in r.streams then map i | i in r.streams[owner] :: e else map[]
  }

  /** Deliver's last critical section. */
  function Deliver(r: Registry, owner: User, e: Event): Registry
    requires e.Live?
  {
    OfferAll(RaisedFor(r, owner, e), ToOwner(r, owner, e))
  }

  function RaisedFor(r: Registry, owner: User, e: Event): Registry
    requires e.Live?
  {
    if e.messageId.Some? && owner in r.streams then Raise(r, owner, e.messageId.value) else r
  }

  /** The second critical section of serveStream's seeding. */
  function Seed(r: Registry, u: User, queried: int): Registry {
    if u in r.streams then Raise(r, u, queried) else r
  }

  function CloseStreams(r: Registry): Registry {
    r.(closed := true, all := map i | i in r.all :: if Registered(r, i) then r.all[i].(done := true) else r.all[i])
  }

  function Stop(r: Registry, i: Id): Registry
    requires i in r.all
  {
    r.(all := r.all[i := r.all[i].(done := true)])
  }

  function Take(r: Registry, i: Id): Registry
    requires i in r.all && r.all[i].out != []
  {
    var st := r.all[i];
    r.(all := r.all[i := st.(out := st.out[1..], taken := st.taken + [st.out[0]])])
  }

  // ---- the invariant ----

  /** Every ping is at least every message id and every ping offered before it. */
  ghost predicate Ordered(es: seq<Event>) {
    forall m, n :: 0 <= m < n < |es| && es[n].Ping? ==> AtMost(es[m], es[n].lastId)
  }

  ghost predicate AtMost(e: Event, n: int) {
    match e
    case Ping(lastId) => lastId <= n
    case Live(_, id) => id.Some? ==> id.value <= n
  }

  ghost predicate AllAtMost(es: seq<Event>, n: int) {
    forall e :: e in es ==> AtMost(e, n)
  }

  /** What is true of a stream by itself. */
  ghost predicate GoodStream(st: Stream) {
    && |st.out| <= BUFFER_SIZE
    && st.taken + st.out <= st.offered
    && (!st.done ==> st.taken + st.out == st.offered)
    && Ordered(st.offered)
  }

  ghost predicate Valid(r: Registry) {
    && (forall u :: u in r.streams ==> r.streams[u] != {})
    && (forall u, i :: u in r.streams && i in r.streams[u] ==> i in r.all && r.all[i].user == u)
    && r.latest.Keys <= r.streams.Keys
    && (forall i :: i in r.all ==> GoodStream(r.all[i]))
    && (forall i :: i in r.all && Registered(r, i) ==>
                      (r.closed ==> r.all[i].done) && AllAtMost(r.all[i].offered, Latest(r, r.all[i].user)))
  }

  /** An event a registered stream can be offered now: a ping carries the latest
      id, and a message's id has already been raised to. */
  ghost predicate Timely(r: Registry, i: Id, e: Event) {
    && Registered(r, i)
    && (e.Ping? ==> e.lastId == Latest(r, r.all[i].user))
    && AtMost(e, Latest(r, r.all[i].user))
  }

  lemma OfferKeepsStream(st: Stream, e: Event, latest: int)
    requires GoodStream(st) && AllAtMost(st.offered, latest)
    requires AtMost(e, latest) && (e.Ping? ==> e.lastId == latest)
    ensures GoodStream(OfferTo(st, e)) && AllAtMost(OfferTo(st, e).offered, latest)
  {
    forall m, n | 0 <= m < n < |st.offered| + 1 && (st.offered + [e])[n].Ping?
      ensures AtMost((st.offered + [e])[m], (st.offered + [e])[n].lastId)
    {
      if n == |st.offered| { assert st.offered[m] in st.offered; }
    }
    assert st.taken + (st.out + [e]) == (st.taken + st.out) + [e];
  }

  lemma OfferEachValid(r: Registry, events: map<Id, Event>)
    requires Valid(r) && forall i :: i in events ==> Timely(r, i, events[i])
    ensures Valid(OfferEach(r, events))
  {
    var r' := OfferEach(r, events);
    forall i | i in r'.all
      ensures GoodStream(r'.all[i]) && r'.all[i].user == r.all[i].user
      ensures Registered(r, i) ==> AllAtMost(r'.all[i].offered, Latest(r, r.all[i].user))
                                   && (r.closed ==> r'.all[i].done)
    {
      if i in events { OfferKeepsStream(r.all[i], events[i], Latest(r, r.all[i].user)); }
    }
  }

  lemma OfferAllValid(r: Registry, events: map<Id, Event>)
    requires Valid(r) && forall i :: i in events ==> Timely(r, i, events[i])
    ensures Valid(OfferAll(r, events))
  {
    OfferEachValid(r, events);
    WithoutValid(OfferEach(r, events), Overflowing(r, events));
  }

  /** Taking streams out leaves the others registered, and their users' latest ids as they were. */
  lemma WithoutKeeps(r: Registry, gone: set<Id>, i: Id)
    requires Valid(r) && i in r.all
    ensures var r' := Without(r, gone);
            && (Registered(r', i) <==> Registered(r, i) && i !in gone)
            && (Registered(r', i) ==> Latest(r', r.all[i].user) == Latest(r, r.all[i].user))
  {
    if Registered(r, i) && i !in gone {
      assert i in r.streams[r.all[i].user] - gone;
    }
  }

  lemma WithoutValid(r: Registry, gone: set<Id>)
    requires Valid(r)
    ensures Valid(Without(r, gone))
  {
    forall i | i in r.all
      ensures var r' := Without(r, gone);
              && (Registered(r', i) <==> Registered(r, i) && i !in gone)
              && (Registered(r', i) ==> Latest(r', r.all[i].user) == Latest(r, r.all[i].user))
    {
      WithoutKeeps(r, gone, i);
    }
  }

  lemma RaiseValid(r: Registry, u: User, n: int)
    requires Valid(r) && u in r.streams
    ensures Valid(Raise(r, u, n)) && Latest(Raise(r, u, n), u) >= n
  {
    var r' := Raise(r, u, n);
    forall i | i in r'.all && Registered(r', i)
      ensures AllAtMost(r'.all[i].offered, Latest(r', r'.all[i].user))
    {
      assert Registered(r, i) && Latest(r, r.all[i].user) <= Latest(r', r.all[i].user);
      forall e | e in r.all[i].offered ensures AtMost(e, Latest(r', r.all[i].user)) {}
    }
  }

  /** With the id raised first, the message can be offered to each of the owner's streams. */
  lemma DeliverTimely(r: Registry, owner: User, e: Event)
    requires Valid(r) && e.Live?
    ensures Valid(RaisedFor(r, owner, e))
    ensures forall i :: i in ToOwner(r, owner, e) ==> Timely(RaisedFor(r, owner, e), i, e)
  {
    if e.messageId.Some? && owner in r.streams { RaiseValid(r, owner, e.messageId.value); }
  }

  lemma DeliverValid(r: Registry, owner: User, e: Event)
    requires Valid(r) && e.Live?
    ensures Valid(Deliver(r, owner, e))
  {
    DeliverTimely(r, owner, e);
    OfferAllValid(RaisedFor(r, owner, e), ToOwner(r, owner, e));
  }

  lemma PingAllValid(r: Registry)
    requires Valid(r)
    ensures Valid(PingAll(r))
  {
    OfferAllValid(r, Pings(r));
  }

  lemma PingOneValid(r: Registry, i: Id)
    requires Valid(r) && Registered(r, i)
    ensures Valid(PingOne(r, i))
  {
    OfferAllValid(r, map[i := Ping(Latest(r, r.all[i].user))]);
  }

  lemma RegisterValid(r: Registry, i: Id, u: User)
    requires Valid(r) && i !in r.all
    ensures Valid(Register(r, i, u)) && Registered(Register(r, i, u), i)
  {
    hide GoodStream, AllAtMost;
    var r' := Register(r, i, u);
    OpenedGood(u, r.closed);
    NothingQueued(Latest(r', u));
    forall v, k | v in r'.streams && k in r'.streams[v]
      ensures k in r'.all && r'.all[k].user == v
    {
      if k != i { assert v in r.streams && k in r.streams[v]; }
    }
    forall k | k in r'.all && Registered(r', k)
      ensures (r'.closed ==> r'.all[k].done) && AllAtMost(r'.all[k].offered, Latest(r', r'.all[k].user))
    {
      if k != i { assert Registered(r, k) && Latest(r', r.all[k].user) == Latest(r, r.all[k].user); }
    }
  }

  lemma OpenedGood(u: User, done: bool)
    ensures GoodStream(Opened(u, done))
  {}

  lemma NothingQueued(n: int)
    ensures AllAtMost([], n)
  {}

  lemma CloseStreamsValid(r: Registry)
    requires Valid(r)
    ensures Valid(CloseStreams(r))
  {
    var r' := CloseStreams(r);
    forall i | i in r'.all
      ensures GoodStream(r'.all[i]) && (Registered(r', i) <==> Registered(r, i))
    {}
  }

  lemma StopValid(r: Registry, i: Id)
    requires Valid(r) && i in r.all
    ensures Valid(Stop(r, i))
  {
    var r' := Stop(r, i);
    forall k | k in r'.all
      ensures GoodStream(r'.all[k]) && (Registered(r', k) <==> Registered(r, k))
              && r'.all[k].offered == r.all[k].offered
    {}
  }

  lemma TakeValid(r: Registry, i: Id)
    requires Valid(r) && i in r.all && r.all[i].out != []
    ensures Valid(Take(r, i))
  {
    var st, r' := r.all[i], Take(r, i);
    assert (st.taken + [st.out[0]]) + st.out[1..] == st.taken + st.out;
    forall k | k in r'.all
      ensures GoodStream(r'.all[k]) && (Registered(r', k) <==> Registered(r, k))
              && r'.all[k].offered == r.all[k].offered
    {}
  }

  // ---- what a delivery reaches ----

  /** A delivery is offered once to every registered stream of the owner and to
      no other stream, and only an owner's stream found full is deregistered. */
  lemma DeliverReachesOwner(r: Registry, owner: User, e: Event, i: Id)
    requires Valid(r) && e.Live? && i in r.all
    ensures var r' := Deliver(r, owner, e);
            var st, st' := r.all[i], r'.all[i];
            var reached := st.user == owner && owner in r.streams && i in r.streams[owner];
            var full := reached && !st.done && |st.out| >= 1024;
            && st'.offered == st.offered + (if reached then [e] else [])
            && st'.out == st.out + (if reached && !st.done && |st.out| < 1024 then [e] else [])
            && (Registered(r', i) <==> Registered(r, i) && !full)
            && st'.done == (st.done || full)
            && (!reached ==> st' == st)
  {
    var r', events := RaisedFor(r, owner, e), ToOwner(r, owner, e);
    var o := OfferEach(r', events);
    assert Registered(o, i) == Registered(r, i);
    assert Registered(OfferAll(r', events), i) <==> Registered(o, i) && i !in Overflowing(r', events) by {
      if Registered(o, i) && i !in Overflowing(r', events) {
        assert i in o.streams[o.all[i].user] - Overflowing(r', events);
      }
    }
  }

  /** Deregistering again changes nothing. */
  lemma DeregisterTwice(r: Registry, i: Id)
    requires Valid(r)
    ensures Deregister(Deregister(r, i), i) == Deregister(r, i)
    ensures !Registered(Deregister(r, i), i)
  {
    var r' := Deregister(r, i);
    forall u | u in r'.streams
      ensures r'.streams[u] - {i} == r'.streams[u]
    {}
    if i in r.all { WithoutKeeps(r, {i}, i); }
  }

  lemma WithoutNone(r: Registry)
    requires Valid(r)
    ensures Without(r, {}) == r
  {
    forall u | u in r.streams ensures r.streams[u] - {} == r.streams[u] {}
    assert Without(r, {}).streams == r.streams;
    assert Without(r, {}).latest == r.latest;
  }

  lemma WithoutTwice(r: Registry, a: set<Id>, b: set<Id>)
    ensures Without(Without(r, a), b) == Without(r, a + b)
  {
    forall u | u in r.streams
      ensures (r.streams[u] - a) - b == r.streams[u] - (a + b)
    {}
    var x, y := Without(Without(r, a), b), Without(r, a + b);
    assert x.streams == y.streams;
    assert x.latest == y.latest;
  }

  /** Offering to all is offering in any order: one stream first, then the rest. */
  lemma OfferAllStep(r: Registry, events: map<Id, Event>, i: Id)
    requires i in events && i in r.all
    ensures OfferAll(OfferAll(r, map[i := events[i]]), events - {i}) == OfferAll(r, events)
  {
    var one, rest := map[i := events[i]], events - {i};
    var r1 := OfferEach(r, one);
    assert Overflowing(r, one) + Overflowing(OfferAll(r, one), rest) == Overflowing(r, events);
    assert OfferEach(r1, rest).all == OfferEach(r, events).all;
    WithoutTwice(OfferEach(r, events), Overflowing(r, one), Overflowing(OfferAll(r, one), rest));
  }

  lemma OfferAllIs(r: Registry, events: map<Id, Event>, gone: set<Id>)
    requires Overflowing(r, events) == gone
    ensures OfferAll(r, events) == Without(OfferEach(r, events), gone)
    ensures forall i :: Deregister(OfferEach(r, events), i) == Without(OfferEach(r, events), {i})
  {}

  /** After one of several offers, the rest can still be made, to the same effect. */
  lemma OfferAllProgress(r: Registry, events: map<Id, Event>, i: Id)
    requires Valid(r) && i in events
    requires forall k :: k in events ==> Timely(r, k, events[k])
    ensures var r' := OfferAll(r, map[i := events[i]]);
            && Valid(r')
            && OfferAll(r', events - {i}) == OfferAll(r, events)
            && forall k :: k in events && k != i ==> Timely(r', k, events[k])
  {
    OfferAllValid(r, map[i := events[i]]);
    OfferAllStep(r, events, i);
    forall k | k in events && k != i
      ensures Timely(OfferAll(r, map[i := events[i]]), k, events[k])
    {
      StaysTimely(r, i, events[i], k, events[k]);
    }
  }

  lemma StaysTimely(r: Registry, i: Id, e: Event, k: Id, f: Event)
    requires Valid(r) && Timely(r, i, e) && Timely(r, k, f) && k != i
    ensures Timely(OfferAll(r, map[i := e]), k, f)
  {
    OfferEachValid(r, map[i := e]);
    WithoutKeeps(OfferEach(r, map[i := e]), Overflowing(r, map[i := e]), k);
  }

  /** An offer to one user's stream leaves the other users' streams registered. */
  lemma OfferLeavesOthers(r: Registry, i: Id, e: Event, u: User)
    requires Valid(r) && i in r.all && u in r.streams && u != r.all[i].user
    ensures var r' := OfferAll(r, map[i := e]); u in r'.streams && r'.streams[u] == r.streams[u]
  {
    assert r.streams[u] - Overflowing(r, map[i := e]) == r.streams[u];
  }

  lemma OfferNone(r: Registry)
    requires Valid(r)
    ensures OfferAll(r, map[]) == r
  {
    assert OfferEach(r, map[]).all == r.all;
    assert Overflowing(r, map[]) == {};
    WithoutNone(r);
  }
}
