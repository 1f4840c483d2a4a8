/** The life of every stream at once: its request handler, its replay goroutine,
    and the deliveries, pings and shutdown that reach it. One action is one
    critical section, one channel operation or one database answer, so a
    sequence of actions is an interleaving. */
module StreamProtocol {
  import opened Wrappers
  import opened Registry

  /** Where serveStream is, after it has registered its stream. */
  datatype Handler =
    | Checking                                // about to look for a known latest id
    | Querying                                // none known: asking the database
    | Seeding(answer: int)
    | Greeting(queried: Option<int>)          // about to read the handshake's last_id
    | Handshaking(lastId: int)
    | Looping                                 // in the select loop
    | Stopping                                // deferred cleanup: about to stop the stream,
    | Leaving                                 // to deregister it,
    | Waiting                                 // to wait for the replay goroutine
    | Ended

  /** Where the stream's replay goroutine is; waiting is being blocked in push's
      second select, past the check of done. */
  datatype Replay = NotStarted | Fetching | Pushing(left: nat, waiting: bool) | Finished

  /** `written` are the live events written in full, `writes` counts every write of the loop. */
  datatype Session = Session(handler: Handler, replay: Replay, written: seq<Event>, writes: nat)

  datatype State = State(r: Registry, sessions: map<Id, Session>)

  /** A step of one stream's handler. */
  datatype Own =
    | Check
    | Answer(latest: int)              // LatestMessageID's answer, 0 for an error
    | RaiseSeed
    | Greet
    | WriteHandshake(ok: bool)
    | TakeLive(ok: bool)
    | TakeReplay(ok: bool)
    | SeeDone
    | SeeGone                          // the request's context ended
    | StopSelf
    | Leave
    | Join

  /** A step of one stream's replay goroutine. */
  datatype Background =
    | Fetched(events: Option<nat>)     // how many events to push, None if a status failed
    | PushCheck
    | PushGivesUp

  /** A step that concerns every stream. */
  datatype Shared =
    | Message(owner: User, event: Event)   // Deliver's last critical section
    | PingEvery
    | WakePing(id: Id, user: User)
    | Shutdown

  datatype Action =
    | Open(i: Id, user: User)
    | Handle(i: Id, own: Own)
    | Replays(i: Id, background: Background)
    | Everyone(shared: Shared)

  function Rank(h: Handler): nat {
    match h
    case Checking => 0 case Querying => 1 case Seeding(_) => 2 case Greeting(_) => 3 case Handshaking(_) => 4
    case Looping => 5 case Stopping => 6 case Leaving => 7 case Waiting => 8 case Ended => 9
  }

  /** One write of the select loop, which ends the loop if it fails. */
  function Wrote(v: Session, ok: bool): Session {
    v.(writes := v.writes + 1, handler := if ok then Looping else Stopping)
  }

  /** Stream i's handler in session v; a step that isn't possible changes nothing. */
  function HandlerStep(r: Registry, i: Id, v: Session, x: Own): (Registry, Session)
    requires i in r.all
  {
    var st := r.all[i];
    match x
    case Check =>
      if v.handler.Checking? then (r, v.(handler := if st.user in r.latest then Greeting(None) else Querying))
      else (r, v)
    case Answer(n) => if v.handler.Querying? then (r, v.(handler := Seeding(n))) else (r, v)
    case RaiseSeed =>
      if v.handler.Seeding? then (Seed(r, st.user, v.handler.answer),
                                  v.(handler := Greeting(Some(v.handler.answer)))) else (r, v)
    case Greet => if v.handler.Greeting? then (r, v.(handler := Handshaking(Latest(r, st.user)))) else (r, v)
    case WriteHandshake(ok) =>
      if !v.handler.Handshaking? then (r, v)
      else if ok then (r, v.(handler := Looping, replay := Fetching))
      else (r, v.(handler := Stopping))
    case TakeLive(ok) =>
      if v.handler.Looping? && st.out != []
      then (Take(r, i), Wrote(v, ok).(written := if ok then v.written + [st.out[0]] else v.written))
      else (r, v)
    case TakeReplay(ok) =>
      if v.handler.Looping? && v.replay.Pushing? && v.replay.waiting && v.replay.left > 0
      then (r, Wrote(v, ok).(replay := Pushing(v.replay.left - 1, false)))
      else (r, v)
    case SeeDone => if v.handler.Looping? && st.done then (r, v.(handler := Stopping)) else (r, v)
    case SeeGone => if v.handler.Looping? then (r, v.(handler := Stopping)) else (r, v)
    case StopSelf => if v.handler.Stopping? then (Stop(r, i), v.(handler := Leaving)) else (r, v)
    case Leave => if v.handler.Leaving? then (Deregister(r, i), v.(handler := Waiting)) else (r, v)
    case Join =>
      if v.handler.Waiting? && (v.replay.NotStarted? || v.replay.Finished?) then (r, v.(handler := Ended)) else (r, v)
  }

  /** The replay goroutine: replay, and push's two selects. */
  function ReplayStep(p: Replay, done: bool, x: Background): Replay {
    match x
    case Fetched(n) => if p.Fetching? then (if n.None? then Finished else Pushing(n.value, false)) else p
    case PushCheck =>
      if p.Pushing? && !p.waiting then (if p.left == 0 || done then Finished else Pushing(p.left, true)) else p
    case PushGivesUp => if p.Pushing? && p.waiting && done then Finished else p
  }

  function SharedStep(r: Registry, x: Shared): Registry {
    match x
    case Message(owner, e) => if e.Live? then Deliver(r, owner, e) else r
    case PingEvery => PingAll(r)
    case WakePing(i, u) => PingUsers(r, u, i)
    case Shutdown => CloseStreams(r)
  }

  function Step(s: State, a: Action): State {
    match a
    case Open(i, u) =>
      if i in s.r.all || i in s.sessions then s
      else State(Register(s.r, i, u), s.sessions[i := Session(Checking, NotStarted, [], 0)])
    case Handle(i, x) =>
      if i !in s.r.all || i !in s.sessions then s
      else var (r, v) := HandlerStep(s.r, i, s.sessions[i], x); State(r, s.sessions[i := v])
    case Replays(i, x) =>
      if i !in s.r.all || i !in s.sessions then s
      else
        var v := s.sessions[i];
        s.(sessions := s.sessions[i := v.(replay := ReplayStep(v.replay, s.r.all[i].done, x))])
    case Everyone(x) => s.(r := SharedStep(s.r, x))
  }

  function Run(s: State, actions: seq<Action>): State {
    if actions == [] then s else Step(Run(s, actions[..|actions| - 1]), actions[|actions| - 1])
  }

  const EMPTY := State(Registry(map[], map[], map[], false), map[])

  // ---- the invariant ----

  /** What a stream's handler can rely on about the registry. */
  ghost predicate GoodSession(r: Registry, i: Id, v: Session)
    requires i in r.all
  {
    var st := r.all[i];
    && (Rank(v.handler) >= 7 ==> st.done)
    && (Rank(v.handler) >= 8 ==> !Registered(r, i))
    && (v.handler.Greeting? && v.handler.queried.Some? && Registered(r, i) ==>
          v.handler.queried.value <= Latest(r, st.user))
    && (if Rank(v.handler) <= 5 then v.written == st.taken else v.written <= st.taken)
    && (Rank(v.handler) < 5 ==> st.taken == [] && v.replay.NotStarted?)
  }

  ghost predicate Inv(s: State) {
    && Valid(s.r)
    && s.sessions.Keys == s.r.all.Keys
    && forall i :: i in s.r.all ==> GoodSession(s.r, i, s.sessions[i])
  }

  /** What a registry operation leaves a session it doesn't concern with. */
  ghost predicate Preserves(r: Registry, r': Registry, i: Id) {
    && i in r.all && i in r'.all
    && r'.all[i].user == r.all[i].user && r'.all[i].taken == r.all[i].taken
    && (r.all[i].done ==> r'.all[i].done)
    && (Registered(r', i) ==> Registered(r, i) && Latest(r, r.all[i].user) <= Latest(r', r.all[i].user))
  }

  lemma PreservedSession(r: Registry, r': Registry, i: Id, v: Session)
    requires Preserves(r, r', i) && GoodSession(r, i, v)
    ensures GoodSession(r', i, v)
  {}

  lemma OffersPreserve(r: Registry, events: map<Id, Event>, i: Id)
    requires Valid(r) && i in r.all
    requires forall k :: k in events ==> Timely(r, k, events[k])
    ensures Preserves(r, OfferAll(r, events), i)
  {
    OfferEachValid(r, events);
    WithoutKeeps(OfferEach(r, events), Overflowing(r, events), i);
  }

  lemma DeliverPreserves(r: Registry, owner: User, e: Event, i: Id)
    requires Valid(r) && i in r.all && e.Live?
    ensures Preserves(r, Deliver(r, owner, e), i)
  {
    DeliverTimely(r, owner, e);
    OffersPreserve(RaisedFor(r, owner, e), ToOwner(r, owner, e), i);
  }

  lemma SharedStepPreserves(r: Registry, x: Shared, i: Id)
    requires Valid(r) && i in r.all
    ensures Preserves(r, SharedStep(r, x), i)
  {
    match x
    case Message(owner, e) => if e.Live? { DeliverPreserves(r, owner, e, i); }
    case PingEvery => OffersPreserve(r, Pings(r), i);
    case WakePing(k, u) =>
      if k in r.all && Registered(r, k) && r.all[k].user == u { OffersPreserve(r, map[k := Ping(Latest(r, u))], i); }
    case Shutdown =>
  }

  lemma SharedStepValid(r: Registry, x: Shared)
    requires Valid(r)
    ensures Valid(SharedStep(r, x)) && SharedStep(r, x).all.Keys == r.all.Keys
  {
    match x
    case Message(owner, e) => if e.Live? { DeliverValid(r, owner, e); }
    case PingEvery => PingAllValid(r);
    case WakePing(k, u) => if k in r.all && Registered(r, k) && r.all[k].user == u { PingOneValid(r, k); }
    case Shutdown => CloseStreamsValid(r);
  }

  lemma SharedStepInv(s: State, x: Shared)
    requires Inv(s)
    ensures Inv(Step(s, Everyone(x)))
  {
    SharedStepValid(s.r, x);
    forall i | i in s.r.all
      ensures GoodSession(SharedStep(s.r, x), i, s.sessions[i])
    {
      SharedStepPreserves(s.r, x, i);
      PreservedSession(s.r, SharedStep(s.r, x), i, s.sessions[i]);
    }
  }

  lemma OpenStepInv(s: State, i: Id, u: User)
    requires Inv(s) && i !in s.r.all
    ensures Inv(Step(s, Open(i, u)))
  {
    hide Valid, GoodSession, Preserves;
    RegisterValid(s.r, i, u);
    var r' := Register(s.r, i, u);
    forall k | k in s.r.all
      ensures GoodSession(r', k, s.sessions[k])
    {
      RegisterPreserves(s.r, i, u, k);
      PreservedSession(s.r, r', k, s.sessions[k]);
    }
    OpenedSession(r', i);
  }

  lemma RegisterPreserves(r: Registry, i: Id, u: User, k: Id)
    requires i !in r.all && k in r.all
    ensures Preserves(r, Register(r, i, u), k)
  {}

  lemma OpenedSession(r: Registry, i: Id)
    requires i in r.all && r.all[i].taken == []
    ensures GoodSession(r, i, Session(Checking, NotStarted, [], 0))
  {}

  /** What a step of stream i's handler or goroutine must show for the whole server. */
  ghost predicate GoodStep(r: Registry, i: Id, r': Registry, v': Session) {
    && i in r.all && Valid(r') && r'.all.Keys == r.all.Keys
    && GoodSession(r', i, v')
    && forall k :: k in r.all && k != i ==> Preserves(r, r', k)
  }

  lemma GoodStepInv(s: State, i: Id, r': Registry, v': Session)
    requires Inv(s) && GoodStep(s.r, i, r', v')
    ensures Inv(State(r', s.sessions[i := v']))
  {
    hide Valid, GoodSession, Preserves;
    forall k | k in s.r.all && k != i
      ensures GoodSession(r', k, s.sessions[k])
    {
      PreservedSession(s.r, r', k, s.sessions[k]);
    }
  }

  lemma SeedStepGood(r: Registry, i: Id, v: Session)
    requires Valid(r) && i in r.all && GoodSession(r, i, v) && v.handler.Seeding?
    ensures GoodStep(r, i, HandlerStep(r, i, v, RaiseSeed).0, HandlerStep(r, i, v, RaiseSeed).1)
  {
    hide Valid, GoodSession, Preserves;
    SeedValid(r, r.all[i].user, v.handler.answer);
    SeededSession(r, i, v);
    forall k | k in r.all && k != i
      ensures Preserves(r, Seed(r, r.all[i].user, v.handler.answer), k)
    {
      SeedPreserves(r, r.all[i].user, v.handler.answer, k);
    }
  }

  lemma SeedValid(r: Registry, u: User, n: int)
    requires Valid(r)
    ensures Valid(Seed(r, u, n))
  {
    if u in r.streams { RaiseValid(r, u, n); }
  }

  lemma SeededSession(r: Registry, i: Id, v: Session)
    requires Valid(r) && i in r.all && GoodSession(r, i, v) && v.handler.Seeding?
    ensures GoodSession(HandlerStep(r, i, v, RaiseSeed).0, i, HandlerStep(r, i, v, RaiseSeed).1)
  {
    hide Valid;
    if r.all[i].user in r.streams { RaiseValid(r, r.all[i].user, v.handler.answer); }
  }

  lemma SeedPreserves(r: Registry, u: User, n: int, k: Id)
    requires k in r.all
    ensures Preserves(r, Seed(r, u, n), k)
  {}

  lemma LeaveStepGood(r: Registry, i: Id, v: Session)
    requires Valid(r) && i in r.all && GoodSession(r, i, v) && v.handler.Leaving?
    ensures GoodStep(r, i, HandlerStep(r, i, v, Leave).0, HandlerStep(r, i, v, Leave).1)
  {
    WithoutValid(r, {i});
    DeregisterTwice(r, i);
    forall k | k in r.all && k != i
      ensures Preserves(r, Deregister(r, i), k)
    {
      WithoutKeeps(r, {i}, k);
    }
  }

  lemma StopStepGood(r: Registry, i: Id, v: Session)
    requires Valid(r) && i in r.all && GoodSession(r, i, v) && v.handler.Stopping?
    ensures GoodStep(r, i, HandlerStep(r, i, v, StopSelf).0, HandlerStep(r, i, v, StopSelf).1)
  {
    hide Valid, GoodSession, Preserves;
    StopValid(r, i);
    StoppedSession(r, i, v);
    forall k | k in r.all && k != i
      ensures Preserves(r, Stop(r, i), k)
    {
      StopPreserves(r, i, k);
    }
  }

  lemma StoppedSession(r: Registry, i: Id, v: Session)
    requires i in r.all && GoodSession(r, i, v) && v.handler.Stopping?
    ensures GoodSession(Stop(r, i), i, v.(handler := Leaving))
  {}

  lemma StopPreserves(r: Registry, i: Id, k: Id)
    requires i in r.all && k in r.all
    ensures Preserves(r, Stop(r, i), k)
  {}

  lemma TakeStepGood(r: Registry, i: Id, v: Session, ok: bool)
    requires Valid(r) && i in r.all && GoodSession(r, i, v) && v.handler.Looping? && r.all[i].out != []
    ensures GoodStep(r, i, HandlerStep(r, i, v, TakeLive(ok)).0, HandlerStep(r, i, v, TakeLive(ok)).1)
  {
    hide Valid, GoodSession, Preserves;
    TakeValid(r, i);
    TookSession(r, i, v, ok);
    forall k | k in r.all && k != i
      ensures Preserves(r, Take(r, i), k)
    {
      TakePreserves(r, i, k);
    }
  }

  lemma TookSession(r: Registry, i: Id, v: Session, ok: bool)
    requires i in r.all && GoodSession(r, i, v) && v.handler.Looping? && r.all[i].out != []
    ensures GoodSession(Take(r, i), i, HandlerStep(r, i, v, TakeLive(ok)).1)
  {
    assert r.all[i].taken <= r.all[i].taken + [r.all[i].out[0]];
  }

  lemma TakePreserves(r: Registry, i: Id, k: Id)
    requires i in r.all && r.all[i].out != [] && k in r.all && k != i
    ensures Preserves(r, Take(r, i), k)
  {}

  /** The steps that leave the registry alone only move the handler on. */
  lemma QuietStepGood(r: Registry, i: Id, v: Session, x: Own)
    requires i in r.all && GoodSession(r, i, v)
    requires HandlerStep(r, i, v, x).0 == r && !x.RaiseSeed? && !x.StopSelf? && !x.Leave? && !x.TakeLive?
    ensures GoodSession(r, i, HandlerStep(r, i, v, x).1)
  {}

  lemma QuietGood(r: Registry, i: Id, v': Session)
    requires Valid(r) && i in r.all && GoodSession(r, i, v')
    ensures GoodStep(r, i, r, v')
  {}

  lemma HandlerStepGood(r: Registry, i: Id, v: Session, x: Own)
    requires Valid(r) && i in r.all && GoodSession(r, i, v)
    ensures GoodStep(r, i, HandlerStep(r, i, v, x).0, HandlerStep(r, i, v, x).1)
  {
    hide *;
    if x.RaiseSeed? && v.handler.Seeding? {
      SeedStepGood(r, i, v);
    } else if x.StopSelf? && v.handler.Stopping? {
      StopStepGood(r, i, v);
    } else if x.Leave? && v.handler.Leaving? {
      LeaveStepGood(r, i, v);
    } else if x.TakeLive? && v.handler.Looping? && r.all[i].out != [] {
      TakeStepGood(r, i, v, x.ok);
    } else {
      RestQuiet(r, i, v, x);
      QuietGood(r, i, HandlerStep(r, i, v, x).1);
    }
  }

  lemma RestQuiet(r: Registry, i: Id, v: Session, x: Own)
    requires Valid(r) && i in r.all && GoodSession(r, i, v)
    requires !(x.RaiseSeed? && v.handler.Seeding?) && !(x.StopSelf? && v.handler.Stopping?)
             && !(x.Leave? && v.handler.Leaving?)
    requires !(x.TakeLive? && v.handler.Looping? && r.all[i].out != [])
    ensures HandlerStep(r, i, v, x).0 == r && GoodSession(r, i, HandlerStep(r, i, v, x).1)
  {
    if !(x.RaiseSeed? || x.StopSelf? || x.Leave? || x.TakeLive?) { QuietStepGood(r, i, v, x); }
  }

  lemma StepInv(s: State, a: Action)
    requires Inv(s)
    ensures Inv(Step(s, a))
  {
    match a
    case Open(i, u) => if i !in s.r.all { OpenStepInv(s, i, u); }
    case Everyone(x) => SharedStepInv(s, x);
    case Handle(i, x) =>
      if i in s.r.all {
        HandlerStepGood(s.r, i, s.sessions[i], x);
        GoodStepInv(s, i, HandlerStep(s.r, i, s.sessions[i], x).0, HandlerStep(s.r, i, s.sessions[i], x).1);
      }
    case Replays(i, x) =>
      if i in s.r.all {
        var v := s.sessions[i];
        var v' := v.(replay := ReplayStep(v.replay, s.r.all[i].done, x));
        QuietGood(s.r, i, v');
        GoodStepInv(s, i, s.r, v');
      }
  }

  /** Every run of the server, from its start, keeps the registry valid and its sessions good. */
  lemma {:induction false} RunInv(actions: seq<Action>)
    ensures Inv(Run(EMPTY, actions))
  {
    if actions != [] {
      RunInv(actions[..|actions| - 1]);
      StepInv(Run(EMPTY, actions[..|actions| - 1]), actions[|actions| - 1]);
    }
  }

  // ---- what every client can rely on ----

  /** In every run, a stream's queue is bounded, what was taken from it and what
      is still queued are the first events it was offered, in order, and every
      ping among them is at least every message id and every ping before it. */
  lemma PingsDominate(actions: seq<Action>, i: Id)
    requires i in Run(EMPTY, actions).r.all
    ensures var st := Run(EMPTY, actions).r.all[i];
            |st.out| <= 1024 && st.taken + st.out <= st.offered && Ordered(st.taken + st.out)
  {
    hide Run, Ordered, Registered;
    RunInv(actions);
    PrefixOrdered(Run(EMPTY, actions).r.all[i]);
  }

  lemma PrefixOrdered(st: Stream)
    requires GoodStream(st)
    ensures Ordered(st.taken + st.out)
  {
    hide AtMost;
    forall m, n | 0 <= m < n < |st.taken + st.out| && (st.taken + st.out)[n].Ping?
      ensures AtMost((st.taken + st.out)[m], (st.taken + st.out)[n].lastId)
    {
      assert (st.taken + st.out)[m] == st.offered[m] && (st.taken + st.out)[n] == st.offered[n];
    }
  }

  /** Until a write fails, the live events written followed by those queued are
      the first events offered. */
  lemma WrittenThenQueued(actions: seq<Action>, i: Id)
    requires var s := Run(EMPTY, actions); i in s.r.all && i in s.sessions && Rank(s.sessions[i].handler) <= 5
    ensures var s := Run(EMPTY, actions); s.sessions[i].written + s.r.all[i].out <= s.r.all[i].offered
  {
    hide Run, Inv;
    RunInv(actions);
    WrittenNow(Run(EMPTY, actions), i);
  }

  lemma WrittenNow(s: State, i: Id)
    requires Inv(s) && i in s.r.all && Rank(s.sessions[i].handler) <= 5
    ensures s.sessions[i].written + s.r.all[i].out <= s.r.all[i].offered
  {
    assert GoodSession(s.r, i, s.sessions[i]);
  }

  // ---- what each step does ----

  /** A new stream is registered under its user, stopped at once if the server is
      closed, and its handler starts; an id is used once. */
  lemma OpenSteps(s: State, i: Id, u: User)
    ensures var s' := Step(s, Open(i, u));
            if i in s.r.all || i in s.sessions then s' == s
            else
              && s'.sessions == s.sessions[i := Session(Checking, NotStarted, [], 0)]
              && s'.r.all == s.r.all[i := Stream(u, [], s.r.closed, [], [])]
              && u in s'.r.streams && s'.r.streams[u] == (if u in s.r.streams then s.r.streams[u] else {}) + {i}
              && (forall v :: v != u ==> (v in s'.r.streams <==> v in s.r.streams)
                                         && (v in s.r.streams ==> s'.r.streams[v] == s.r.streams[v]))
              && s'.r.latest == s.r.latest && s'.r.closed == s.r.closed
  {}

  /** serveStream up to its loop: the answer, the raise, and the handshake, whose
      write starts the replay and the loop or ends the stream. */
  lemma HandshakeSteps(r: Registry, i: Id, v: Session, x: Own)
    requires i in r.all
    ensures var (r', v') := HandlerStep(r, i, v, x);
            && (x.Answer? ==> r' == r && v' == if v.handler == Querying then v.(handler := Seeding(x.latest)) else v)
            && (x == RaiseSeed ==>
                  v' == if v.handler.Seeding? then v.(handler := Greeting(Some(v.handler.answer))) else v)
            && (x.WriteHandshake? ==> r' == r && v' == if !v.handler.Handshaking? then v
                                                       else if x.ok then v.(handler := Looping, replay := Fetching)
                                                       else v.(handler := Stopping))
  {}

  /** Its loop: one live event or one replayed event at a time, each a write that
      ends the loop if it fails; the stop and the client's leaving end it too. */
  lemma LoopSteps(r: Registry, i: Id, v: Session, x: Own)
    requires i in r.all
    ensures var st, (r', v') := r.all[i], HandlerStep(r, i, v, x);
            && (x.TakeLive? && v.handler == Looping && st.out != [] ==>
                  && r' == r.(all := r.all[i := st.(out := st.out[1..], taken := st.taken + [st.out[0]])])
                  && v' == v.(writes := v.writes + 1, handler := if x.ok then Looping else Stopping,
                           written := if x.ok then v.written + [st.out[0]] else v.written))
            && (x.TakeReplay? && v.handler == Looping && v.replay.Pushing? && v.replay.waiting && v.replay.left > 0 ==>
                  && r' == r
                  && v' == v.(writes := v.writes + 1, handler := if x.ok then Looping else Stopping,
                           replay := Pushing(v.replay.left - 1, false)))
            && (x == SeeDone && v.handler == Looping && st.done ==> r' == r && v' == v.(handler := Stopping))
            && (x == SeeGone && v.handler == Looping ==> r' == r && v' == v.(handler := Stopping))
            && ((x.TakeLive? || x.TakeReplay? || x == SeeDone || x == SeeGone) && v.handler != Looping ==>
                  (r', v') == (r, v))
            && (x.TakeLive? && st.out == [] ==> (r', v') == (r, v))
            && (x.TakeReplay? && !(v.replay.Pushing? && v.replay.waiting && v.replay.left > 0) ==> (r', v') == (r, v))
            && (x == SeeDone && !st.done ==> (r', v') == (r, v))
  {}

  /** Its cleanup: stop, deregister, and wait for the replay to end. */
  lemma CleanupSteps(r: Registry, i: Id, v: Session, x: Own)
    requires i in r.all
    ensures var st, (r', v') := r.all[i], HandlerStep(r, i, v, x);
            && (x == StopSelf ==> (r', v') == if v.handler == Stopping
                                              then (r.(all := r.all[i := st.(done := true)]), v.(handler := Leaving))
                                              else (r, v))
            && (x == Leave ==> if v.handler == Leaving then !Registered(r', i) && v' == v.(handler := Waiting)
                  else (r', v') == (r, v))
            && (x == Join ==> r' == r && v' == if v.handler == Waiting && v.replay in {NotStarted, Finished}
                                               then v.(handler := Ended) else v)
  {
    if x == Leave { LeftForGood(r, i); }
  }

  lemma LeftForGood(r: Registry, i: Id)
    ensures !Registered(Deregister(r, i), i)
  {}

  /** The replay: it pushes what it fetched one event at a time, each push waiting
      until it is taken or the stream has stopped. */
  lemma ReplaySteps(p: Replay, done: bool, x: Background)
    ensures x.Fetched? ==> ReplayStep(p, done, x) == if p != Fetching then p
                                                     else if x.events.None? then Finished
                                                     else Pushing(x.events.value, false)
    ensures x == PushCheck && p.Pushing? && !p.waiting ==>
              ReplayStep(p, done, x) == if done || p.left == 0 then Finished else Pushing(p.left, true)
    ensures x == PushGivesUp && p.Pushing? && p.waiting && done ==> ReplayStep(p, done, x) == Finished
    ensures x == PushCheck && !(p.Pushing? && !p.waiting) ==> ReplayStep(p, done, x) == p
    ensures x == PushGivesUp && !(p.Pushing? && p.waiting && done) ==> ReplayStep(p, done, x) == p
  {}

  // ---- the latest id ----

  /** The ids that action a, in state s, makes known for user u, who has a stream:
      that of a message delivered, or the database's answer to one of u's handlers. */
  function Told(s: State, a: Action, u: User): seq<int> {
    if u !in s.r.streams then []
    else
      match a
      case Everyone(Message(owner, e)) => if e.Live? && owner == u && e.messageId.Some? then [e.messageId.value] else []
      case Handle(i, RaiseSeed) =>
        if i in s.r.all && i in s.sessions && s.r.all[i].user == u && s.sessions[i].handler.Seeding?
        then [s.sessions[i].handler.answer] else []
      case _ => []
  }

  /** The ids made known for user u since the first of the streams they have now. */
  function Known(actions: seq<Action>, u: User): seq<int> {
    if actions == [] then []
    else
      var front, a := actions[..|actions| - 1], actions[|actions| - 1];
      if u in Run(EMPTY, actions).r.streams then Known(front, u) + Told(Run(EMPTY, front), a, u) else []
  }

  /** The greatest of these, or 0. */
  function Greatest(ns: seq<int>): (g: int)
    ensures g == 0 || g in ns
    ensures g >= 0 && forall n :: n in ns ==> n <= g
  {
    if ns == [] then 0
    else
      var g := Greatest(ns[..|ns| - 1]);
      assert ns == ns[..|ns| - 1] + [ns[|ns| - 1]];
      if ns[|ns| - 1] > g then ns[|ns| - 1] else g
  }

  lemma GreatestMore(ns: seq<int>, more: seq<int>)
    requires |more| <= 1
    ensures Greatest(ns + more) == if more == [] || more[0] <= Greatest(ns) then Greatest(ns) else more[0]
  {
    if more == [] { assert ns + more == ns; } else { assert (ns + more)[..|ns|] == ns; }
  }

  /** What is kept of a user's ids is right: their greatest, kept only if above 0. */
  predicate Holds(r: Registry, u: User, g: int) {
    Latest(r, u) == g && (u in r.latest <==> g > 0)
  }

  /** In every run, a user's latest id is the greatest id made known since the first
      of the streams they have now, and 0 before that or without a stream. */
  lemma {:induction false} LatestIsGreatest(actions: seq<Action>, u: User)
    ensures Latest(Run(EMPTY, actions).r, u) == Greatest(Known(actions, u))
    ensures u in Run(EMPTY, actions).r.latest <==> Greatest(Known(actions, u)) > 0
  {
    hide Step, Inv, Told;
    if actions != [] {
      var front, a := actions[..|actions| - 1], actions[|actions| - 1];
      LatestIsGreatest(front, u);
      RunInv(front);
      LatestStep(Run(EMPTY, front), a, u, Greatest(Known(front, u)));
      ToldOnce(Run(EMPTY, front), a, u);
      GreatestMore(Known(front, u), Told(Run(EMPTY, front), a, u));
    }
  }

  lemma ToldOnce(s: State, a: Action, u: User)
    ensures |Told(s, a, u)| <= 1
  {}

  lemma LatestStep(s: State, a: Action, u: User, g: int)
    requires Inv(s) && Holds(s.r, u, g) && g >= 0
    ensures var ns := Told(s, a, u);
            Holds(Step(s, a).r, u,
                  if u !in Step(s, a).r.streams then 0 else if ns == [] || ns[0] <= g then g else ns[0])
  {
    hide Valid, GoodSession;
    LatestFew(s.r);
    match a
    case Open(_, _) =>
    case Handle(i, x) => if i in s.r.all && i in s.sessions { HandlerLatest(s.r, i, s.sessions[i], x, u, g); }
    case Replays(_, _) =>
    case Everyone(x) => SharedLatest(s.r, x, u, g);
  }

  lemma LatestFew(r: Registry)
    requires Valid(r)
    ensures r.latest.Keys <= r.streams.Keys
  {}

  lemma HandlerLatest(r: Registry, i: Id, v: Session, x: Own, u: User, g: int)
    requires i in r.all && Holds(r, u, g) && g >= 0 && r.latest.Keys <= r.streams.Keys
    ensures var r' := HandlerStep(r, i, v, x).0;
            var n := if x == RaiseSeed && v.handler.Seeding? && r.all[i].user == u && u in r.streams
                     then v.handler.answer else 0;
            Holds(r', u, if u !in r'.streams then 0 else if n > g then n else g)
  {}

  lemma SharedLatest(r: Registry, x: Shared, u: User, g: int)
    requires Holds(r, u, g) && g >= 0 && r.latest.Keys <= r.streams.Keys
    ensures var r' := SharedStep(r, x);
            var n := if x.Message? && x.event.Live? && x.owner == u && u in r.streams && x.event.messageId.Some?
                     then x.event.messageId.value else 0;
            Holds(r', u, if u !in r'.streams then 0 else if n > g then n else g)
  {
    hide OfferEach, Overflowing;
    match x
    case Message(owner, e) =>
      if e.Live? { OfferAllLatest(RaisedFor(r, owner, e), ToOwner(r, owner, e), u); }
    case PingEvery => OfferAllLatest(r, Pings(r), u);
    case WakePing(k, _) => if k in r.all { OfferAllLatest(r, map[k := Ping(Latest(r, r.all[k].user))], u); }
    case Shutdown =>
  }

  /** Offering keeps the latest ids of the users who keep a stream, and no others. */
  lemma OfferAllLatest(r: Registry, events: map<Id, Event>, u: User)
    requires r.latest.Keys <= r.streams.Keys
    ensures var r' := OfferAll(r, events);
            && Latest(r', u) == (if u in r'.streams then Latest(r, u) else 0)
            && (u in r'.latest <==> u in r.latest && u in r'.streams)
  {}

  /** An answer a handler holds is one that the database gave it. */
  lemma {:induction false} AnswersAreGiven(actions: seq<Action>, i: Id, n: int)
    requires var s := Run(EMPTY, actions);
             i in s.sessions && s.sessions[i].handler in {Seeding(n), Greeting(Some(n))}
    ensures Handle(i, Answer(n)) in actions
  {
    hide Step;
    if actions != [] {
      var front, a := actions[..|actions| - 1], actions[|actions| - 1];
      AnswerStep(Run(EMPTY, front), a, i, n);
      if a != Handle(i, Answer(n)) { AnswersAreGiven(front, i, n); }
    }
  }

  lemma AnswerStep(s: State, a: Action, i: Id, n: int)
    requires i in Step(s, a).sessions && Step(s, a).sessions[i].handler in {Seeding(n), Greeting(Some(n))}
    ensures a == Handle(i, Answer(n)) || (i in s.sessions && s.sessions[i].handler in {Seeding(n), Greeting(Some(n))})
  {}

  /** A handler asks the database exactly when nothing above 0 is known for its user. */
  lemma AsksIff(actions: seq<Action>, i: Id)
    requires var s := Run(EMPTY, actions); i in s.r.all && i in s.sessions && s.sessions[i].handler.Checking?
    ensures var s := Run(EMPTY, actions);
            var asks := forall n | n in Known(actions, s.r.all[i].user) :: n <= 0;
            Step(s, Handle(i, Check)).sessions[i].handler == if asks then Querying else Greeting(None)
  {
    hide Run, Known;
    LatestIsGreatest(actions, Run(EMPTY, actions).r.all[i].user);
  }

  // ---- what a stream is offered ----

  /** What action a, in state s, offers to stream i while it is registered: its
      owner's message, or a ping with g, its user's latest id. */
  function Reaches(s: State, a: Action, i: Id, g: int): seq<Event> {
    if i !in s.r.all || s.r.all[i].user !in s.r.streams || i !in s.r.streams[s.r.all[i].user] then []
    else
      match a
      case Everyone(Message(owner, e)) => if e.Live? && s.r.all[i].user == owner then [e] else []
      case Everyone(PingEvery) => [Ping(g)]
      case Everyone(WakePing(k, u)) => if k == i && s.r.all[i].user == u then [Ping(g)] else []
      case _ => []
  }

  /** All that reaches stream i in a run. */
  function Delivered(actions: seq<Action>, i: Id): seq<Event> {
    if actions == [] then []
    else
      var front := actions[..|actions| - 1];
      var s := Run(EMPTY, front);
      var g := if i in s.r.all then Greatest(Known(front, s.r.all[i].user)) else 0;
      Delivered(front, i) + Reaches(s, actions[|actions| - 1], i, g)
  }

  /** In every run, a stream is offered exactly the messages delivered to its owner
      while it was registered, and every ping meant for it then with the greatest
      id known at the time: each once, in order, and nothing else. */
  lemma {:induction false} OfferedAreDelivered(actions: seq<Action>, i: Id)
    ensures var s := Run(EMPTY, actions);
            Delivered(actions, i) == if i in s.r.all then s.r.all[i].offered else []
  {
    hide Step, Inv, Reaches, Known;
    if actions != [] {
      var front := actions[..|actions| - 1];
      OfferedAreDelivered(front, i);
      RunInv(front);
      var s := Run(EMPTY, front);
      if i in s.r.all { LatestIsGreatest(front, s.r.all[i].user); }
      OfferedStep(s, actions[|actions| - 1], i);
    }
  }

  lemma OfferedStep(s: State, a: Action, i: Id)
    requires Inv(s)
    ensures i in s.r.all ==>
              && i in Step(s, a).r.all
              && Step(s, a).r.all[i].offered == s.r.all[i].offered + Reaches(s, a, i, Latest(s.r, s.r.all[i].user))
    ensures i !in s.r.all ==>
              Reaches(s, a, i, 0) == [] && (i in Step(s, a).r.all ==> Step(s, a).r.all[i].offered == [])
  {
    hide Valid, GoodSession;
    match a
    case Open(_, _) =>
    case Handle(k, x) => if k in s.r.all && k in s.sessions { HandlerOffers(s.r, k, s.sessions[k], x, i); }
    case Replays(_, _) =>
    case Everyone(x) => SharedOffers(s.r, x, i);
  }

  /** A handler's own steps offer nothing. */
  lemma HandlerOffers(r: Registry, k: Id, v: Session, x: Own, i: Id)
    requires k in r.all
    ensures var r' := HandlerStep(r, k, v, x).0;
            r'.all.Keys == r.all.Keys && (i in r.all ==> r'.all[i].offered == r.all[i].offered)
  {}

  lemma SharedOffers(r: Registry, x: Shared, i: Id)
    requires Valid(r)
    ensures var r' := SharedStep(r, x);
            && r'.all.Keys == r.all.Keys
            && (i in r.all ==>
                  r'.all[i].offered
                  == r.all[i].offered + Reaches(State(r, map[]), Everyone(x), i, Latest(r, r.all[i].user)))
  {
    hide Valid;
    SharedKeys(r, x);
    if i in r.all {
      match x
      case Message(owner, e) => if e.Live? { DeliverReachesOwner(r, owner, e, i); }
      case PingEvery =>
      case WakePing(k, u) =>
        StreamsAreOwn(r);
        if k in r.all && k != i { NotOffered(r, map[k := Ping(Latest(r, r.all[k].user))], i); }
      case Shutdown =>
    }
  }

  lemma SharedKeys(r: Registry, x: Shared)
    ensures SharedStep(r, x).all.Keys == r.all.Keys
  {}

  lemma StreamsAreOwn(r: Registry)
    requires Valid(r)
    ensures forall u, i :: u in r.streams && i in r.streams[u] ==> i in r.all && r.all[i].user == u
  {}

  lemma NotOffered(r: Registry, events: map<Id, Event>, i: Id)
    requires i in r.all && i !in events
    ensures OfferAll(r, events).all[i].offered == r.all[i].offered
  {}

  /** The handshake's ping carries the greatest id known for its user. For a stream
      that is still registered that covers every message delivered to it since it
      registered and, if it asked the database, the answer. */
  lemma HandshakeCovers(actions: seq<Action>, i: Id)
    requires var s := Run(EMPTY, actions); i in s.r.all && i in s.sessions && s.sessions[i].handler.Greeting?
    ensures var s := Run(EMPTY, actions);
            var v := Step(s, Handle(i, Greet)).sessions[i];
            && v.handler == Handshaking(Greatest(Known(actions, s.r.all[i].user)))
            && (Registered(s.r, i) ==>
                  && AllAtMost(Delivered(actions, i), v.handler.lastId)
                  && (s.sessions[i].handler.queried.Some? ==> s.sessions[i].handler.queried.value <= v.handler.lastId))
  {
    hide Run, Registered, GoodStream, Delivered, Known;
    RunInv(actions);
    OfferedAreDelivered(actions, i);
    LatestIsGreatest(actions, Run(EMPTY, actions).r.all[i].user);
  }

  // ---- the end of a stream ----

  lemma SharedStepDone(r: Registry, x: Shared, i: Id)
    requires i in r.all && r.all[i].done
    ensures i in SharedStep(r, x).all && SharedStep(r, x).all[i].done && SharedStep(r, x).all[i].out == r.all[i].out
  {}

  /** The writes the select loop can still make once its stream is stopped: the
      queued events and a push that had already passed its check of done. */
  function Budget(s: State, i: Id): nat
    requires i in s.r.all && i in s.sessions
  {
    BudgetOf(s.r.all[i], s.sessions[i])
  }

  function BudgetOf(st: Stream, v: Session): nat {
    |st.out| + if v.replay.Pushing? && v.replay.waiting then 1 else 0
  }

  lemma DoneStep(s: State, a: Action, i: Id)
    requires i in s.r.all && i in s.sessions && s.r.all[i].done
    ensures var s' := Step(s, a);
            && i in s'.r.all && i in s'.sessions && s'.r.all[i].done
            && s'.sessions[i].writes + Budget(s', i) <= s.sessions[i].writes + Budget(s, i)
            && Rank(s.sessions[i].handler) <= Rank(s'.sessions[i].handler)
  {
    match a
    case Open(_, _) =>
    case Everyone(x) => SharedStepDone(s.r, x, i);
    case Handle(k, x) =>
      if k in s.r.all && k in s.sessions {
        if k == i { OwnHandler(s.r, i, s.sessions[i], x); } else { OtherHandler(s.r, k, s.sessions[k], x, i); }
      }
    case Replays(_, _) =>
  }

  lemma OwnHandler(r: Registry, i: Id, v: Session, x: Own)
    requires i in r.all && r.all[i].done
    ensures var (r', v') := HandlerStep(r, i, v, x);
            && i in r'.all && r'.all[i].done
            && v'.writes + BudgetOf(r'.all[i], v') <= v.writes + BudgetOf(r.all[i], v)
            && Rank(v.handler) <= Rank(v'.handler)
  {}

  lemma OtherHandler(r: Registry, k: Id, v: Session, x: Own, i: Id)
    requires k in r.all && i in r.all && k != i
    ensures var r' := HandlerStep(r, k, v, x).0; i in r'.all && r'.all[i] == r.all[i]
  {}

  /** From the moment a stream is stopped, whatever else happens, its loop writes
      at most the events then queued and one push; it is never un-stopped. */
  lemma {:induction false} WritesAfterDone(s: State, actions: seq<Action>, i: Id)
    requires Inv(s) && i in s.r.all && s.r.all[i].done
    ensures var s' := Run(s, actions);
            && Inv(s') && i in s'.r.all && s'.r.all[i].done
            && s'.sessions[i].writes + Budget(s', i) <= s.sessions[i].writes + Budget(s, i)
            && Budget(s, i) <= BUFFER_SIZE + 1
            && Rank(s.sessions[i].handler) <= Rank(s'.sessions[i].handler)
  {
    if actions != [] {
      var before := Run(s, actions[..|actions| - 1]);
      WritesAfterDone(s, actions[..|actions| - 1], i);
      StepInv(before, actions[|actions| - 1]);
      DoneStep(before, actions[|actions| - 1], i);
    }
  }

  /** Cleanup waits for the replay goroutine only after stopping the stream, so a
      push, waiting or not, gives up at its next step; then the handler ends. */
  lemma CleanupNeverBlocks(actions: seq<Action>, i: Id)
    requires var s := Run(EMPTY, actions); i in s.sessions && s.sessions[i].handler.Waiting?
    ensures var s := Run(EMPTY, actions);
            var p := s.sessions[i].replay;
            p.Pushing? ==>
              var s' := Step(s, Replays(i, if p.waiting then PushGivesUp else PushCheck));
              s'.sessions[i].replay.Finished? && Step(s', Handle(i, Join)).sessions[i].handler.Ended?
  {
    hide Run, Inv, Valid;
    RunInv(actions);
    if Run(EMPTY, actions).sessions[i].replay.Pushing? { NotBlocked(Run(EMPTY, actions), i); }
  }

  lemma NotBlocked(s: State, i: Id)
    requires Inv(s) && i in s.sessions && s.sessions[i].handler.Waiting? && s.sessions[i].replay.Pushing?
    ensures var s' := Step(s, Replays(i, if s.sessions[i].replay.waiting then PushGivesUp else PushCheck));
            s'.sessions[i].replay.Finished? && Step(s', Handle(i, Join)).sessions[i].handler.Ended?
  {
    hide Valid;
    assert GoodSession(s.r, i, s.sessions[i]);
  }

  /** A stream whose cleanup has deregistered it is never registered again. */
  lemma GoneForGood(actions: seq<Action>, more: seq<Action>, i: Id)
    requires var s := Run(EMPTY, actions); i in s.sessions && Rank(s.sessions[i].handler) >= 8
    ensures var s := Run(Run(EMPTY, actions), more); i in s.r.all && !Registered(s.r, i)
  {
    RunInv(actions);
    WritesAfterDone(Run(EMPTY, actions), more, i);
  }

  lemma {:induction false} StaysClosed(s: State, actions: seq<Action>)
    requires s.r.closed
    ensures Run(s, actions).r.closed
  {
    hide Step;
    if actions != [] {
      StaysClosed(s, actions[..|actions| - 1]);
      StepStaysClosed(Run(s, actions[..|actions| - 1]), actions[|actions| - 1]);
    }
  }

  lemma StepStaysClosed(s: State, a: Action)
    requires s.r.closed
    ensures Step(s, a).r.closed
  {
    hide Without, OfferEach;
    match a
    case Open(_, _) =>
    case Handle(i, x) => if i in s.r.all && i in s.sessions { HandlerStaysClosed(s.r, i, s.sessions[i], x); }
    case Replays(_, _) =>
    case Everyone(x) => SharedStaysClosed(s.r, x);
  }

  lemma HandlerStaysClosed(r: Registry, i: Id, v: Session, x: Own)
    requires i in r.all && r.closed
    ensures HandlerStep(r, i, v, x).0.closed
  {}

  lemma SharedStaysClosed(r: Registry, x: Shared)
    requires r.closed
    ensures SharedStep(r, x).closed
  {}

  lemma {:induction false} RunAppend(s: State, first: seq<Action>, more: seq<Action>)
    ensures Run(s, first + more) == Run(Run(s, first), more)
  {
    hide Step;
    if more == [] {
      assert first + more == first;
    } else {
      RunAppend(s, first, more[..|more| - 1]);
      assert (first + more)[..|first + more| - 1] == first + more[..|more| - 1];
    }
  }

  /** After CloseStreams every registered stream is stopped, those opened later included. */
  lemma ShutdownStopsAll(before: seq<Action>, after: seq<Action>, i: Id)
    requires var s := Run(EMPTY, before + [Everyone(Shutdown)] + after); i in s.r.all && Registered(s.r, i)
    ensures Run(EMPTY, before + [Everyone(Shutdown)] + after).r.all[i].done
  {
    hide Run, Inv, Valid, Registered;
    var first := before + [Everyone(Shutdown)];
    RunInv(first + after);
    RunAppend(EMPTY, first, after);
    RunLast(before, Everyone(Shutdown));
    StaysClosed(Run(EMPTY, first), after);
    ClosedMeansDone(Run(EMPTY, first + after), i);
  }

  lemma RunLast(before: seq<Action>, a: Action)
    ensures Run(EMPTY, before + [a]) == Step(Run(EMPTY, before), a)
  {
    assert (before + [a])[..|before|] == before;
  }

  lemma ClosedMeansDone(s: State, i: Id)
    requires Inv(s) && s.r.closed && i in s.r.all && Registered(s.r, i)
    ensures s.r.all[i].done
  {}
}
