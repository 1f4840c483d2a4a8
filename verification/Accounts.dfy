/** The account rows under concurrent API requests: each database statement or
    transaction is one step, and requests interleave between their steps. */
module AccountProtocol {
  import opened Wrappers

  type User = string
  /** Microseconds, as the database keeps its timestamps. */
  type Time = int

  /** A stored password hash: one from before, or the one a request made. Each
      new hash has a fresh salt, so no two requests make the same one. */
  datatype Hash = Before(id: nat) | Made(request: nat)

  datatype Row = Row(hash: Option<Hash>, password: Option<nat>, verified: Option<bool>, verifySent: Option<Time>)

  type Rows = map<User, Row>

  /** A request between two of its statements. */
  datatype Request =
    | Resetting(user: User, hash: Option<Hash>, password: Option<nat>)
    | Upgrading(user: User)
    | Verifying(user: User)
    | Marking(user: User, first: bool)
    | Checking(user: User)
    | Inserting(user: User)
    | Done

  /** The database, and the requests begun so far. `used` holds every user id
      ever given out. */
  datatype World = World(
    rows: Rows,
    used: set<User>,
    owners: multiset<User>,
    requests: seq<Request>,
    now: Time)

  datatype Action =
    | Signup(user: User)
    | ReadForReset(user: User)
    | CommitReset(req: nat)
    | ReadForLogin(user: User)
    | StoreUpgrade(req: nat)
    | AdminReset(user: User)
    | ReadForVerify(user: User)
    | MarkFirst(req: nat)
    | MarkNull(req: nat)
    | CheckNetwork(req: nat)
    | InsertNetwork(req: nat)
    | Resend(user: User)
    | OwnNetwork(user: User)
    | DropNetwork(user: User)
    | Remove(user: User)
    | Abandon(req: nat)
    | Tick(elapsed: nat)

  /** What has happened. `begun` is how many requests had begun by then. */
  datatype Event =
    | Reset(user: User, hash: Option<Hash>, password: Option<nat>, req: nat, begun: nat)
    | First(user: User, req: nat)
    | Network(user: User, req: nat)
    | Emailed(user: User, at: Time)

  const RESEND_EVERY: Time := 60_000_000

  // ---- the statements ----

  function SetPasswordHash(rows: Rows, u: User, h: Hash): Rows {
    if u in rows then rows[u := rows[u].(hash := Some(h), password := None)] else rows
  }

  predicate StillHas(rows: Rows, u: User, h: Option<Hash>, p: Option<nat>) {
    u in rows && rows[u].hash == h && rows[u].password == p
  }

  function ReplacePasswordHash(rows: Rows, u: User, h: Hash, oldHash: Option<Hash>, oldPassword: Option<nat>): Rows {
    if StillHas(rows, u, oldHash, oldPassword) then SetPasswordHash(rows, u, h) else rows
  }

  predicate Unverified(rows: Rows, u: User, was: Option<bool>) {
    u in rows && rows[u].verified == was
  }

  /** UPDATE … SET verified=true WHERE id=? AND verified is what it was. */
  function Verified(rows: Rows, u: User, was: Option<bool>): Rows {
    if Unverified(rows, u, was) then rows[u := rows[u].(verified := Some(true))] else rows
  }

  predicate Due(rows: Rows, u: User, now: Time) {
    && Unverified(rows, u, Some(false))
    && (rows[u].verifySent.None? || rows[u].verifySent.value < now - RESEND_EVERY)
  }

  function Sent(rows: Rows, u: User, now: Time): Rows {
    if Due(rows, u, now) then rows[u := rows[u].(verifySent := Some(now))] else rows
  }

  // ---- steps ----

  predicate Has(w: World, r: nat) {
    r < |w.requests|
  }

  function Begun(w: World, q: Request): World {
    w.(requests := w.requests + [q])
  }

  function Turned(w: World, r: nat, q: Request): World
    requires Has(w, r)
  {
    w.(requests := w.requests[r := q])
  }

  /** The reset's transaction: the new hash and verified, together or not at all. */
  function Committed(w: World, r: nat): World
    requires Has(w, r) && w.requests[r].Resetting?
  {
    var Resetting(u, h, p) := w.requests[r];
    if !StillHas(w.rows, u, h, p) then Turned(w, r, Done)
    else
      var rows := ReplacePasswordHash(w.rows, u, Made(r), h, p);
      var first := Unverified(rows, u, Some(false));
      Turned(w.(rows := Verified(Verified(rows, u, Some(false)), u, None)), r, if first then Checking(u) else Done)
  }

  /** A step that isn't possible changes nothing. */
  function Step(w: World, a: Action): World {
    match a
    case Signup(u) =>
      if u in w.used then w
      else Begun(w, Done).(rows := w.rows[u := Row(Some(Made(|w.requests|)), None, Some(false), Some(w.now))],
           used := w.used + {u})
    case ReadForReset(u) => if u in w.rows then Begun(w, Resetting(u, w.rows[u].hash, w.rows[u].password)) else w
    case CommitReset(r) => if Has(w, r) && w.requests[r].Resetting? then Committed(w, r) else w
    case ReadForLogin(u) =>
      if u in w.rows && w.rows[u].hash.None? then Begun(w, Upgrading(u)) else w
    case StoreUpgrade(r) =>
      if Has(w, r) && w.requests[r].Upgrading?
      then Turned(w, r, Done).(rows := SetPasswordHash(w.rows, w.requests[r].user, Made(r)))
      else w
    case AdminReset(u) =>
      if u in w.rows then Begun(w, Done).(rows := SetPasswordHash(w.rows, u, Made(|w.requests|))) else w
    case ReadForVerify(u) => if u in w.rows then Begun(w, Verifying(u)) else w
    case MarkFirst(r) =>
      if Has(w, r) && w.requests[r].Verifying? then
        var u := w.requests[r].user;
        Turned(w, r, Marking(u, Unverified(w.rows, u, Some(false)))).(rows := Verified(w.rows, u, Some(false)))
      else w
    case MarkNull(r) =>
      if Has(w, r) && w.requests[r].Marking? then
        var Marking(u, first) := w.requests[r];
        Turned(w, r, if first then Checking(u) else Done).(rows := Verified(w.rows, u, None))
      else w
    case CheckNetwork(r) =>
      if Has(w, r) && w.requests[r].Checking? then
        var u := w.requests[r].user;
        Turned(w, r, if u in w.owners then Done else Inserting(u))
      else w
    case InsertNetwork(r) =>
      if Has(w, r) && w.requests[r].Inserting?
      then Turned(w, r, Done).(owners := w.owners + multiset{w.requests[r].user})
      else w
    case Resend(u) => w.(rows := Sent(w.rows, u, w.now))
    case OwnNetwork(u) => w.(owners := w.owners + multiset{u})
    case DropNetwork(u) => w.(owners := w.owners - multiset{u})
    case Remove(u) => w.(rows := w.rows - {u})
    case Abandon(r) => if Has(w, r) then Turned(w, r, Done) else w
    case Tick(d) => w.(now := w.now + d)
  }

  /** The events of a step. */
  function Happens(w: World, a: Action): seq<Event> {
    match a
    case Signup(u) => if u in w.used then [] else [Emailed(u, w.now)]
    case CommitReset(r) =>
      if Has(w, r) && w.requests[r].Resetting? then
        var Resetting(u, h, p) := w.requests[r];
        if !StillHas(w.rows, u, h, p) then []
        else [Reset(u, h, p, r, |w.requests|)] + if Unverified(w.rows, u, Some(false)) then [First(u, r)] else []
      else []
    case MarkFirst(r) =>
      if Has(w, r) && w.requests[r].Verifying? && Unverified(w.rows, w.requests[r].user, Some(false))
      then [First(w.requests[r].user, r)] else []
    case InsertNetwork(r) =>
      if Has(w, r) && w.requests[r].Inserting? then [Network(w.requests[r].user, r)] else []
    case Resend(u) => if Due(w.rows, u, w.now) then [Emailed(u, w.now)] else []
    case _ => []
  }

  datatype State = State(w: World, log: seq<Event>)

  function Next(s: State, a: Action): State {
    State(Step(s.w, a), s.log + Happens(s.w, a))
  }

  /** The state after the first n actions of a run. */
  function At(s0: State, trace: seq<Action>, n: nat): State
    requires n <= |trace|
  {
    if n == 0 then s0 else Next(At(s0, trace, n - 1), trace[n - 1])
  }

  lemma {:induction false} AtPrefix(s0: State, trace: seq<Action>, more: seq<Action>, n: nat)
    requires n <= |trace|
    ensures At(s0, trace + more, n) == At(s0, trace, n)
  {
    if n > 0 { AtPrefix(s0, trace, more, n - 1); }
  }

  ghost predicate Init(s: State) {
    && s.log == [] && s.w.requests == []
    && s.w.rows.Keys <= s.w.used
    && forall u | u in s.w.rows :: s.w.rows[u].hash.None? || s.w.rows[u].hash.value.Before?
  }

  // ---- the statements outside the handlers ----

  /** A signup stores a hash of its own, awaits its first verification, and is sent
      an email now; a user id is given out once. */
  lemma SignupSteps(s: State, u: User)
    ensures var s' := Next(s, Signup(u));
            if u in s.w.used then s' == s
            else
              && s'.w.rows == s.w.rows[u := Row(Some(Made(|s.w.requests|)), None, Some(false), Some(s.w.now))]
              && s'.log == s.log + [Emailed(u, s.w.now)] && s'.w.used == s.w.used + {u}
              && s'.w.requests == s.w.requests + [Done] && s'.w.owners == s.w.owners && s'.w.now == s.w.now
  {}

  /** lctl reset stores a hash of its own whatever is there, and drops the legacy
      password; nothing else changes. */
  lemma AdminResetSteps(s: State, u: User)
    ensures var s' := Next(s, AdminReset(u));
            if u !in s.w.rows then s' == s
            else s' == s.(w := s.w.(
                       rows := s.w.rows[u := s.w.rows[u].(hash := Some(Made(|s.w.requests|)), password := None)],
                       requests := s.w.requests + [Done]))
  {}

  /** Deleting a user, adding and dropping a network, and the passing of time. */
  lemma OtherSteps(s: State, u: User, d: nat)
    ensures Next(s, Remove(u)) == s.(w := s.w.(rows := s.w.rows - {u}))
    ensures Next(s, OwnNetwork(u)) == s.(w := s.w.(owners := s.w.owners + multiset{u}))
    ensures Next(s, DropNetwork(u)) == s.(w := s.w.(owners := s.w.owners - multiset{u}))
    ensures Next(s, Tick(d)) == s.(w := s.w.(now := s.w.now + d))
  {}

  // ---- the invariant ----

  /** A hash that is out: one from before, or one whose request has stored it. */
  predicate Out(w: World, h: Option<Hash>) {
    h.Some? && h.value.Made? ==>
      Has(w, h.value.request) && !w.requests[h.value.request].Resetting? && !w.requests[h.value.request].Upgrading?
  }

  ghost predicate WorldOk(w: World) {
    && w.rows.Keys <= w.used
    && (forall u | u in w.rows :: Out(w, w.rows[u].hash))
  }

  /** A row whose owner has been found verified; it stays so. */
  predicate IsVerified(w: World, u: User) {
    u in w.rows ==> w.rows[u].verified == Some(true)
  }

  /** A request that has had its answer about the first verification. */
  predicate PastMark(w: World, r: nat) {
    Has(w, r) && !w.requests[r].Resetting? && !w.requests[r].Verifying?
  }

  /** No upgrade of u's legacy password that began after `begun` is in flight. */
  ghost predicate NoLateUpgrade(w: World, u: User, begun: nat) {
    begun <= |w.requests| && forall q | begun <= q < |w.requests| :: w.requests[q] != Upgrading(u)
  }

  /** What each event that has happened says about the database now. */
  ghost predicate Fits(w: World, e: Event) {
    && (e.user in w.used || e.Network?)
    && match e
       case Reset(u, h, p, req, begun) =>
         && Out(w, h) && PastMark(w, req) && !w.requests[req].Upgrading?
         && IsVerified(w, u)
         && NoLateUpgrade(w, u, begun)
         && (u in w.rows ==> w.rows[u].hash.Some? && w.rows[u].hash != h)
       case First(u, req) => PastMark(w, req) && IsVerified(w, u)
       case Network(u, req) => Has(w, req) && w.requests[req].Done?
       case Emailed(u, at) =>
         at <= w.now && (u in w.rows ==> w.rows[u].verifySent.Some? && w.rows[u].verifySent.value >= at)
  }

  /** What an event rules out later. */
  predicate Apart(e: Event, later: Event) {
    e.user == later.user ==>
      match (e, later)
      case (Reset(_, h, p, _, _), Reset(_, h2, p2, _, _)) => h != h2
      case (First(_, _), First(_, _)) => false
      case (Network(_, req), Network(_, req2)) => req != req2
      case (Emailed(_, at), Emailed(_, at2)) => at2 - at > RESEND_EVERY
      case _ => true
  }

  /** A request about to add the default network saw its user's first verification. */
  predicate Earns(q: Request) {
    q.Checking? || q.Inserting? || (q.Marking? && q.first)
  }

  ghost predicate Earned(s: State) {
    && (forall r: nat | Has(s.w, r) && Earns(s.w.requests[r]) :: First(s.w.requests[r].user, r) in s.log)
    && (forall e | e in s.log && e.Network? :: First(e.user, e.req) in s.log)
  }

  ghost predicate LogOk(s: State) {
    && (forall i | 0 <= i < |s.log| :: Fits(s.w, s.log[i]))
    && (forall i, j | 0 <= i < j < |s.log| :: Apart(s.log[i], s.log[j]))
  }

  ghost predicate Inv(s: State) {
    WorldOk(s.w) && LogOk(s) && Earned(s)
  }

  lemma OutStays(w: World, a: Action, h: Option<Hash>)
    requires Out(w, h)
    ensures Out(Step(w, a), h)
  {}

  /** Every row that a step writes has a hash that is out. */
  lemma WorldStays(w: World, a: Action)
    requires WorldOk(w)
    ensures WorldOk(Step(w, a))
  {
    var w' := Step(w, a);
    forall u | u in w'.rows
      ensures u in w'.used && Out(w', w'.rows[u].hash)
    {
      if u in w.rows { OutStays(w, a, w.rows[u].hash); }
      RowFrom(w, a, u);
    }
  }

  /** A row's hash after a step: the one before, or the one its request made. */
  lemma RowFrom(w: World, a: Action, u: User)
    requires WorldOk(w) && u in Step(w, a).rows
    ensures u in Step(w, a).used
    ensures (u in w.rows && Step(w, a).rows[u].hash == w.rows[u].hash) || NewHash(w, a, u)
  {}

  ghost predicate NewHash(w: World, a: Action, u: User) {
    var w' := Step(w, a);
    && u in w'.rows && w'.rows[u].hash.Some? && w'.rows[u].hash.value.Made?
    && Out(w', w'.rows[u].hash) && !(Out(w, w'.rows[u].hash))
  }

  lemma PastMarkStays(w: World, a: Action, r: nat)
    requires PastMark(w, r)
    ensures PastMark(Step(w, a), r)
    ensures !w.requests[r].Upgrading? ==> !Step(w, a).requests[r].Upgrading?
  {
    RequestAfter(w, a, r);
  }

  /** What a step can make of a request. */
  lemma RequestAfter(w: World, a: Action, r: nat)
    requires Has(w, r)
    ensures Has(Step(w, a), r)
    ensures var q, q' := w.requests[r], Step(w, a).requests[r];
            || q' == q || q'.Done? || (q'.Marking? && q.Verifying?) || (q'.Checking? && (q.Marking? || q.Resetting?))
            || (q'.Inserting? && q.Checking?)
  {}

  lemma VerifiedStays(w: World, a: Action, u: User)
    requires WorldOk(w) && u in w.used && IsVerified(w, u)
    ensures IsVerified(Step(w, a), u)
  {}

  lemma StampStays(w: World, a: Action, e: Event)
    requires WorldOk(w) && Fits(w, e) && e.Emailed?
    ensures Fits(Step(w, a), e)
  {}

  /** A login reads the row for an upgrade only while it has no hash. */
  lemma UpgradeBegins(w: World, a: Action, q: nat)
    requires Has(Step(w, a), q) && Step(w, a).requests[q].Upgrading?
    ensures if Has(w, q) then w.requests[q] == Step(w, a).requests[q]
            else Step(w, a).requests[q].user in w.rows && w.rows[Step(w, a).requests[q].user].hash.None?
  {}

  lemma UpgradesStay(w: World, a: Action, u: User, begun: nat)
    requires NoLateUpgrade(w, u, begun)
    requires u in w.rows ==> w.rows[u].hash.Some?
    ensures NoLateUpgrade(Step(w, a), u, begun)
  {
    var w' := Step(w, a);
    RequestsGrow(w, a);
    forall q | begun <= q < |w'.requests|
      ensures w'.requests[q] != Upgrading(u)
    {
      if w'.requests[q].Upgrading? { UpgradeBegins(w, a, q); }
    }
  }

  lemma RequestsGrow(w: World, a: Action)
    ensures |w.requests| <= |Step(w, a).requests|
  {}

  lemma UsedGrows(w: World, a: Action)
    ensures w.used <= Step(w, a).used
    ensures forall u | u in w.used && u in Step(w, a).rows :: u in w.rows
  {}

  lemma FitsStays(w: World, a: Action, e: Event)
    requires WorldOk(w) && Fits(w, e)
    ensures Fits(Step(w, a), e)
  {
    hide Step, Out, PastMark, NoLateUpgrade, IsVerified;
    UsedGrows(w, a);
    match e
    case Reset(u, h, p, req, begun) =>
      OutStays(w, a, h);
      PastMarkStays(w, a, req);
      VerifiedStays(w, a, u);
      UpgradesStay(w, a, u, begun);
      if u in Step(w, a).rows { RowFrom(w, a, u); }
    case First(u, req) =>
      PastMarkStays(w, a, req);
      VerifiedStays(w, a, u);
    case Network(u, req) => DoneStays(w, a, req);
    case Emailed(_, _) => StampStays(w, a, e);
  }

  lemma DoneStays(w: World, a: Action, r: nat)
    requires Has(w, r) && w.requests[r].Done?
    ensures Has(Step(w, a), r) && Step(w, a).requests[r].Done?
  {}

  lemma ThreeWays(v: Option<bool>)
    ensures v == None || v == Some(false) || v == Some(true)
  {
    if v.Some? && v.value { assert v == Some(true); }
    if v.Some? && !v.value { assert v == Some(false); }
  }

  lemma CommittedRow(w: World, r: nat)
    requires Has(w, r) && w.requests[r].Resetting?
    requires StillHas(w.rows, w.requests[r].user, w.requests[r].hash, w.requests[r].password)
    ensures var u := w.requests[r].user;
            Committed(w, r).rows == w.rows[u := w.rows[u].(hash := Some(Made(r)), password := None,
            verified := Some(true))]
  {
    var u := w.requests[r].user;
    ThreeWays(w.rows[u].verified);
  }

  lemma ResetFits(w: World, r: nat)
    requires WorldOk(w) && Has(w, r) && w.requests[r].Resetting?
    requires StillHas(w.rows, w.requests[r].user, w.requests[r].hash, w.requests[r].password)
    ensures var q := w.requests[r];
            var w' := Step(w, CommitReset(r));
            && Fits(w', Reset(q.user, q.hash, q.password, r, |w.requests|))
            && (Unverified(w.rows, q.user, Some(false)) ==> Fits(w', First(q.user, r)))
  {
    var q := w.requests[r];
    OutStays(w, CommitReset(r), q.hash);
    CommittedRow(w, r);
  }

  lemma NewFits(w: World, a: Action, e: Event)
    requires WorldOk(w) && e in Happens(w, a)
    ensures Fits(Step(w, a), e)
  {
    if a.CommitReset? { ResetFits(w, a.req); }
  }

  /** An event never contradicts one that came before it. */
  lemma NewApart(w: World, a: Action, e: Event, later: Event)
    requires WorldOk(w) && Fits(w, e) && later in Happens(w, a)
    ensures Apart(e, later)
  {}

  lemma NewPairApart(w: World, a: Action)
    ensures |Happens(w, a)| <= 2
    ensures |Happens(w, a)| == 2 ==> Apart(Happens(w, a)[0], Happens(w, a)[1])
  {}

  lemma LogStays(s: State, a: Action)
    requires WorldOk(s.w) && LogOk(s)
    ensures LogOk(Next(s, a))
  {
    hide Step, Happens, Fits, Apart, WorldOk;
    var s' := Next(s, a);
    var n := |s.log|;
    forall i | 0 <= i < |s'.log|
      ensures Fits(s'.w, s'.log[i])
    {
      if i < n { FitsStays(s.w, a, s.log[i]); } else { NewFits(s.w, a, s'.log[i]); }
    }
    NewPairApart(s.w, a);
    forall i, j | 0 <= i < j < |s'.log|
      ensures Apart(s'.log[i], s'.log[j])
    {
      if i < n && n <= j { NewApart(s.w, a, s.log[i], s'.log[j]); }
    }
  }

  lemma EarnsBefore(w: World, a: Action, r: nat)
    requires Has(Step(w, a), r) && Earns(Step(w, a).requests[r])
    ensures var q := Step(w, a).requests[r];
            || First(q.user, r) in Happens(w, a)
            || (Has(w, r) && Earns(w.requests[r]) && w.requests[r].user == q.user)
  {}

  lemma NetworkEarned(w: World, a: Action, e: Event)
    requires e in Happens(w, a) && e.Network?
    ensures Has(w, e.req) && Earns(w.requests[e.req]) && w.requests[e.req].user == e.user
  {}

  lemma EarnedStays(s: State, a: Action)
    requires Earned(s)
    ensures Earned(Next(s, a))
  {
    hide Step, Happens;
    var s' := Next(s, a);
    forall r: nat | Has(s'.w, r) && Earns(s'.w.requests[r])
      ensures First(s'.w.requests[r].user, r) in s'.log
    {
      EarnsBefore(s.w, a, r);
    }
    forall e | e in s'.log && e.Network?
      ensures First(e.user, e.req) in s'.log
    {
      if e in Happens(s.w, a) { NetworkEarned(s.w, a, e); }
    }
  }

  /** Every run of every number of requests keeps the invariant. */
  lemma {:induction false} RunInv(s0: State, trace: seq<Action>, n: nat)
    requires Init(s0) && n <= |trace|
    ensures Inv(At(s0, trace, n))
  {
    hide Next, LogOk, WorldOk, Earned;
    if n == 0 { InitInv(s0); } else {
      RunInv(s0, trace, n - 1);
      InvStays(At(s0, trace, n - 1), trace[n - 1]);
    }
  }

  lemma InitInv(s0: State)
    requires Init(s0)
    ensures Inv(s0)
  {}

  lemma InvStays(s: State, a: Action)
    requires Inv(s)
    ensures Inv(Next(s, a))
  {
    hide LogOk, WorldOk, Earned, Step, Happens;
    WorldStays(s.w, a);
    LogStays(s, a);
    EarnedStays(s, a);
  }

  // ---- what holds in every run ----

  /** Of all the resets ever confirmed for a user, no two replaced the same
      stored pair: a link works at most once. */
  lemma ResetOncePerPair(s0: State, trace: seq<Action>, n: nat, i: nat, j: nat)
    requires Init(s0) && n <= |trace|
    requires var log := At(s0, trace, n).log;
             i < j < |log| && log[i].Reset? && log[j].Reset? && log[i].user == log[j].user
    ensures var log := At(s0, trace, n).log;
            (log[i].hash, log[i].password) != (log[j].hash, log[j].password)
  {
    hide Init, WorldOk, Fits, Earned, At;
    RunInv(s0, trace, n);
    var log := At(s0, trace, n).log;
    assert Apart(log[i], log[j]);
  }

  lemma LogApart(s: State, i: nat, j: nat)
    requires LogOk(s) && i < j < |s.log|
    ensures Apart(s.log[i], s.log[j])
  {}

  /** At most one request ever sees a user's first verification. */
  lemma FirstOncePerUser(s0: State, trace: seq<Action>, n: nat, i: nat, j: nat)
    requires Init(s0) && n <= |trace|
    requires var log := At(s0, trace, n).log;
             i < |log| && j < |log| && log[i].First? && log[j].First? && log[i].user == log[j].user
    ensures i == j
  {
    hide Init, WorldOk, Fits, Earned, At, LogOk;
    RunInv(s0, trace, n);
    if i < j { LogApart(At(s0, trace, n), i, j); }
    if j < i { LogApart(At(s0, trace, n), j, i); }
  }

  /** So the default network is added at most once for each user. */
  lemma NetworkOncePerUser(s0: State, trace: seq<Action>, n: nat, i: nat, j: nat)
    requires Init(s0) && n <= |trace|
    requires var log := At(s0, trace, n).log;
             i < |log| && j < |log| && log[i].Network? && log[j].Network? && log[i].user == log[j].user
    ensures i == j
  {
    hide Init, WorldOk, Fits, At, LogOk;
    RunInv(s0, trace, n);
    var log := At(s0, trace, n).log;
    assert log[i] in log && log[j] in log;
    var k: nat :| k < |log| && log[k] == First(log[i].user, log[i].req);
    var l: nat :| l < |log| && log[l] == First(log[j].user, log[j].req);
    FirstOncePerUser(s0, trace, n, k, l);
    if i < j { LogApart(At(s0, trace, n), i, j); }
    if j < i { LogApart(At(s0, trace, n), j, i); }
  }

  /** Verification emails to a user, the signup one included, are more than a
      minute apart. */
  lemma EmailsAreApart(s0: State, trace: seq<Action>, n: nat, i: nat, j: nat)
    requires Init(s0) && n <= |trace|
    requires var log := At(s0, trace, n).log;
             i < j < |log| && log[i].Emailed? && log[j].Emailed? && log[i].user == log[j].user
    ensures At(s0, trace, n).log[j].at - At(s0, trace, n).log[i].at > RESEND_EVERY
  {
    hide Init, WorldOk, Fits, Earned, At;
    RunInv(s0, trace, n);
    var log := At(s0, trace, n).log;
    assert Apart(log[i], log[j]);
  }

  /** Whoever was found verified, by a link or by a reset, still is. */
  lemma StaysVerified(s0: State, trace: seq<Action>, n: nat, i: nat)
    requires Init(s0) && n <= |trace|
    requires var log := At(s0, trace, n).log;
             i < |log| && (log[i].First? || log[i].Reset?)
    ensures var s := At(s0, trace, n);
            s.log[i].user in s.w.rows ==> s.w.rows[s.log[i].user].verified == Some(true)
  {
    hide Init, WorldOk, Apart, Earned, At;
    RunInv(s0, trace, n);
    assert Fits(At(s0, trace, n).w, At(s0, trace, n).log[i]);
  }

  // ---- what a reset does not promise ----

  /** The row still has the hash that this reset stored. */
  predicate HasReset(w: World, e: Event)
    requires e.Reset?
  {
    e.user in w.rows && w.rows[e.user].hash == Some(Made(e.req))
  }

  /** What replaces it: another reset whose link was issued against it, an upgrade of
      the legacy password that a login began before the reset, the operator's own
      reset, or the user's deletion. */
  predicate Replaces(w: World, a: Action, e: Event)
    requires e.Reset? && HasReset(w, e)
  {
    match a
    case CommitReset(q) => Has(w, q) && w.requests[q] == Resetting(e.user, Some(Made(e.req)), w.rows[e.user].password)
    case StoreUpgrade(q) => Has(w, q) && q < e.begun && w.requests[q] == Upgrading(e.user)
    case AdminReset(u) => u == e.user
    case Remove(u) => u == e.user
    case _ => false
  }

  /** In every run, the password a reset stored is replaced by a step exactly when
      that step is one of these. */
  lemma ResetReplacedIff(s0: State, trace: seq<Action>, n: nat, i: nat, a: Action)
    requires Init(s0) && n <= |trace|
    requires var s := At(s0, trace, n); i < |s.log| && s.log[i].Reset? && HasReset(s.w, s.log[i])
    ensures var s := At(s0, trace, n); HasReset(Step(s.w, a), s.log[i]) <==> !Replaces(s.w, a, s.log[i])
  {
    hide Init, Apart, Earned, At;
    RunInv(s0, trace, n);
    var s := At(s0, trace, n);
    assert Fits(s.w, s.log[i]);
    ReplacedIff(s.w, a, s.log[i]);
  }

  lemma ReplacedIff(w: World, a: Action, e: Event)
    requires WorldOk(w) && e.Reset? && Fits(w, e) && HasReset(w, e)
    ensures HasReset(Step(w, a), e) <==> !Replaces(w, a, e)
  {}

  function UndoneRows(hash: Option<Hash>, password: Option<nat>, verified: Option<bool>): Rows {
    map["ann" := Row(hash, password, verified, None)]
  }

  const UNDONE: seq<Action> := [ReadForLogin("ann"), ReadForReset("ann"), CommitReset(1), StoreUpgrade(0)]

  lemma UndoneSteps(w: World)
    requires w == World(UndoneRows(None, Some(7), None), {"ann"}, multiset{}, [], 0)
    ensures var s2 := Next(Next(State(w, []), UNDONE[0]), UNDONE[1]);
            s2 == State(w.(requests := [Upgrading("ann"), Resetting("ann", None, Some(7))]), [])
  {}

  lemma UndoneCommit(w: World)
    requires w == World(UndoneRows(None, Some(7), None), {"ann"}, multiset{},
                        [Upgrading("ann"), Resetting("ann", None, Some(7))], 0)
    ensures Next(State(w, []), UNDONE[2])
         == State(w.(rows := UndoneRows(Some(Made(1)), None, Some(true)), requests := [Upgrading("ann"), Done]),
                  [Reset("ann", None, Some(7), 1, 2)])
  {
    CommittedRow(w, 1);
  }

  /** It can happen: a login with the old password reads the row, a reset is
      confirmed, and then the login stores its hash of the old password. */
  lemma ResetUndone()
    ensures exists s0 ::
              && Init(s0)
              && At(s0, UNDONE, 4).log == [Reset("ann", None, Some(7), 1, 2)]
              && At(s0, UNDONE, 4).w.rows == UndoneRows(Some(Made(0)), None, Some(true))
  {
    hide Next;
    var w := World(UndoneRows(None, Some(7), None), {"ann"}, multiset{}, [], 0);
    var s0 := State(w, []);
    UndoneSteps(w);
    UndoneCommit(w.(requests := [Upgrading("ann"), Resetting("ann", None, Some(7))]));
    UndoneStore(w.(rows := UndoneRows(Some(Made(1)), None, Some(true)), requests := [Upgrading("ann"), Done]),
                [Reset("ann", None, Some(7), 1, 2)]);
    UndoneRun(s0);
    assert Init(s0);
  }

  lemma UndoneStore(w: World, log: seq<Event>)
    requires w.rows == UndoneRows(Some(Made(1)), None, Some(true)) && w.requests == [Upgrading("ann"), Done]
    ensures Next(State(w, log), UNDONE[3]).log == log
    ensures Next(State(w, log), UNDONE[3]).w.rows == UndoneRows(Some(Made(0)), None, Some(true))
  {}

  lemma UndoneRun(s0: State)
    ensures At(s0, UNDONE, 4) == Next(Next(Next(Next(s0, UNDONE[0]), UNDONE[1]), UNDONE[2]), UNDONE[3])
  {
    hide Next;
    assert At(s0, UNDONE, 0) == s0;
    assert At(s0, UNDONE, 1) == Next(s0, UNDONE[0]);
    assert At(s0, UNDONE, 2) == Next(At(s0, UNDONE, 1), UNDONE[1]);
    assert At(s0, UNDONE, 3) == Next(At(s0, UNDONE, 2), UNDONE[2]);
  }
}
