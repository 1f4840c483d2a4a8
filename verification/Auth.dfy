/** The API's account handlers as they run: statement by statement on a database
    that other requests change between any two of them. */
module Auth {
  import opened Wrappers
  import opened P = AccountProtocol

  /** A statement of request r. */
  predicate Of(a: Action, r: nat) {
    match a
    case CommitReset(q) => q == r
    case StoreUpgrade(q) => q == r
    case MarkFirst(q) => q == r
    case MarkNull(q) => q == r
    case CheckNetwork(q) => q == r
    case InsertNetwork(q) => q == r
    case Abandon(q) => q == r
    case _ => false
  }

  lemma OwnStatements(a: Action, r: nat)
    ensures Of(a, r) <==> a in {CommitReset(r), StoreUpgrade(r), MarkFirst(r), MarkNull(r), CheckNetwork(r),
                                InsertNetwork(r), Abandon(r)}
  {}

  /** An event that request r's statements cause. */
  predicate EventOf(e: Event, r: nat) {
    !e.Emailed? && e.req == r
  }

  /** No row of u's, or one that isn't waiting for its first verification. */
  predicate Settled(w: World, u: User) {
    !Unverified(w.rows, u, Some(false))
  }

  /** What others leave alone: request r, and who is verified. */
  ghost predicate Spares(s: State, s': State, r: nat) {
    && |s.w.requests| <= |s'.w.requests|
    && (Has(s.w, r) ==> s'.w.requests[r] == s.w.requests[r])
    && s.w.used <= s'.w.used
    && (forall u | u in s.w.used && IsVerified(s.w, u) :: IsVerified(s'.w, u))
    && (forall u | u in s.w.used && Settled(s.w, u) :: Settled(s'.w, u))
    && s.log <= s'.log
    && (Has(s.w, r) ==> NoneOf(s.log, s'.log, r))
  }

  /** None of the events added to a log are request r's. */
  ghost predicate NoneOf(log: seq<Event>, log': seq<Event>, r: nat) {
    forall i | |log| <= i < |log'| :: !EventOf(log'[i], r)
  }

  lemma StepSpares(s: State, a: Action, r: nat)
    requires WorldOk(s.w) && !Of(a, r)
    ensures Spares(s, Next(s, a), r)
  {
    hide Step, Happens, IsVerified, Settled, EventOf;
    StepSparesRequest(s.w, a, r);
    forall u | u in s.w.used && IsVerified(s.w, u)
      ensures IsVerified(Step(s.w, a), u)
    {
      VerifiedStays(s.w, a, u);
    }
    forall u | u in s.w.used && Settled(s.w, u)
      ensures Settled(Step(s.w, a), u)
    {
      SettledStays(s.w, a, u);
    }
    UsedGrows(s.w, a);
    forall i | Has(s.w, r) && |s.log| <= i < |s.log + Happens(s.w, a)|
      ensures !EventOf((s.log + Happens(s.w, a))[i], r)
    {
      assert (s.log + Happens(s.w, a))[i] == Happens(s.w, a)[i - |s.log|];
    }
  }

  lemma SettledStays(w: World, a: Action, u: User)
    requires u in w.used && Settled(w, u)
    ensures Settled(Step(w, a), u)
  {}

  lemma StepSparesRequest(w: World, a: Action, r: nat)
    requires !Of(a, r)
    ensures |w.requests| <= |Step(w, a).requests|
    ensures Has(w, r) ==> Step(w, a).requests[r] == w.requests[r]
    ensures Has(w, r) ==> forall i | 0 <= i < |Happens(w, a)| :: !EventOf(Happens(w, a)[i], r)
  {}

  lemma SparesChain(s: State, s': State, s'': State, r: nat)
    requires Spares(s, s', r) && Spares(s', s'', r)
    ensures Spares(s, s'', r)
  {
    hide IsVerified, EventOf, Settled;
    forall i | Has(s.w, r) && |s.log| <= i < |s''.log|
      ensures !EventOf(s''.log[i], r)
    {
      if i < |s'.log| { assert s''.log[i] == s'.log[i]; }
    }
  }

  lemma SparesSelf(s: State, r: nat)
    ensures Spares(s, s, r)
  {}

  /** What it comes to for a request of u's. */
  lemma SparesGives(s: State, s': State, r: nat, u: User)
    requires Spares(s, s', r) && Has(s.w, r) && u in s.w.used
    ensures Has(s'.w, r) && s'.w.requests[r] == s.w.requests[r] && u in s'.w.used
    ensures IsVerified(s.w, u) ==> IsVerified(s'.w, u)
    ensures Settled(s.w, u) ==> Settled(s'.w, u)
    ensures s.log <= s'.log && NoneOf(s.log, s'.log, r)
  {}

  /** What the others do between two statements of request r: the actions, but for r's own. */
  function Interleave(s: State, others: seq<Action>, r: nat): State {
    if others == [] then s
    else
      var t, a := Interleave(s, others[..|others| - 1], r), others[|others| - 1];
      if Of(a, r) then t else Next(t, a)
  }

  lemma {:induction false} InterleaveSpares(s: State, others: seq<Action>, r: nat)
    requires Inv(s)
    ensures Inv(Interleave(s, others, r)) && Spares(s, Interleave(s, others, r), r)
  {
    hide Inv, Spares, Next, Of;
    if others == [] {
      SparesSelf(s, r);
    } else {
      var t, a := Interleave(s, others[..|others| - 1], r), others[|others| - 1];
      InterleaveSpares(s, others[..|others| - 1], r);
      if !Of(a, r) {
        InvStays(t, a);
        WorldOfInv(t);
        StepSpares(t, a, r);
        SparesChain(s, t, Next(t, a), r);
      }
    }
  }

  lemma WorldOfInv(s: State)
    requires Inv(s)
    ensures WorldOk(s.w)
  {}

  // ---- the handlers, as the statements they run ----

  /** mark_verified outside a transaction. */
  function Marked(s: State, r: nat, others: seq<Action>): State {
    Next(Interleave(Next(s, MarkFirst(r)), others, r), MarkNull(r))
  }

  /** add_first_network. */
  function FirstNetwork(s: State, r: nat, id: User, others: seq<Action>): State {
    var t := Next(s, CheckNetwork(r));
    if id in s.w.owners then t else Next(Interleave(t, others, r), InsertNetwork(r))
  }

  /** verify, of a valid token: what it runs, with others(0) to others(3) between. */
  function Verifies(s: State, id: User, others: nat -> seq<Action>): State {
    var r := |s.w.requests|;
    var read := Interleave(Next(s, ReadForVerify(id)), others(0), r);
    var marked := Marked(read, r, others(1));
    if Unverified(read.w.rows, id, Some(false))
    then FirstNetwork(Interleave(marked, others(2), r), r, id, others(3))
    else marked
  }

  /** The database and the requests in flight. The ghost trace and log record
      every statement since the start and what has happened. */
  class Database {
    var rows: Rows
    var used: set<User>
    var owners: multiset<User>
    var requests: seq<Request>
    var now: Time
    ghost var log: seq<Event>
    ghost var trace: seq<Action>
    ghost const start: State

    ghost function Now(): State
      reads this
    {
      State(World(rows, used, owners, requests, now), log)
    }

    ghost predicate Valid()
      reads this
    {
      Init(start) && At(start, trace, |trace|) == Now()
    }

    constructor (rows: Rows, owners: multiset<User>, now: Time)
      requires forall u | u in rows :: rows[u].hash.None? || rows[u].hash.value.Before?
      ensures Valid() && trace == [] && this.rows == rows && this.owners == owners && this.now == now
    {
      this.rows, this.used, this.owners, this.requests, this.now := rows, rows.Keys, owners, [], now;
      this.log, this.trace := [], [];
      this.start := State(World(rows, rows.Keys, owners, [], now), []);
    }

    /** Adds to the record the statement or transaction that led from `was` here. */
    ghost method Record(a: Action, was: State)
      requires Init(start) && At(start, trace, |trace|) == was && log == was.log
      requires Now().w == Step(was.w, a)
      modifies this`log, this`trace
      ensures Valid() && Now() == Next(was, a)
    {
      hide Step, Happens, Init;
      AtPrefix(start, trace, [a], |trace|);
      log := log + Happens(was.w, a);
      trace := trace + [a];
      assert trace[..|trace| - 1] == old(trace);
    }

    /** Other requests' statements, run before request me's next one. */
    method Meanwhile(others: seq<Action>, me: nat)
      requires Valid()
      modifies this
      ensures Valid() && Now() == Interleave(old(Now()), others, me) && Spares(old(Now()), Now(), me)
    {
      hide Step, Spares, Init, Happens, WorldOk, LogOk, Earned, At;
      hide Inv;
      ghost var was := Now();
      RunInv(start, trace, |trace|);
      for i := 0 to |others|
        invariant Valid() && Now() == Interleave(was, others[..i], me)
      {
        assert others[..i + 1][..i] == others[..i];
        if !Of(others[i], me) {
          ghost var before := Now();
          var w := Step(World(rows, used, owners, requests, now), others[i]);
          rows, used, owners, requests, now := w.rows, w.used, w.owners, w.requests, w.now;
          Record(others[i], before);
        }
      }
      assert others[..|others|] == others;
      InterleaveSpares(was, others, me);
    }

    // ---- DB.pm's statements ----

    method SetPasswordHash(id: User, hash: Hash)
      modifies this`rows
      ensures rows == P.SetPasswordHash(old(rows), id, hash)
    {
      if id in rows {
        rows := rows[id := rows[id].(hash := Some(hash), password := None)];
      }
    }

    /** The number of rows changed. */
    method ReplacePasswordHash(id: User, hash: Hash, oldHash: Option<Hash>, oldPassword: Option<nat>)
      returns (changed: nat)
      modifies this`rows
      ensures rows == P.ReplacePasswordHash(old(rows), id, hash, oldHash, oldPassword)
      ensures changed == if StillHas(old(rows), id, oldHash, oldPassword) then 1 else 0
    {
      changed := 0;
      if id in rows && rows[id].hash == oldHash && rows[id].password == oldPassword {
        rows := rows[id := rows[id].(hash := Some(hash), password := None)];
        changed := 1;
      }
    }

    method SetVerified(id: User, was: Option<bool>) returns (changed: nat)
      modifies this`rows
      ensures rows == Verified(old(rows), id, was)
      ensures changed == if Unverified(old(rows), id, was) then 1 else 0
    {
      changed := 0;
      if id in rows && rows[id].verified == was {
        rows := rows[id := rows[id].(verified := Some(true))];
        changed := 1;
      }
    }

    method SetVerifySent(id: User) returns (due: nat)
      modifies this`rows
      ensures rows == Sent(old(rows), id, now)
      ensures due == if Due(old(rows), id, now) then 1 else 0
    {
      due := 0;
      if id in rows && rows[id].verified == Some(false)
         && (rows[id].verifySent.None? || rows[id].verifySent.value < now - RESEND_EVERY)
      {
        rows := rows[id := rows[id].(verifySent := Some(now))];
        due := 1;
      }
    }

    // ---- the handlers ----

    /** Others' statements, before the next one of a request of id's. */
    method Yield(me: nat, id: User, others: seq<Action>)
      requires Valid() && me < |requests| && id in used
      modifies this
      ensures Valid() && Now() == Interleave(old(Now()), others, me)
      ensures me < |requests| && requests[me] == old(requests[me]) && id in used
      ensures IsVerified(old(Now()).w, id) ==> IsVerified(Now().w, id)
      ensures Settled(old(Now()).w, id) ==> Settled(Now().w, id)
      ensures old(log) <= log && NoneOf(old(log), log, me)
    {
      hide Init, At, Spares, IsVerified, Settled, NoneOf, Interleave;
      ghost var was := Now();
      Meanwhile(others, me);
      SparesGives(was, Now(), me, id);
    }

    /** mark_verified outside a transaction: two statements, with others between. */
    method MarkVerified(me: nat, id: User, others: seq<Action>) returns (first: bool)
      requires Valid() && me < |requests| && requests[me] == Verifying(id) && id in used
      modifies this
      ensures Valid() && Now() == Marked(old(Now()), me, others)
      ensures me < |requests| && requests[me] == if first then Checking(id) else Done
      ensures id in used && IsVerified(Now().w, id) && old(log) <= log
      ensures first <==> id in old(rows) && old(rows)[id].verified == Some(false)
      ensures first ==> First(id, me) in log
    {
      hide Init, At, Interleave, Next, IsVerified, Settled, NoneOf;
      first := MarkSignup(me, id);
      ghost var marked := log;
      Yield(me, id, others);
      Grown(marked, log, First(id, me));
      MarkOlder(me, id, first);
    }

    /** Its first statement, for a signup's first verification. */
    method MarkSignup(me: nat, id: User) returns (first: bool)
      requires Valid() && me < |requests| && requests[me] == Verifying(id) && id in used
      modifies this
      ensures Valid() && Now() == Next(old(Now()), MarkFirst(me))
      ensures me < |requests| && requests[me] == Marking(id, first)
      ensures id in used && Settled(Now().w, id)
      ensures first <==> id in old(rows) && old(rows)[id].verified == Some(false)
      ensures old(log) <= log && (first ==> First(id, me) in log)
    {
      hide Init, At;
      ghost var s0 := Now();
      var changed := SetVerified(id, Some(false));
      first := changed == 1;
      requests := requests[me := Marking(id, first)];
      Record(MarkFirst(me), s0);
    }

    /** Its second, for an account from before signups had to verify. */
    method MarkOlder(me: nat, id: User, first: bool)
      requires Valid() && me < |requests| && requests[me] == Marking(id, first) && id in used
      requires Settled(Now().w, id)
      modifies this
      ensures Valid() && Now() == Next(old(Now()), MarkNull(me))
      ensures me < |requests| && requests[me] == if first then Checking(id) else Done
      ensures id in used && IsVerified(Now().w, id) && log == old(log)
    {
      hide Init, At;
      ghost var s0 := Now();
      if id in rows { ThreeWays(rows[id].verified); }
      var _ := SetVerified(id, None);
      requests := requests[me := if first then Checking(id) else Done];
      Record(MarkNull(me), s0);
    }

    /** add_first_network, which a request runs if it saw the first verification. */
    method AddFirstNetwork(me: nat, id: User, others: seq<Action>)
      requires Valid() && me < |requests| && requests[me] == Checking(id) && id in used && IsVerified(Now().w, id)
      modifies this
      ensures Valid() && Now() == FirstNetwork(old(Now()), me, id, others)
      ensures me < |requests| && requests[me].Done? && IsVerified(Now().w, id) && old(log) <= log
      ensures id in owners && (others == [] ==> rows == old(rows))
      ensures id in old(owners) ==> owners == old(owners)
      ensures id !in old(owners) && others == [] ==> owners == old(owners) + multiset{id}
    {
      hide Init, At, NoneOf, Interleave, IsVerified, Settled;
      NoOthers();
      var has := id in owners;
      LookForNetwork(me, id, has);
      if has { return; }
      Yield(me, id, others);
      AddNetwork(me, id);
    }

    method LookForNetwork(me: nat, id: User, has: bool)
      requires Valid() && me < |requests| && requests[me] == Checking(id) && has == (id in owners)
      modifies this
      ensures Valid() && Now() == Next(old(Now()), CheckNetwork(me))
      ensures me < |requests| && requests[me] == if has then Done else Inserting(id)
      ensures rows == old(rows) && used == old(used) && owners == old(owners) && log == old(log)
      ensures IsVerified(old(Now()).w, id) ==> IsVerified(Now().w, id)
    {
      hide Init, At;
      ghost var s0 := Now();
      requests := requests[me := if has then Done else Inserting(id)];
      Record(CheckNetwork(me), s0);
    }

    method AddNetwork(me: nat, id: User)
      requires Valid() && me < |requests| && requests[me] == Inserting(id)
      modifies this
      ensures Valid() && Now() == Next(old(Now()), InsertNetwork(me))
      ensures me < |requests| && requests[me] == Done && rows == old(rows) && old(log) <= log
      ensures owners == old(owners) + multiset{id}
      ensures IsVerified(old(Now()).w, id) ==> IsVerified(Now().w, id)
    {
      hide Init, At;
      ghost var s0 := Now();
      owners := owners + multiset{id};
      requests := requests[me := Done];
      Record(InsertNetwork(me), s0);
    }

    /** A request of id's begins by reading the row. */
    method Begin(id: User, q: Request, a: Action) returns (me: nat)
      requires Valid() && id in rows
      requires a == ReadForVerify(id) || a == ReadForReset(id) || (a == ReadForLogin(id) && rows[id].hash.None?)
      requires q == if a.ReadForVerify? then Verifying(id)
                    else if a.ReadForReset? then Resetting(id, rows[id].hash, rows[id].password)
                    else Upgrading(id)
      modifies this
      ensures Valid() && Now() == Next(old(Now()), a) && me == |old(requests)|
      ensures me < |requests| && requests[me] == q && id in used && rows == old(rows) && log == old(log)
    {
      hide Init, At;
      RowsAreUsed(start, trace);
      ghost var s0 := Now();
      me := |requests|;
      requests := requests + [q];
      Record(a, s0);
    }

    /** verify, given the user its token names and whether the token is valid for
        the row. It says yes exactly for a valid token, whose user is then verified;
        a signup's first verification also leaves its user with a network. */
    method Verify(id: User, valid: Row -> bool, others: nat -> seq<Action>) returns (ok: bool)
      requires Valid()
      modifies this
      ensures Valid() && old(log) <= log
      ensures ok <==> id in old(rows) && valid(old(rows)[id])
      ensures Now() == if ok then Verifies(old(Now()), id, others) else old(Now())
      ensures ok && id in rows ==> rows[id].verified == Some(true)
      ensures ok && others(0) == [] && old(rows)[id].verified == Some(false) ==> id in owners
    {
      hide Init, At, NoneOf, Settled, Interleave, Next, Marked, FirstNetwork;
      NoOthers();
      if id !in rows || !valid(rows[id]) { return false; }
      var me := Begin(id, Verifying(id), ReadForVerify(id));
      Yield(me, id, others(0));
      var first := MarkVerified(me, id, others(1));
      if first {
        Yield(me, id, others(2));
        AddFirstNetwork(me, id, others(3));
      }
      ok := true;
    }

    /** The transaction of reset_confirm; `commits` is false if the database fails. */
    method ResetTransaction(me: nat, id: User, wasHash: Option<Hash>, wasPassword: Option<nat>, commits: bool)
      returns (changed: nat, first: bool)
      requires Valid() && me < |requests| && requests[me] == Resetting(id, wasHash, wasPassword) && id in used
      modifies this
      ensures Valid() && Now() == Next(old(Now()), if commits then CommitReset(me) else Abandon(me))
      ensures me < |requests| && id in used
      ensures requests[me] == if changed == 1 && first then Checking(id) else Done
      ensures changed == if commits && StillHas(old(rows), id, wasHash, wasPassword) then 1 else 0
      ensures changed == 1 ==> (first <==> old(rows)[id].verified == Some(false))
      ensures changed == 0 ==> log == old(log) && rows == old(rows)
      ensures changed == 1 ==> |log| > |old(log)| && old(log) <= log && IsVerified(Now().w, id)
      ensures changed == 1 ==> log[|old(log)|] == Reset(id, wasHash, wasPassword, me, |requests|)
      ensures changed == 1 ==> id in rows && rows[id].hash == Some(Made(me)) && rows[id].password == None
                               && rows[id].verified == Some(true)
    {
      hide Init, At, Step, Happens;
      ghost var s0 := Now();
      ResetEnds(s0, me, id, wasHash, wasPassword);
      changed, first := 0, false;
      if !commits {
        requests := requests[me := Done];
        Record(Abandon(me), s0);
        return;
      }
      changed := ReplacePasswordHash(id, Made(me), wasHash, wasPassword);
      if changed == 1 {
        var n := SetVerified(id, Some(false));
        var _ := SetVerified(id, None);
        first := n == 1;
      }
      requests := requests[me := if first then Checking(id) else Done];
      Record(CommitReset(me), s0);
    }

    /** reset_confirm, likewise. It says yes exactly if the token is valid, the
        transaction commits, and the pair the token was checked against is still
        stored when that begins; then this request has replaced the pair, and the
        user is verified. */
    method ResetConfirm(id: User, valid: Row -> bool, others: nat -> seq<Action>, commits: bool) returns (ok: bool)
      requires Valid()
      modifies this
      ensures Valid() && old(log) <= log
      ensures var me := |old(requests)|;
              var moment := Interleave(Next(old(Now()), ReadForReset(id)), others(0), me).w.rows;
              ok <==>
              && id in old(rows) && valid(old(rows)[id]) && commits
              && id in moment && moment[id].hash == old(rows)[id].hash
              && moment[id].password == old(rows)[id].password
      ensures commits && others(0) == [] ==> (ok <==> id in old(rows) && valid(old(rows)[id]))
      ensures ok ==> exists i | |old(log)| <= i < |log| ::
                  log[i].Reset? && log[i].user == id && log[i].req == |old(requests)|
                  && log[i].hash == old(rows)[id].hash && log[i].password == old(rows)[id].password
      ensures ok && id in rows ==> rows[id].verified == Some(true)
      ensures ok && others(1) == others(2) == [] ==>
                && id in rows && rows[id].hash == Some(Made(|old(requests)|)) && rows[id].password == None
      ensures !ok ==> NoneOf(old(log), log, |old(requests)|)
    {
      hide Init, At, Settled, Interleave, Next, FirstNetwork;
      NoOthers();
      if id !in rows || !valid(rows[id]) { return false; }
      var row := rows[id];
      ReadsOnly(Now(), id);
      var me := Begin(id, Resetting(id, row.hash, row.password), ReadForReset(id));
      Yield(me, id, others(0));
      ghost var at := |log|;
      var changed, first := ResetTransaction(me, id, row.hash, row.password, commits);
      if changed == 0 { return false; }
      ghost var done := log;
      if first {
        Yield(me, id, others(1));
        AddFirstNetwork(me, id, others(2));
      }
      assert log[at] == done[at];
      ok := true;
    }

    /** resend_verify: one more email exactly if the user waits for a first
        verification and a minute has passed since the last. */
    method ResendVerify(id: User, others: seq<Action>) returns (sent: bool)
      requires Valid()
      modifies this
      ensures Valid() && old(log) <= log
      ensures var moment := Interleave(old(Now()), others, |old(requests)|).w;
              && (sent <==>
                  && id in old(rows) && id in moment.rows && moment.rows[id].verified == Some(false)
                  && (moment.rows[id].verifySent.None? || moment.rows[id].verifySent.value < moment.now - 60_000_000))
              && (sent ==> now == moment.now && rows == moment.rows[id := moment.rows[id].(verifySent := Some(now))])
              && (!sent ==> rows == if id in old(rows) then moment.rows else old(rows))
      ensures sent ==> log != [] && log[|log| - 1] == Emailed(id, now)
      ensures sent ==> forall i | 0 <= i < |log| - 1 && log[i].Emailed? && log[i].user == id ::
                  log[i].at < now - RESEND_EVERY
    {
      hide Init, At, NoneOf, IsVerified, Settled, Spares, WorldOk, Fits, Earned, Interleave;
      if id !in rows { return false; }
      ghost var was, r := Now(), |requests|;
      Meanwhile(others, |requests|);
      SparesLog(was, Now(), r);
      ghost var s0 := Now();
      var due := SetVerifySent(id);
      Record(Resend(id), s0);
      sent := due == 1;
      RunInv(start, trace, |trace|);
      if sent { LastEmail(Now(), id); }
    }

    /** login, given the rows its query finds and which of them the password fits:
        the first that fits logs in, and a legacy password is then replaced. */
    method Login(found: seq<User>, fits: (User, Row) -> bool, others: seq<Action>) returns (who: Option<User>)
      requires Valid()
      modifies this
      ensures Valid() && old(log) <= log
      ensures who.None? ==>
                && Now() == old(Now())
                && forall i :: 0 <= i < |found| && found[i] in old(rows) ==> !fits(found[i], old(rows)[found[i]])
      ensures who.Some? ==>
                exists i :: 0 <= i < |found| && found[i] == who.value
                            && found[i] in old(rows) && fits(found[i], old(rows)[found[i]])
                            && forall j :: 0 <= j < i && found[j] in old(rows) ==> !fits(found[j], old(rows)[found[j]])
      ensures who.Some? && old(rows)[who.value].hash.Some? ==> Now() == old(Now())
      ensures who.Some? && old(rows)[who.value].hash.None? ==>
                var me := |old(requests)|;
                Now() == Next(Interleave(Next(old(Now()), ReadForLogin(who.value)), others, me), StoreUpgrade(me))
      ensures who.Some? && who.value in rows && old(rows)[who.value].hash.None? ==>
                rows[who.value].hash == Some(Made(|old(requests)|)) && rows[who.value].password == None
    {
      hide Init, At, NoneOf, IsVerified, Settled, Interleave, Next;
      var i := 0;
      while i < |found| && (found[i] !in rows || !fits(found[i], rows[found[i]]))
        invariant i <= |found|
        invariant forall j | 0 <= j < i && found[j] in rows :: !fits(found[j], rows[found[j]])
      {
        i := i + 1;
      }
      if i == |found| { return None; }
      var u := found[i];
      if rows[u].hash.None? {
        var me := Begin(u, Upgrading(u), ReadForLogin(u));
        Yield(me, u, others);
        Upgrade(me, u);
      }
      who := Some(u);
    }

    method Upgrade(me: nat, id: User)
      requires Valid() && me < |requests| && requests[me] == Upgrading(id)
      modifies this
      ensures Valid() && Now() == Next(old(Now()), StoreUpgrade(me)) && log == old(log)
      ensures id in rows ==> rows[id].hash == Some(Made(me)) && rows[id].password == None
    {
      hide Init, At;
      ghost var s0 := Now();
      SetPasswordHash(id, Made(me));
      requests := requests[me := Done];
      Record(StoreUpgrade(me), s0);
    }
  }

  lemma NoOthers()
    ensures forall s, r :: Interleave(s, [], r) == s
  {}

  lemma ReadsOnly(s: State, id: User)
    requires id in s.w.rows
    ensures Next(s, ReadForReset(id)).w.rows == s.w.rows
  {}

  /** The rows after a reset's transaction: the new hash, and both of mark_verified's statements. */
  function AfterReset(rows: Rows, u: User, hash: Hash, h: Option<Hash>, p: Option<nat>): Rows {
    Verified(Verified(P.ReplacePasswordHash(rows, u, hash, h, p), u, Some(false)), u, None)
  }

  /** How a reset's transaction ends: abandoned, refused or committed. */
  lemma ResetEnds(s: State, r: nat, u: User, h: Option<Hash>, p: Option<nat>)
    requires Has(s.w, r) && s.w.requests[r] == Resetting(u, h, p)
    ensures Next(s, Abandon(r)) == State(Turned(s.w, r, Done), s.log)
    ensures !StillHas(s.w.rows, u, h, p) ==> Next(s, CommitReset(r)) == State(Turned(s.w, r, Done), s.log)
    ensures StillHas(s.w.rows, u, h, p) ==>
              var s', first := Next(s, CommitReset(r)), Unverified(s.w.rows, u, Some(false));
              && s'.w == Turned(s.w, r, if first then Checking(u) else Done).(
                         rows := AfterReset(s.w.rows, u, Made(r), h, p))
              && s'.w.rows == s.w.rows[u := s.w.rows[u].(hash := Some(Made(r)), password := None,
                              verified := Some(true))]
              && s'.log == s.log + [Reset(u, h, p, r, |s.w.requests|)] + if first then [First(u, r)] else []
  {
    if StillHas(s.w.rows, u, h, p) { CommittedRow(s.w, r); }
  }

  lemma RowsAreUsed(start: State, trace: seq<Action>)
    requires Init(start)
    ensures At(start, trace, |trace|).w.rows.Keys <= At(start, trace, |trace|).w.used
  {
    hide Init, LogOk, Earned;
    RunInv(start, trace, |trace|);
  }

  lemma Grown(log: seq<Event>, log': seq<Event>, e: Event)
    requires log <= log'
    ensures e in log ==> e in log'
  {}

  lemma SparesLog(s: State, s': State, r: nat)
    requires Spares(s, s', r)
    ensures s.log <= s'.log
  {}

  lemma LastEmail(s: State, u: User)
    requires LogOk(s) && s.log != [] && s.log[|s.log| - 1].Emailed? && s.log[|s.log| - 1].user == u
    ensures forall i | 0 <= i < |s.log| - 1 && s.log[i].Emailed? && s.log[i].user == u ::
              s.log[i].at < s.log[|s.log| - 1].at - RESEND_EVERY
  {
    hide Fits;
    forall i | 0 <= i < |s.log| - 1 && s.log[i].Emailed? && s.log[i].user == u
      ensures s.log[i].at < s.log[|s.log| - 1].at - RESEND_EVERY
    {
      LogApart(s, i, |s.log| - 1);
    }
  }
}
