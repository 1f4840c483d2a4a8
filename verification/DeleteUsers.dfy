/** deleteUsers: users listed, their connections destroyed, their rows deleted in
    a transaction each, and the log they left behind swept by serial id. */
module DeleteUsers {
  import opened Wrappers
  import opened Deletion

  datatype Found = Found(id: string, conns: seq<string>)

  function VictimOf(u: Found): Victim {
    OfUser(u.id, Elements(u.conns))
  }

  /** What one user's loop asks liercd: until the first refusal. */
  function AsksUntil(conns: seq<string>, answers: nat -> Answer, j: nat): seq<Event>
    requires j <= |conns|
    decreases |conns| - j
  {
    if j == |conns| then []
    else [Asked(conns[j], answers(j))] + if Accepts(answers(j)) then AsksUntil(conns, answers, j + 1) else []
  }

  predicate AllAccepted(conns: seq<string>, answers: nat -> Answer) {
    forall j | 0 <= j < |conns| :: Accepts(answers(j))
  }

  function AllAsks(found: seq<Found>, answers: nat -> nat -> Answer): seq<Event> {
    if found == [] then []
    else AllAsks(found[..|found| - 1], answers) + AsksUntil(found[|found| - 1].conns, answers(|found| - 1), 0)
  }

  /** The users all of whose connections answered 200 or 404. */
  function ReadyOf(found: seq<Found>, answers: nat -> nat -> Answer): seq<Found> {
    if found == [] then []
    else
      var u := found[|found| - 1];
      ReadyOf(found[..|found| - 1], answers) + if AllAccepted(u.conns, answers(|found| - 1)) then [u] else []
  }

  function DoneOf(ready: seq<Found>, txs: nat -> Tx): seq<Found> {
    if ready == [] then []
    else DoneOf(ready[..|ready| - 1], txs) + if txs(|ready| - 1).Committed? then [ready[|ready| - 1]] else []
  }

  function GoneOf(ready: seq<Found>, txs: nat -> Tx): set<Victim> {
    if ready == [] then {}
    else GoneOf(ready[..|ready| - 1], txs) + if txs(|ready| - 1).RolledBack? then {} else {VictimOf(ready[|ready| - 1])}
  }

  lemma OneMoreFound(found: seq<Found>, answers: nat -> nat -> Answer, n: nat)
    requires n < |found|
    ensures AllAsks(found[..n + 1], answers) == AllAsks(found[..n], answers) + AsksUntil(found[n].conns, answers(n), 0)
    ensures ReadyOf(found[..n + 1], answers)
         == ReadyOf(found[..n], answers) + if AllAccepted(found[n].conns, answers(n)) then [found[n]] else []
  {
    assert found[..n + 1][..n] == found[..n];
  }

  lemma OneMoreReady(ready: seq<Found>, txs: nat -> Tx, n: nat)
    requires n < |ready|
    ensures DoneOf(ready[..n + 1], txs) == DoneOf(ready[..n], txs) + if txs(n).Committed? then [ready[n]] else []
    ensures GoneOf(ready[..n + 1], txs) == GoneOf(ready[..n], txs) + if txs(n).RolledBack? then {}
                                           else {VictimOf(ready[n])}
  {
    assert ready[..n + 1][..n] == ready[..n];
  }

  lemma NoneYet(found: seq<Found>, answers: nat -> nat -> Answer, txs: nat -> Tx)
    ensures found[..0] == [] && AllAsks([], answers) == [] && ReadyOf([], answers) == []
    ensures DoneOf([], txs) == [] && GoneOf([], txs) == {}
  {}

  lemma {:induction false} AsksSplit(conns: seq<string>, answers: nat -> Answer, j: nat)
    requires j <= |conns| && forall k | 0 <= k < j :: Accepts(answers(k))
    ensures AsksUntil(conns, answers, 0) == AsksSoFar(conns, answers, j) + AsksUntil(conns, answers, j)
  {
    hide AsksUntil, AsksSoFar;
    if j == 0 {
      NoAsks(conns, answers);
    } else {
      AsksSplit(conns, answers, j - 1);
      OneAsk(conns, answers, j);
    }
  }

  lemma NoAsks(conns: seq<string>, answers: nat -> Answer)
    ensures AsksSoFar(conns, answers, 0) == []
  {}

  lemma OneAsk(conns: seq<string>, answers: nat -> Answer, j: nat)
    requires 0 < j <= |conns| && Accepts(answers(j - 1))
    ensures AsksSoFar(conns, answers, j) == AsksSoFar(conns, answers, j - 1) + [Asked(conns[j - 1], answers(j - 1))]
    ensures AsksUntil(conns, answers, j - 1) == [Asked(conns[j - 1], answers(j - 1))] + AsksUntil(conns, answers, j)
  {}

  function AsksSoFar(conns: seq<string>, answers: nat -> Answer, j: nat): seq<Event>
    requires j <= |conns|
  {
    if j == 0 then [] else AsksSoFar(conns, answers, j - 1) + [Asked(conns[j - 1], answers(j - 1))]
  }

  lemma {:induction false} AsksOnly(found: seq<Found>, answers: nat -> nat -> Answer)
    ensures forall k | 0 <= k < |AllAsks(found, answers)| :: AllAsks(found, answers)[k].Asked?
  {
    if found != [] {
      AsksOnly(found[..|found| - 1], answers);
      UntilAsksOnly(found[|found| - 1].conns, answers(|found| - 1), 0);
    }
  }

  lemma {:induction false} UntilAsksOnly(conns: seq<string>, answers: nat -> Answer, j: nat)
    requires j <= |conns|
    decreases |conns| - j
    ensures forall k | 0 <= k < |AsksUntil(conns, answers, j)| :: AsksUntil(conns, answers, j)[k].Asked?
  {
    if j < |conns| { UntilAsksOnly(conns, answers, j + 1); }
  }

  // ---- who was destroyed ----

  predicate Destroyed(history: seq<Event>, c: string) {
    exists k :: 0 <= k < |history| && history[k].Asked? && history[k].conn == c && Accepts(history[k].answer)
  }

  lemma {:induction false} AsksAccepted(conns: seq<string>, answers: nat -> Answer, j: nat, k: nat)
    requires j <= k < |conns| && AllAccepted(conns, answers)
    decreases k - j
    ensures Destroyed(AsksUntil(conns, answers, j), conns[k])
  {
    var asks := AsksUntil(conns, answers, j);
    assert asks[0] == Asked(conns[j], answers(j));
    if j < k {
      AsksAccepted(conns, answers, j + 1, k);
      DestroyedWithin([asks[0]], asks[1..], [], conns[k]);
      assert [asks[0]] + asks[1..] + [] == asks;
    }
  }

  lemma DestroyedWithin(before: seq<Event>, h: seq<Event>, after: seq<Event>, c: string)
    requires Destroyed(h, c)
    ensures Destroyed(before + h + after, c)
  {
    var k :| 0 <= k < |h| && h[k].Asked? && h[k].conn == c && Accepts(h[k].answer);
    assert (before + h + after)[|before| + k] == h[k];
  }

  /** Every connection of a ready user was destroyed. */
  lemma {:induction false} ReadyDestroyed(found: seq<Found>, answers: nat -> nat -> Answer, u: Found, c: string)
    requires u in ReadyOf(found, answers) && c in u.conns
    ensures Destroyed(AllAsks(found, answers), c)
  {
    var n := |found| - 1;
    var front, last := AllAsks(found[..n], answers), AsksUntil(found[n].conns, answers(n), 0);
    assert AllAsks(found, answers) == front + last == [] + front + last == front + last + [];
    if u in ReadyOf(found[..n], answers) {
      ReadyDestroyed(found[..n], answers, u, c);
      DestroyedWithin([], front, last, c);
    } else {
      var k :| 0 <= k < |found[n].conns| && found[n].conns[k] == c;
      AsksAccepted(found[n].conns, answers(n), 0, k);
      DestroyedWithin(front, last, [], c);
    }
  }

  /** Whoever's rows are gone was ready. */
  lemma {:induction false} GoneWereReady(ready: seq<Found>, txs: nat -> Tx, v: Victim)
    requires v in GoneOf(ready, txs)
    ensures exists u :: u in ready && v == VictimOf(u)
  {
    var n := |ready| - 1;
    if v in GoneOf(ready[..n], txs) { GoneWereReady(ready[..n], txs, v); } else { assert ready[n] in ready; }
  }

  lemma {:induction false} DoneAreGone(ready: seq<Found>, txs: nat -> Tx, u: Found)
    requires u in DoneOf(ready, txs)
    ensures u in ready && VictimOf(u) in GoneOf(ready, txs)
  {
    var n := |ready| - 1;
    if u in DoneOf(ready[..n], txs) { DoneAreGone(ready[..n], txs, u); }
  }

  /** Asked about and accepted: a connection of someone found, all of whose
      connections before it in the list were accepted too. */
  ghost predicate AskedAccepted(found: seq<Found>, answers: nat -> nat -> Answer, c: string) {
    exists k: nat, m: nat :: AcceptedAt(found, answers, c, k, m)
  }

  predicate AcceptedAt(found: seq<Found>, answers: nat -> nat -> Answer, c: string, k: nat, m: nat) {
    && k < |found| && m < |found[k].conns| && found[k].conns[m] == c
    && forall j | 0 <= j <= m :: answers(k)(j) == Status(200) || answers(k)(j) == Status(404)
  }

  lemma DestroyedConcat(a: seq<Event>, b: seq<Event>, c: string)
    ensures Destroyed(a + b, c) <==> Destroyed(a, c) || Destroyed(b, c)
  {
    if k :| 0 <= k < |a + b| && (a + b)[k].Asked? && (a + b)[k].conn == c && Accepts((a + b)[k].answer) {
      if k < |a| { assert (a + b)[k] == a[k]; } else { assert (a + b)[k] == b[k - |a|]; }
    }
    if Destroyed(a, c) { DestroyedWithin([], a, b, c); assert [] + a + b == a + b; }
    if Destroyed(b, c) { DestroyedWithin(a, b, [], c); assert a + b + [] == a + b; }
  }

  lemma NextAsk(conns: seq<string>, answers: nat -> Answer, j: nat)
    requires j <= |conns|
    ensures AsksUntil(conns, answers, j)
         == if j == |conns| then []
            else [Asked(conns[j], answers(j))] + if Accepts(answers(j)) then AsksUntil(conns, answers, j + 1) else []
  {}

  lemma NoneDestroyed(c: string)
    ensures !Destroyed([], c)
  {}

  lemma OneDestroyed(conn: string, answer: Answer, c: string)
    ensures Destroyed([Asked(conn, answer)], c) <==> conn == c && Accepts(answer)
  {
    assert [Asked(conn, answer)][0] == Asked(conn, answer);
  }

  lemma {:induction false} UntilDestroyedIff(conns: seq<string>, answers: nat -> Answer, j: nat, c: string)
    requires j <= |conns|
    decreases |conns| - j
    ensures Destroyed(AsksUntil(conns, answers, j), c)
       <==> exists m :: j <= m < |conns| && conns[m] == c && (forall x | j <= x <= m :: Accepts(answers(x)))
  {
    hide Destroyed, AsksUntil, Accepts;
    NextAsk(conns, answers, j);
    if j == |conns| {
      NoneDestroyed(c);
    } else {
      var rest := if Accepts(answers(j)) then AsksUntil(conns, answers, j + 1) else [];
      DestroyedConcat([Asked(conns[j], answers(j))], rest, c);
      OneDestroyed(conns[j], answers(j), c);
      NoneDestroyed(c);
      UntilDestroyedIff(conns, answers, j + 1, c);
    }
  }

  /** What the command destroys: exactly the connections it asked about and liercd accepted. */
  lemma {:induction false} DestroyedIffAsked(found: seq<Found>, answers: nat -> nat -> Answer, c: string)
    ensures Destroyed(AllAsks(found, answers), c) <==> AskedAccepted(found, answers, c)
  {
    if found != [] {
      var n := |found| - 1;
      DestroyedIffAsked(found[..n], answers, c);
      DestroyedConcat(AllAsks(found[..n], answers), AsksUntil(found[n].conns, answers(n), 0), c);
      UntilDestroyedIff(found[n].conns, answers(n), 0, c);
      AskedLast(found, answers, c);
    }
  }

  lemma AskedLast(found: seq<Found>, answers: nat -> nat -> Answer, c: string)
    requires found != []
    ensures var n := |found| - 1;
            AskedAccepted(found, answers, c) <==>
            || AskedAccepted(found[..n], answers, c)
            || exists m :: 0 <= m < |found[n].conns| && found[n].conns[m] == c
                           && (forall x | 0 <= x <= m :: Accepts(answers(n)(x)))
  {
    var n := |found| - 1;
    forall k: nat, m: nat
      ensures AcceptedAt(found[..n], answers, c, k, m) <==> k < n && AcceptedAt(found, answers, c, k, m)
    {
    }
    forall m: nat | m < |found[n].conns| && found[n].conns[m] == c && (forall x | 0 <= x <= m :: Accepts(answers(n)(x)))
      ensures AcceptedAt(found, answers, c, n, m)
    {
    }
  }

  // ---- what the listing saw ----

  /** u was listed, when serial id `at` was next, with exactly the connections it had then. */
  ghost predicate ListedAs(all: set<Row>, was: set<Row>, from: nat, u: Found, at: nat) {
    && from <= at
    && (forall r | r in all && (r in was || r.id >= from) && r.table == Connection && r.user == u.id && r.id < at ::
          r.conn in u.conns)
    && forall c | c in u.conns :: HadConnection(all, was, from, u.id, c, at)
  }

  predicate HadConnection(all: set<Row>, was: set<Row>, from: nat, id: string, c: string, at: nat) {
    exists r :: r in all && (r in was || r.id >= from) && r.table == Connection && r.user == id && r.conn == c
                && r.id < at
  }

  /** Everyone found was listed so; seen[k] is the serial id next at the time. */
  ghost predicate AllListed(all: set<Row>, was: set<Row>, from: nat, found: seq<Found>, seen: seq<nat>, listed: nat) {
    && |seen| == |found|
    && forall k | 0 <= k < |found| :: ListedAs(all, was, from, found[k], seen[k]) && seen[k] <= listed
  }

  lemma ListingStays(all: set<Row>, next: nat, more: set<Row>, was: set<Row>, from: nat, found: seq<Found>,
                     seen: seq<nat>, listed: nat, later: nat)
    requires AllListed(all, was, from, found, seen, listed) && Grew(all, next, more) && listed <= next
             && listed <= later
    ensures AllListed(more, was, from, found, seen, later)
  {
    forall k | 0 <= k < |found|
      ensures ListedAs(more, was, from, found[k], seen[k])
    {
      assert ListedAs(all, was, from, found[k], seen[k]);
      forall c | c in found[k].conns
        ensures HadConnection(more, was, from, found[k].id, c, seen[k])
      {
        assert HadConnection(all, was, from, found[k].id, c, seen[k]);
      }
    }
  }

  lemma NothingMissing(all: set<Row>, rows: set<Row>, was: set<Row>, from: nat)
    requires OnlyGone(all, rows, was, from, {})
    ensures forall r | r in all && (r in was || r.id >= from) :: r in rows
  {
    assert forall r :: !AnyCovers({}, r);
  }

  /** One more, from the rows as they are. */
  lemma ListedNow(all: set<Row>, rows: set<Row>, was: set<Row>, from: nat, next: nat, u: Found, found: seq<Found>,
                  seen: seq<nat>)
    requires OnlyGone(all, rows, was, from, {}) && rows <= all && from <= next && (forall r | r in all :: r.id < next)
    requires (forall r | r in rows :: r in was || r.id >= from)
    requires forall c :: c in u.conns <==>
                         exists r :: r in rows && r.table == Connection && r.user == u.id && r.conn == c
    requires AllListed(all, was, from, found, seen, next)
    ensures AllListed(all, was, from, found + [u], seen + [next], next)
  {
    forall r | r in all && (r in was || r.id >= from) && r.table == Connection && r.user == u.id
      ensures r.conn in u.conns
    {
      NothingMissing(all, rows, was, from);
    }
    forall c | c in u.conns
      ensures HadConnection(all, was, from, u.id, c, next)
    {
      var r :| r in rows && r.table == Connection && r.user == u.id && r.conn == c;
    }
    assert ListedAs(all, was, from, u, next);
  }

  /** Every row of the log for these connections came after `last`. */
  ghost predicate OnlyLater(rows: set<Row>, last: nat, u: Found) {
    forall r | r in LogRows(rows, Elements(u.conns)) :: r.id > last
  }

  method ConnectionsOf(rows: set<Row>, id: string) returns (conns: seq<string>)
    ensures forall c :: c in conns <==> exists r :: r in rows && r.table == Connection && r.user == id && r.conn == c
  {
    var rest := set r | r in rows && r.table == Connection && r.user == id :: r.conn;
    conns := [];
    ghost var all := rest;
    while rest != {}
      invariant rest <= all && forall c :: c in conns <==> c in all && c !in rest
      decreases rest
    {
      var c :| c in rest;
      conns, rest := conns + [c], rest - {c};
    }
  }

  /** coalesce(max(id), 0) over the log. */
  method LastLogId(rows: set<Row>) returns (last: nat)
    ensures forall r | r in rows && r.table == Log :: r.id <= last
    ensures last == 0 || exists r :: r in rows && r.table == Log && r.id == last
  {
    var rest := set r | r in rows && r.table == Log;
    ghost var all := rest;
    last := 0;
    while rest != {}
      invariant rest <= all && forall r | r in all && r !in rest :: r.id <= last
      invariant last == 0 || exists r :: r in all && r.id == last
      decreases rest
    {
      var r :| r in rest;
      if r.id > last { last := r.id; }
      rest := rest - {r};
    }
  }

  predicate IsUser(rows: set<Row>, id: string) {
    exists r :: r in rows && r.table == UserTable && r.user == id
  }

  lemma StillUsers(rows: set<Row>, more: set<Row>)
    requires rows <= more
    ensures forall id | IsUser(rows, id) :: IsUser(more, id)
  {}

  /** How many rows are inserted before each of the first n statements. */
  function Total(others: nat -> seq<Insert>, n: nat): nat {
    if n == 0 then 0 else Total(others, n - 1) + |others(n - 1)|
  }

  /** Everyone asked for who is in the table at the start is found. */
  ghost predicate AllFound(was: set<Row>, ids: seq<string>, found: seq<Found>) {
    forall id | id in ids && IsUser(was, id) :: exists u :: u in found && u.id == id
  }

  method ListUsers(db: Database, ids: seq<string>, fails: nat -> bool, others: nat -> seq<Insert>)
    returns (found: seq<Found>, skipped: nat, failed: bool, ghost seen: seq<nat>)
    requires db.Valid()
    modifies db`rows, db`next, db`all
    ensures db.Since(old(db.rows), old(db.next), {})
    ensures Grew(old(db.all), old(db.next), db.all) && Grew(old(db.rows), old(db.next), db.rows)
    ensures AllListed(db.all, old(db.rows), old(db.next), found, seen, db.next)
    ensures forall u | u in found :: u.id in ids && IsUser(db.rows, u.id)
    ensures failed ==> exists i: nat :: fails(i)
    ensures !failed ==> |found| + skipped == |ids| && AllFound(old(db.rows), ids, found)
                        && db.next == old(db.next) + Total(others, |ids|)
  {
    hide OnlyGone, AllGone, ListedAs, New;
    ghost var was, from := db.rows, db.next;
    NoneGone(db.all, db.rows, db.next);
    found, skipped, seen := [], 0, [];
    for i := 0 to |ids|
      invariant db.Since(was, from, {}) && Grew(was, from, db.rows) && Grew(old(db.all), from, db.all)
      invariant AllListed(db.all, was, from, found, seen, db.next)
      invariant |found| + skipped == i && db.next == from + Total(others, i)
      invariant forall u | u in found :: u.id in ids && IsUser(db.rows, u.id)
      invariant AllFound(was, ids[..i], found)
    {
      assert ids[..i + 1] == ids[..i] + [ids[i]];
      ghost var before, all, next := db.rows, db.all, db.next;
      db.Others(others(i), was, from, {});
      StillUsers(before, db.rows);
      ListingStays(all, next, db.all, was, from, found, seen, next, db.next);
      if fails(i) { return found, skipped, true, seen; }
      StillUsers(was, db.rows);
      if !IsUser(db.rows, ids[i]) {
        skipped := skipped + 1;
        continue;
      }
      var conns := ConnectionsOf(db.rows, ids[i]);
      ListedNow(db.all, db.rows, was, from, db.next, Found(ids[i], conns), found, seen);
      ghost var shorter := found;
      found, seen := found + [Found(ids[i], conns)], seen + [db.next];
      assert Found(ids[i], conns) in found && forall u | u in shorter :: u in found;
    }
    assert ids[..|ids|] == ids;
    failed := false;
  }

  /** One user's connections: stops at the first refusal. */
  method DestroyTheirs(db: Database, conns: seq<string>, answers: nat -> Answer) returns (ok: bool)
    modifies db`history
    ensures ok == AllAccepted(conns, answers)
    ensures db.history == old(db.history) + AsksUntil(conns, answers, 0)
  {
    for j := 0 to |conns|
      invariant forall k | 0 <= k < j :: Accepts(answers(k))
      invariant db.history == old(db.history) + AsksSoFar(conns, answers, j)
    {
      var accepted := db.Destroy(conns[j], answers(j));
      if !accepted {
        AsksSplit(conns, answers, j);
        return false;
      }
    }
    AsksSplit(conns, answers, |conns|);
    ok := true;
  }

  method DestroyUsers(db: Database, found: seq<Found>, answers: nat -> nat -> Answer)
    returns (ready: seq<Found>, skipped: nat, wait: bool)
    modifies db`history
    ensures ready == ReadyOf(found, answers) && |ready| + skipped == |found|
    ensures wait <==> exists u :: u in ready && u.conns != []
    ensures db.history == old(db.history) + AllAsks(found, answers)
  {
    hide AllAsks, ReadyOf, AsksUntil, AllAccepted;
    ready, skipped, wait := [], 0, false;
    NoneYet(found, answers, _ => Committed);
    for n := 0 to |found|
      invariant ready == ReadyOf(found[..n], answers) && |ready| + skipped == n
      invariant wait <==> exists u :: u in ready && u.conns != []
      invariant db.history == old(db.history) + AllAsks(found[..n], answers)
    {
      OneMoreFound(found, answers, n);
      var ok := DestroyTheirs(db, found[n].conns, answers(n));
      if !ok {
        skipped := skipped + 1;
        continue;
      }
      ghost var before := ready;
      ready := ready + [found[n]];
      assert found[n] in ready && forall u | u in before :: u in ready;
      wait := wait || |found[n].conns| > 0;
    }
    assert found[..|found|] == found;
  }

  /** A transaction per ready user, until the command is cancelled. */
  method DeleteReady(db: Database, ready: seq<Found>, txs: nat -> Tx, cancelled: nat -> bool,
                     others: nat -> seq<Insert>,
                     ghost last: nat, ghost was: set<Row>, ghost from: nat)
    returns (done: seq<Found>, skipped: nat, tried: nat)
    requires db.Since(was, from, {}) && db.next > last
    modifies db
    ensures tried <= |ready| && (tried < |ready| ==> cancelled(tried)) && (forall k | 0 <= k < tried :: !cancelled(k))
    ensures done == DoneOf(ready[..tried], txs) && |done| + skipped == tried
    ensures db.Since(was, from, GoneOf(ready[..tried], txs)) && db.next > last
    ensures forall u | u in done :: OnlyLater(db.rows, last, u)
    ensures OnlyRemovals(old(db.history), db.history) && SweepsLeaveAll(old(db.history), db.history)
    ensures Grew(old(db.all), old(db.next), db.all) && db.next >= old(db.next)
  {
    hide OnlyGone, AllGone, GoneOf, DoneOf, Matching, OnlyLater, New;
    done, skipped, tried := [], 0, 0;
    NoneYet(ready, _ => _ => NoReply, txs);
    while tried < |ready| && !cancelled(tried)
      invariant tried <= |ready| && (forall k | 0 <= k < tried :: !cancelled(k))
      invariant done == DoneOf(ready[..tried], txs) && |done| + skipped == tried
      invariant db.Since(was, from, GoneOf(ready[..tried], txs)) && db.next > last
      invariant forall u | u in done :: OnlyLater(db.rows, last, u)
      invariant OnlyRemovals(old(db.history), db.history) && SweepsLeaveAll(old(db.history), db.history)
      invariant Grew(old(db.all), old(db.next), db.all) && db.next >= old(db.next)
    {
      ghost var gone := GoneOf(ready[..tried], txs);
      OthersKeepLater(db, others(tried), last, done, was, from, gone);
      ghost var rows := db.rows;
      OneGone(db.all, rows, was, from, gone, VictimOf(ready[tried]));
      var ok := db.Delete(OfUser(ready[tried].id, Elements(ready[tried].conns)), txs(tried));
      LaterAfter(rows, db.rows, last, done);
      NoLogLeft(rows, last, ready[tried]);
      OneMoreReady(ready, txs, tried);
      assert gone + {} == gone;
      if ok { done := done + [ready[tried]]; } else { skipped := skipped + 1; }
      tried := tried + 1;
    }
  }

  /** Other processes only log rows that the sweep will see. */
  method OthersKeepLater(db: Database, inserts: seq<Insert>, ghost last: nat, ghost done: seq<Found>,
                         ghost was: set<Row>, ghost from: nat, ghost gone: set<Victim>)
    requires db.Since(was, from, gone) && db.next > last && forall u | u in done :: OnlyLater(db.rows, last, u)
    modifies db`rows, db`next, db`all
    ensures db.Since(was, from, gone) && db.next > last && forall u | u in done :: OnlyLater(db.rows, last, u)
    ensures db.next >= old(db.next) && Grew(old(db.rows), old(db.next), db.rows)
            && Grew(old(db.all), old(db.next), db.all)
  {
    hide OnlyGone, AllGone, New;
    ghost var rows := db.rows;
    db.Others(inserts, was, from, gone);
  }

  lemma LaterAfter(rows: set<Row>, fewer: set<Row>, last: nat, done: seq<Found>)
    requires fewer <= rows && forall u | u in done :: OnlyLater(rows, last, u)
    ensures forall u | u in done :: OnlyLater(fewer, last, u)
  {
    forall u | u in done
      ensures OnlyLater(fewer, last, u)
    {
      assert OnlyLater(rows, last, u);
    }
  }

  lemma NoLogLeft(rows: set<Row>, last: nat, u: Found)
    ensures OnlyLater(rows - Matching(rows, {VictimOf(u)}), last, u)
  {
    MatchingOne(rows, VictimOf(u));
  }

  /** The late sweep, above `last` only: it leaves what sweeping all would leave,
      so nothing logged before it began remains. */
  method SweepUsers(db: Database, done: seq<Found>, sweeps: nat -> Tx, others: nat -> seq<Insert>, last: nat,
                    ghost ready: seq<Found>, ghost txs: nat -> Tx, ghost was: set<Row>, ghost from: nat)
    returns (failed: bool)
    requires done == DoneOf(ready, txs) && db.Since(was, from, GoneOf(ready, txs)) && db.next > last
    requires forall u | u in done :: OnlyLater(db.rows, last, u)
    modifies db
    ensures db.Since(was, from, GoneOf(ready, txs)) && OnlyRemovals(old(db.history), db.history)
    ensures SweepsLeaveAll(old(db.history), db.history) && Grew(old(db.all), old(db.next), db.all)
    ensures failed ==> exists i: nat :: !sweeps(i).Committed?
    ensures !failed ==> forall u | u in done :: OnlyLater(db.rows, old(db.next) - 1, u)
  {
    hide OnlyGone, AllGone, GoneOf, DoneOf, Matching, OnlyLater, SweepNewer, SweepAll;
    ghost var gone, late := GoneOf(ready, txs), db.next - 1;
    for i := 0 to |done|
      invariant db.Since(was, from, gone) && db.next > late >= last && OnlyRemovals(old(db.history), db.history)
      invariant SweepsLeaveAll(old(db.history), db.history) && Grew(old(db.all), old(db.next), db.all)
      invariant forall u | u in done :: OnlyLater(db.rows, last, u)
      invariant forall u | u in done[..i] :: OnlyLater(db.rows, late, u)
    {
      ghost var before := db.rows;
      OthersKeepLater(db, others(i), last, done, was, from, gone);
      StillLater(before, db.rows, late, done[..i]);
      ghost var rows := db.rows;
      OneSweep(db.all, rows, last, late, ready, txs, done[i], was, from);
      db.Sweep(Elements(done[i].conns), Some(last), !sweeps(i).RolledBack?);
      SweepShrinks(rows, last, Elements(done[i].conns));
      LaterAfter(rows, db.rows, last, done);
      LaterAfter(rows, db.rows, late, done[..i]);
      if !sweeps(i).Committed? { return true; }
      assert forall u | u in done[..i + 1] :: u in done[..i] || u == done[i];
    }
    assert done[..|done|] == done;
    failed := false;
  }

  /** Every sweep there has been since left what sweeping the whole log would have left. */
  ghost predicate SweepsLeaveAll(was: seq<Event>, now: seq<Event>) {
    forall k | |was| <= k < |now| && now[k].Swept? :: now[k].after == SweepAll(now[k].before, now[k].conns)
  }

  lemma SweepShrinks(rows: set<Row>, last: nat, conns: set<string>)
    ensures SweepNewer(rows, last, conns) <= rows
  {}

  lemma StillLater(rows: set<Row>, more: set<Row>, late: nat, some: seq<Found>)
    requires forall u | u in some :: OnlyLater(rows, late, u)
    requires forall r | r in more && r !in rows :: r.id > late
    ensures forall u | u in some :: OnlyLater(more, late, u)
  {
    forall u | u in some
      ensures OnlyLater(more, late, u)
    {
      assert OnlyLater(rows, late, u);
    }
  }

  lemma OneSweep(all: set<Row>, rows: set<Row>, last: nat, late: nat, ready: seq<Found>, txs: nat -> Tx, u: Found,
                 was: set<Row>, from: nat)
    requires OnlyGone(all, rows, was, from, GoneOf(ready, txs)) && AllGone(rows, was, GoneOf(ready, txs))
    requires u in DoneOf(ready, txs) && OnlyLater(rows, last, u)
    ensures var swept := SweepNewer(rows, last, Elements(u.conns));
            && swept == SweepAll(rows, Elements(u.conns))
            && OnlyLater(swept, late, u)
            && OnlyGone(all, swept, was, from, GoneOf(ready, txs)) && AllGone(swept, was, GoneOf(ready, txs))
  {
    hide OnlyGone, AllGone, GoneOf, DoneOf;
    SweepsAgreeIff(rows, last, Elements(u.conns));
    DoneAreGone(ready, txs, u);
    forall c | c in Elements(u.conns)
      ensures exists v :: v in GoneOf(ready, txs) && CoversLog(v, c)
    {
      assert CoversLog(VictimOf(u), c);
    }
    SweepTakesLog(all, rows, SweepAll(rows, Elements(u.conns)), was, from, GoneOf(ready, txs), Elements(u.conns));
  }


  // ---- the command ----

  /** What the command asks, and the wait for the log if there is anything to wait for. */
  ghost function Prelude(found: seq<Found>, answers: nat -> nat -> Answer, settle: nat): seq<Event> {
    var waits := exists u :: u in ReadyOf(found, answers) && u.conns != [];
    AllAsks(found, answers) + if waits then [Paused(settle, true)] else []
  }

  lemma PreludeIs(found: seq<Found>, answers: nat -> nat -> Answer, settle: nat)
    ensures var waits := exists u :: u in ReadyOf(found, answers) && u.conns != [];
            Prelude(found, answers, settle) == AllAsks(found, answers) + if waits then [Paused(settle, true)] else []
  {}

  /** The command up to its first transaction: users listed, the newest log row
      noted, connections destroyed, and the wait. */
  method Prepare(db: Database, ids: seq<string>, settle: nat, listing: nat -> bool, canRead: bool,
                 answers: nat -> nat -> Answer, sleeps: bool, others: nat -> nat -> seq<Insert>)
    returns (failed: bool, ready: seq<Found>, skipped: nat, last: nat, ghost found: seq<Found>, ghost seen: seq<nat>,
             ghost listed: nat)
    requires db.Valid() && db.history == []
    modifies db
    ensures db.Since(old(db.rows), old(db.next), {})
    ensures Grew(old(db.all), old(db.next), db.all) && Grew(old(db.rows), old(db.next), db.rows)
    ensures AllListed(db.all, old(db.rows), old(db.next), found, seen, listed) && listed <= db.next
    ensures forall u | u in found :: u.id in ids
    ensures failed ==> (exists i: nat :: listing(i)) || !canRead || !sleeps
    ensures !failed ==> AllFound(old(db.rows), ids, found) && ready == ReadyOf(found, answers)
                        && |ready| + skipped == |ids|
    ensures !failed ==> db.history == Prelude(found, answers, settle) && db.next > last
    ensures SweepsLeaveAll([], db.history)
    ensures !failed ==> listed == old(db.next) + Total(others(0), |ids|) && New(others(1)(0), listed) <= db.rows
  {
    hide OnlyGone, AllGone, ReadyOf, AllAsks, AllListed, New, AllFound;
    ghost var was, from := db.rows, db.next;
    failed, ready, skipped, last := true, [], 0, 0;
    var users, missing, broke;
    users, missing, broke, seen := ListUsers(db, ids, listing, others(0));
    found, listed := users, db.next;
    if broke { return; }
    ghost var all, next := db.all, db.next;
    db.Others(others(1)(0), was, from, {});
    ListingStays(all, next, db.all, was, from, found, seen, listed, listed);
    if !canRead { return; }
    last := LastLogId(db.rows);

    var refused, wait;
    ready, refused, wait := DestroyUsers(db, users, answers);
    AsksOnly(found, answers);
    all, next := db.all, db.next;
    db.Others(others(1)(1), was, from, {});
    ListingStays(all, next, db.all, was, from, found, seen, listed, listed);
    if wait {
      var slept := db.Sleep(settle, sleeps);
      if !slept { return; }
    }
    failed, skipped := false, missing + refused;
  }

  lemma HistoryDestroys(found: seq<Found>, answers: nat -> nat -> Answer, settle: nat, history: seq<Event>, c: string)
    requires OnlyRemovals(Prelude(found, answers, settle), history)
    ensures Destroyed(history, c) <==> Destroyed(AllAsks(found, answers), c)
  {
    hide ReadyOf, AllAsks;
    var asks := AllAsks(found, answers);
    DestroyedConcat(asks, history[|asks|..], c);
    assert asks + history[|asks|..] == history;
    assert forall k | |asks| <= k < |history| :: !history[k].Asked?;
  }

  lemma DestroyedAreAsked(found: seq<Found>, answers: nat -> nat -> Answer, settle: nat, history: seq<Event>)
    requires OnlyRemovals(Prelude(found, answers, settle), history)
    ensures forall c :: Destroyed(history, c) <==> AskedAccepted(found, answers, c)
  {
    hide OnlyRemovals, Prelude, Destroyed, AskedAccepted, AllAsks;
    forall c
      ensures Destroyed(history, c) <==> AskedAccepted(found, answers, c)
    {
      HistoryDestroys(found, answers, settle, history, c);
      DestroyedIffAsked(found, answers, c);
    }
  }

  /** A connection's id is its primary key. */
  ghost predicate OneRowEach(all: set<Row>) {
    forall r, q | r in all && q in all && r.table == q.table == Connection && r.conn == q.conn :: r == q
  }

  ghost predicate UsersOnce(found: seq<Found>) {
    forall k, l | 0 <= k < l < |found| :: found[k].id != found[l].id
  }

  /** Of the connections deleted with their user, those that were there when the
      user was listed were destroyed. With nobody given twice they are the only
      ones: a connection was destroyed exactly if it was there then. */
  ghost predicate DestroyedIfListed(all: set<Row>, rows: set<Row>, was: set<Row>, from: nat, found: seq<Found>,
                                    seen: seq<nat>, history: seq<Event>)
    requires |seen| == |found|
  {
    forall r | r in all && r !in rows && (r in was || r.id >= from) && r.table == Connection ::
      exists k :: 0 <= k < |found| && ListedUser(all, found, seen, history, r, k)
  }

  ghost predicate ListedUser(all: set<Row>, found: seq<Found>, seen: seq<nat>, history: seq<Event>, r: Row, k: int)
    requires 0 <= k < |found| == |seen|
  {
    && found[k].id == r.user
    && (r.id < seen[k] ==> Destroyed(history, r.conn))
    && (OneRowEach(all) && UsersOnce(found) ==> (Destroyed(history, r.conn) <==> r.id < seen[k]))
  }

  lemma DeletedWereDestroyed(all: set<Row>, rows: set<Row>, was: set<Row>, from: nat, found: seq<Found>,
                             seen: seq<nat>, listed: nat,
                             answers: nat -> nat -> Answer, settle: nat, tried: seq<Found>, txs: nat -> Tx,
                             history: seq<Event>)
    requires AllListed(all, was, from, found, seen, listed)
    requires tried <= ReadyOf(found, answers) && OnlyGone(all, rows, was, from, GoneOf(tried, txs))
    requires OnlyRemovals(Prelude(found, answers, settle), history)
    ensures DestroyedIfListed(all, rows, was, from, found, seen, history)
  {
    hide AllAsks, GoneOf, ReadyOf, Destroyed, ListedUser, Prelude, OnlyRemovals, ListedAs, OneRowEach, UsersOnce;
    forall r | r in all && r !in rows && (r in was || r.id >= from) && r.table == Connection
      ensures exists k :: 0 <= k < |found| && ListedUser(all, found, seen, history, r, k)
    {
      var v :| v in GoneOf(tried, txs) && Covers(v, r);
      GoneWereReady(tried, txs, v);
      var u :| u in tried && v == VictimOf(u);
      ReadyWereFound(found, answers, u);
      var k :| 0 <= k < |found| && found[k] == u;
      HistoryDestroys(found, answers, settle, history, r.conn);
      OneDeleted(all, was, from, found, seen, listed, answers, history, r, k);
    }
  }

  lemma OneDeleted(all: set<Row>, was: set<Row>, from: nat, found: seq<Found>, seen: seq<nat>, listed: nat,
                   answers: nat -> nat -> Answer, history: seq<Event>, r: Row, k: nat)
    requires AllListed(all, was, from, found, seen, listed) && k < |found| && found[k] in ReadyOf(found, answers)
    requires r in all && (r in was || r.id >= from) && r.table == Connection && r.user == found[k].id
    requires Destroyed(history, r.conn) <==> Destroyed(AllAsks(found, answers), r.conn)
    ensures ListedUser(all, found, seen, history, r, k)
  {
    hide AllAsks, ReadyOf, Destroyed;
    assert ListedAs(all, was, from, found[k], seen[k]);
    if r.id < seen[k] { ReadyDestroyed(found, answers, found[k], r.conn); }
    DestroyedIffAsked(found, answers, r.conn);
    if OneRowEach(all) && UsersOnce(found) && AskedAccepted(found, answers, r.conn) {
      var l: nat, m: nat :| AcceptedAt(found, answers, r.conn, l, m);
      assert ListedAs(all, was, from, found[l], seen[l]);
      assert HadConnection(all, was, from, found[l].id, r.conn, seen[l]);
    }
  }

  lemma {:induction false} ReadyWereFound(found: seq<Found>, answers: nat -> nat -> Answer, u: Found)
    requires u in ReadyOf(found, answers)
    ensures u in found
  {
    if u in ReadyOf(found[..|found| - 1], answers) { ReadyWereFound(found[..|found| - 1], answers, u); }
  }

  /** What is missing since the transactions began is what is missing since the start. */
  lemma SinceTheStart(allThen: set<Row>, all: set<Row>, rows: set<Row>, was: set<Row>, from: nat, before: set<Row>,
                      since: nat, gone: set<Victim>)
    requires OnlyGone(allThen, before, was, from, {}) && was <= before && Grew(allThen, since, all)
    requires OnlyGone(all, rows, before, since, gone) && AllGone(rows, before, gone)
    ensures OnlyGone(all, rows, was, from, gone) && AllGone(rows, was, gone)
  {
    NothingMissing(allThen, before, was, from);
  }

  /** In plain terms: of each user whose transaction took effect, what was there is gone. */
  lemma AllOfThem(rows: set<Row>, before: set<Row>, tried: seq<Found>, txs: nat -> Tx)
    requires AllGone(rows, before, GoneOf(tried, txs))
    ensures forall k, r | 0 <= k < |tried| && !txs(k).RolledBack? && r in before && r in rows ::
              var u := tried[k];
              && (r.table in {UserTable, Pref, WebPush, Connection} ==> r.user != u.id)
              && (r.table in {Log, Private} ==> r.conn !in u.conns)
              && (r.table == Seen ==> r.user != u.id && r.conn !in u.conns)
  {
    hide GoneOf;
    forall k, r | 0 <= k < |tried| && !txs(k).RolledBack? && r in before && r in rows
      ensures !Covers(VictimOf(tried[k]), r)
    {
      GoneIff(tried, txs, VictimOf(tried[k]));
      assert r !in Matching(rows, GoneOf(tried, txs));
    }
  }

  /** And nothing else is missing. */
  lemma NoOthers(all: set<Row>, rows: set<Row>, was: set<Row>, from: nat, tried: seq<Found>, txs: nat -> Tx)
    requires OnlyGone(all, rows, was, from, GoneOf(tried, txs))
    ensures forall r | r in all && r !in rows && (r in was || r.id >= from) ::
              exists k :: 0 <= k < |tried| && !txs(k).RolledBack? &&
                          var u := tried[k];
                          || (r.table in {UserTable, Pref, WebPush, Connection} && r.user == u.id)
                          || (r.table in {Log, Private} && r.conn in u.conns)
                          || (r.table == Seen && (r.user == u.id || r.conn in u.conns))
  {
    hide GoneOf;
    forall r | r in all && r !in rows && (r in was || r.id >= from)
      ensures exists k :: 0 <= k < |tried| && !txs(k).RolledBack? && Covers(VictimOf(tried[k]), r)
    {
      var v :| v in GoneOf(tried, txs) && Covers(v, r);
      GoneIff(tried, txs, v);
    }
  }

  lemma {:induction false} GoneIff(ready: seq<Found>, txs: nat -> Tx, v: Victim)
    ensures v in GoneOf(ready, txs) <==> exists k :: 0 <= k < |ready| && !txs(k).RolledBack? && VictimOf(ready[k]) == v
  {
    if ready != [] {
      var n := |ready| - 1;
      GoneIff(ready[..n], txs, v);
      assert forall k :: 0 <= k < n ==> ready[..n][k] == ready[k];
    }
  }

  /** A run of the command. The listing ended at serial id `listed`; the transactions
      began with the rows `before`, at serial id `since`; the sweep began after `late`. */
  datatype Run = Run(found: seq<Found>, seen: seq<nat>, listed: nat, before: set<Row>, since: nat, tried: seq<Found>,
                     late: nat)

  /** deleteUsers --delete, whatever liercd and the database answer and whatever
      others insert meanwhile. Only rows of users all of whose listed connections
      answered 200 or 404 are deleted, after every destroy and the wait for the
      log; of a user whose transaction took effect, all that was there when the
      transactions began is; and no older row of their log is left. */
  method DeleteUsers(db: Database, ids: seq<string>, settle: nat, listing: nat -> bool, canRead: bool,
                     answers: nat -> nat -> Answer, sleeps: bool, cancelled: nat -> bool, txs: nat -> Tx,
                     sweeps: nat -> Tx, others: nat -> nat -> seq<Insert>)
    returns (failed: bool, deleted: nat, skipped: nat, ghost run: Run)
    requires db.Valid() && db.history == []
    modifies db
    ensures failed ==> (exists i: nat :: listing(i)) || !canRead || !sleeps || (exists i: nat :: cancelled(i))
                       || (exists i: nat :: !sweeps(i).Committed?)
    // the listing
    ensures Grew(old(db.all), old(db.next), db.all) && (forall u | u in run.found :: u.id in ids)
    ensures AllListed(db.all, old(db.rows), old(db.next), run.found, run.seen, run.listed)
    ensures !failed ==> AllFound(old(db.rows), ids, run.found)
    // the deletions
    ensures run.tried <= ReadyOf(run.found, answers)
    ensures run.tried != [] ==>
              var waits := exists u :: u in ReadyOf(run.found, answers) && u.conns != [];
              OnlyRemovals(AllAsks(run.found, answers) + if waits then [Paused(settle, true)] else [], db.history)
    ensures run.tried != [] ==> forall c :: Destroyed(db.history, c) <==> AskedAccepted(run.found, answers, c)
    ensures db.Since(old(db.rows), old(db.next), GoneOf(run.tried, txs))
    ensures db.Since(run.before, run.since, GoneOf(run.tried, txs))
    ensures run.tried != [] ==> run.listed == old(db.next) + Total(others(0), |ids|)
                                && New(others(1)(0), run.listed) <= run.before
    ensures DestroyedIfListed(db.all, db.rows, old(db.rows), old(db.next), run.found, run.seen, db.history)
    // of each user whose transaction took effect, no row that was there is left
    ensures forall k, r | 0 <= k < |run.tried| && !txs(k).RolledBack? && r in run.before && r in db.rows ::
              var u := run.tried[k];
              && (r.table in {UserTable, Pref, WebPush, Connection} ==> r.user != u.id)
              && (r.table in {Log, Private} ==> r.conn !in u.conns)
              && (r.table == Seen ==> r.user != u.id && r.conn !in u.conns)
    // and no other row is missing
    ensures forall r | r in db.all && r !in db.rows && (r in old(db.rows) || r.id >= old(db.next)) ::
              exists k :: 0 <= k < |run.tried| && !txs(k).RolledBack? &&
                          var u := run.tried[k];
                          || (r.table in {UserTable, Pref, WebPush, Connection} && r.user == u.id)
                          || (r.table in {Log, Private} && r.conn in u.conns)
                          || (r.table == Seen && (r.user == u.id || r.conn in u.conns))
    ensures !failed ==> run.tried == ReadyOf(run.found, answers)
    ensures !failed ==> deleted + skipped == |ids| && deleted == |DoneOf(run.tried, txs)|
    // the sweep
    ensures old(db.next) <= run.since <= run.late + 1
    ensures !failed ==> forall u | u in DoneOf(run.tried, txs) :: OnlyLater(db.rows, run.late, u)
    ensures SweepsLeaveAll([], db.history)
  {
    hide OnlyGone, AllGone, GoneOf, DoneOf, ReadyOf, AllAsks, Prelude, OnlyLater, ListedAs, New, AllFound,
      DestroyedIfListed;
    hide Destroyed, SweepsLeaveAll, Matching, Total, AskedAccepted;
    ghost var was, from, all := db.rows, db.next, db.all;
    failed, deleted, skipped := true, 0, 0;
    var broke, ready, refused, last;
    ghost var found, seen, listed;
    broke, ready, refused, last, found, seen,
    listed := Prepare(db, ids, settle, listing, canRead, answers, sleeps, others);
    ghost var allThen, before, since, asked := db.all, db.rows, db.next, db.history;
    run := Run(found, seen, listed, before, since, [], since - 1);
    NoneYet([], answers, txs);
    NoneGone(db.all, db.rows, db.next);
    NobodyDeleted(db.all, db.rows, was, from, found, seen, db.history);
    NoOthers(db.all, db.rows, was, from, [], txs);
    if broke { return; }

    var done, lost;
    ghost var tried, late;
    failed, done, lost, tried, late := DeleteAndSweep(db, ready, last, cancelled, txs, sweeps, others(2), others(3));
    run := Run(found, seen, listed, before, since, tried, late);
    GrewOn(all, from, allThen, since, db.all);
    SinceTheStart(allThen, db.all, db.rows, was, from, before, since, GoneOf(tried, txs));
    ListingStays(allThen, since, db.all, was, from, found, seen, listed, listed);
    SweepsSince([], asked, db.history);
    PreludeIs(found, answers, settle);
    DestroyedAreAsked(found, answers, settle, db.history);
    AllOfThem(db.rows, before, tried, txs);
    NoOthers(db.all, db.rows, was, from, tried, txs);
    DeletedWereDestroyed(db.all, db.rows, was, from, found, seen, listed, answers, settle, tried, txs, db.history);
    if !failed { deleted, skipped := |done|, refused + lost; }
  }

  /** The rest of it: a transaction for each ready user, and a sweep for each deleted. */
  method DeleteAndSweep(db: Database, ready: seq<Found>, last: nat, cancelled: nat -> bool, txs: nat -> Tx,
                        sweeps: nat -> Tx,
                        deleting: nat -> seq<Insert>, sweeping: nat -> seq<Insert>)
    returns (failed: bool, done: seq<Found>, lost: nat, ghost tried: seq<Found>, ghost late: nat)
    requires db.Valid() && db.next > last
    modifies db
    ensures tried <= ready && done == DoneOf(tried, txs)
    ensures db.Since(old(db.rows), old(db.next), GoneOf(tried, txs))
    ensures OnlyRemovals(old(db.history), db.history) && SweepsLeaveAll(old(db.history), db.history)
    ensures Grew(old(db.all), old(db.next), db.all) && old(db.next) <= late + 1
    ensures failed ==> (exists i: nat :: cancelled(i)) || (exists i: nat :: !sweeps(i).Committed?)
    ensures !failed ==> tried == ready && |done| + lost == |ready| && forall u | u in done ::
                          OnlyLater(db.rows, late, u)
  {
    hide OnlyGone, AllGone, GoneOf, DoneOf, OnlyLater, SweepsLeaveAll, Matching, Grew;
    ghost var was, from, all, h0 := db.rows, db.next, db.all, db.history;
    NoneGone(db.all, db.rows, db.next);
    var n;
    done, lost, n := DeleteReady(db, ready, txs, cancelled, deleting, last, was, from);
    tried, late := ready[..n], db.next - 1;
    if n < |ready| { return true, done, lost, tried, late; }
    ghost var allThen, next, h1 := db.all, db.next, db.history;
    failed := SweepUsers(db, done, sweeps, sweeping, last, tried, txs, was, from);
    GrewOn(all, from, allThen, next, db.all);
    SweepsSince(h0, h1, db.history);
  }

  lemma GrewOn(all: set<Row>, from: nat, more: set<Row>, next: nat, most: set<Row>)
    requires Grew(all, from, more) && Grew(more, next, most) && from <= next
    ensures Grew(all, from, most)
  {}

  lemma SweepsSince(h: seq<Event>, h': seq<Event>, h'': seq<Event>)
    requires SweepsLeaveAll(h, h') && SweepsLeaveAll(h', h'') && h' <= h''
    ensures SweepsLeaveAll(h, h'')
  {}

  lemma NobodyDeleted(all: set<Row>, rows: set<Row>, was: set<Row>, from: nat, found: seq<Found>, seen: seq<nat>,
                      history: seq<Event>)
    requires OnlyGone(all, rows, was, from, {}) && |seen| == |found|
    ensures DestroyedIfListed(all, rows, was, from, found, seen, history)
  {
    NothingMissing(all, rows, was, from);
  }

  // ---- a connection added after the listing ----

  const ANN: Row := Row(UserTable, 1, "ann", "")

  /** ann's connection, added between the listing and the first destroy. */
  function AddOne(i: nat): nat -> seq<Insert> {
    (j: nat) => if i == 1 && j == 0 then [Insert(Connection, "ann", "c")] else []
  }

  /** A run that deletes a connection without ever having destroyed it. */
  method AddedAfterListing() returns (db: Database, deleted: nat, ghost r: Row)
    ensures fresh(db) && deleted == 1
    ensures r in db.all && r !in db.rows && r.table == Connection && r.user == "ann" && !Destroyed(db.history, r.conn)
  {
    hide OnlyGone, AllGone, GoneOf, DoneOf, ReadyOf, Prelude, OnlyRemovals, OnlyLater, AllListed, AllFound,
      DestroyedIfListed, Destroyed;
    hide SweepsLeaveAll, Total, New, Grew, AddOne;
    db := new Database({ANN}, 2);
    var accepted := (_: nat) => (_: nat) => Status(200);
    var never, commits := (_: nat) => false, (_: nat) => Committed;
    var failed, skipped;
    ghost var run;
    failed, deleted, skipped,
    run := DeleteUsers(db, ["ann"], 5, never, true, accepted, true, never, commits, commits, AddOne);
    r := Row(Connection, run.listed, "ann", "c");
    PreludeIs(run.found, accepted, 5);
    DeletedNotDestroyed(db.all, db.rows, run, accepted, commits, db.history);
  }

  lemma DeletedNotDestroyed(all: set<Row>, rows: set<Row>, run: Run, answers: nat -> nat -> Answer, txs: nat -> Tx,
                            history: seq<Event>)
    requires AllListed(all, {ANN}, 2, run.found, run.seen, run.listed) && AllFound({ANN}, ["ann"], run.found)
    requires forall i: nat, j: nat :: answers(i)(j) == Status(200)
    requires forall i: nat :: txs(i) == Committed
    requires run.tried == ReadyOf(run.found, answers) && AllGone(rows, run.before, GoneOf(run.tried, txs))
    requires OnlyGone(all, rows, run.before, run.since, GoneOf(run.tried, txs))
    requires run.tried != [] ==> run.listed == 2 + Total(AddOne(0), 1) && New(AddOne(1)(0), run.listed) <= run.before
    requires run.tried != [] ==> OnlyRemovals(Prelude(run.found, answers, 5), history)
    ensures var r := Row(Connection, run.listed, "ann", "c");
            && r in all && r !in rows && !Destroyed(history, "c")
            && |DoneOf(run.tried, txs)| >= 1
  {
    hide AllGone, GoneOf, DoneOf, ReadyOf, AllAsks, Prelude, ListedAs, Destroyed, Total, New, OnlyRemovals;
    assert IsUser({ANN}, "ann") by { assert ANN in {ANN}; }
    assert "ann" in ["ann"];
    var u :| u in run.found && u.id == "ann";
    AllReady(run.found, answers);
    AllDone(run.tried, txs);
    AllGoneToo(run.tried, txs, u);
    NoneInserted(1);
    OneInserted(run.listed);
    WasDeleted(rows, run.before, GoneOf(run.tried, txs), u, Row(Connection, run.listed, "ann", "c"));
    HistoryDestroys(run.found, answers, 5, history, "c");
    NeverAsked(all, run.found, run.seen, run.listed, answers);
  }

  lemma {:induction false} AllDone(ready: seq<Found>, txs: nat -> Tx)
    requires forall i: nat :: txs(i) == Committed
    ensures |DoneOf(ready, txs)| == |ready|
  {
    if ready != [] { AllDone(ready[..|ready| - 1], txs); }
  }

  lemma {:induction false} AllReady(found: seq<Found>, answers: nat -> nat -> Answer)
    requires forall i: nat, j: nat :: answers(i)(j) == Status(200)
    ensures ReadyOf(found, answers) == found
  {
    if found != [] {
      AllReady(found[..|found| - 1], answers);
      assert found == found[..|found| - 1] + [found[|found| - 1]];
    }
  }

  lemma {:induction false} AllGoneToo(ready: seq<Found>, txs: nat -> Tx, u: Found)
    requires u in ready && forall i: nat :: txs(i) == Committed
    ensures VictimOf(u) in GoneOf(ready, txs)
  {
    var n := |ready| - 1;
    if u in ready[..n] { AllGoneToo(ready[..n], txs, u); }
  }

  lemma {:induction false} NoneInserted(n: nat)
    ensures Total(AddOne(0), n) == 0
  {
    if n > 0 { NoneInserted(n - 1); }
  }

  lemma OneInserted(next: nat)
    ensures Row(Connection, next, "ann", "c") in New(AddOne(1)(0), next)
  {
    assert AddOne(1)(0)[0] == Insert(Connection, "ann", "c");
  }

  lemma WasDeleted(rows: set<Row>, before: set<Row>, gone: set<Victim>, u: Found, r: Row)
    requires AllGone(rows, before, gone) && VictimOf(u) in gone && r in before && r.table == Connection
             && r.user == u.id
    ensures r !in rows
  {
    assert Covers(VictimOf(u), r);
  }

  /** Nothing listed then had a connection, so nothing was asked about. */
  lemma NeverAsked(all: set<Row>, found: seq<Found>, seen: seq<nat>, listed: nat, answers: nat -> nat -> Answer)
    requires AllListed(all, {ANN}, 2, found, seen, listed) && listed == 2
    ensures !Destroyed(AllAsks(found, answers), "c")
  {
    hide AllAsks, Destroyed, ListedAs;
    DestroyedIffAsked(found, answers, "c");
    forall k: nat, m: nat
      ensures !AcceptedAt(found, answers, "c", k, m)
    {
      if k < |found| { NoConnections(all, found[k], seen[k]); }
    }
  }

  lemma NoConnections(all: set<Row>, u: Found, at: nat)
    requires ListedAs(all, {ANN}, 2, u, at) && at <= 2
    ensures u.conns == []
  {
    forall c
      ensures c !in u.conns
    {
      NoneHad(all, u.id, c, at);
    }
    NoElements(u.conns);
  }

  lemma NoneHad(all: set<Row>, id: string, c: string, at: nat)
    requires at <= 2
    ensures !HadConnection(all, {ANN}, 2, id, c, at)
  {}

  lemma FirstIsIn(s: seq<string>)
    ensures s == [] || s[0] in s
  {}

  lemma NoElements(s: seq<string>)
    requires forall c :: c !in s
    ensures s == []
  {
    FirstIsIn(s);
  }
}
