/** destroyAndDelete and deleteUsers against a database that keeps growing while
    they run: what they delete, for whom, and what a late sweep still has to see. */
module Deletion {
  import opened Wrappers

  datatype Table = Log | Seen | Private | Pref | WebPush | Connection | UserTable

  /** A row: its serial id, and the user and connection it belongs to. A
      connection's own row has its id as `conn`, a user's its id as `user`. */
  datatype Row = Row(table: Table, id: nat, user: string, conn: string)

  /** What another process inserts. */
  datatype Insert = Insert(table: Table, user: string, conn: string)

  /** How liercd answers a destroy. */
  datatype Answer = Status(code: int) | NoReply

  /** How a transaction ends: an error can hide a commit that took effect. */
  datatype Tx = Committed | RolledBack | ReplyLost

  datatype Event =
    | Asked(conn: string, answer: Answer)
    | Paused(seconds: nat, finished: bool)
    | Removed(rows: set<Row>)
    | Swept(conns: set<string>, before: set<Row>, after: set<Row>)

  /** destroy's verdict: 200 or 404 will do. */
  predicate Accepts(a: Answer) {
    a.Status? && (a.code == 200 || a.code == 404)
  }

  /** What one deletion is for: a connection's rows, or a user's
      rows and those of the connections they were listed with. */
  datatype Victim =
    | OfConnection(conn: string)
    | OfUser(id: string, conns: set<string>)

  const CONNECTION_TABLES: set<Table> := {Log, Seen, Private, Connection}

  predicate Covers(v: Victim, r: Row) {
    match v
    case OfConnection(c) => r.table in CONNECTION_TABLES && r.conn == c
    case OfUser(id, conns) =>
      match r.table
      case Log => r.conn in conns
      case Private => r.conn in conns
      case Seen => r.user == id || r.conn in conns
      case _ => r.user == id
  }

  predicate AnyCovers(vs: set<Victim>, r: Row) {
    exists v :: v in vs && Covers(v, r)
  }

  function Matching(rows: set<Row>, vs: set<Victim>): set<Row> {
    set r | r in rows && AnyCovers(vs, r)
  }

  function Elements(s: seq<string>): (t: set<string>)
    ensures forall c :: c in t <==> c in s
  {
    set c | c in s
  }

  /** destroyAndDelete's ready list: the ids whose destroy was accepted, in order. */
  function Accepted(ids: seq<string>, answers: seq<Answer>): seq<string>
    requires |ids| == |answers|
  {
    if ids == [] then []
    else Accepted(ids[..|ids| - 1], answers[..|ids| - 1]) + if Accepts(answers[|ids| - 1]) then [ids[|ids| - 1]] else []
  }

  function Asks(ids: seq<string>, answers: seq<Answer>): seq<Event>
    requires |ids| == |answers|
  {
    if ids == [] then []
    else Asks(ids[..|ids| - 1], answers[..|ids| - 1]) + [Asked(ids[|ids| - 1], answers[|ids| - 1])]
  }

  /** Everything ready was asked about and accepted; nothing else was accepted. */
  lemma {:induction false} AcceptedIff(ids: seq<string>, answers: seq<Answer>, c: string)
    requires |ids| == |answers|
    ensures c in Accepted(ids, answers)
       <==> exists k :: 0 <= k < |ids| && ids[k] == c && (answers[k] == Status(200) || answers[k] == Status(404))
  {
    if ids != [] {
      var n := |ids| - 1;
      AcceptedIff(ids[..n], answers[..n], c);
      if c in Accepted(ids[..n], answers[..n]) {
        var k :| 0 <= k < n && ids[..n][k] == c && Accepts(answers[..n][k]);
        assert ids[k] == c && Accepts(answers[k]);
      }
      if k :| 0 <= k < |ids| && ids[k] == c && Accepts(answers[k]) {
        if k < n { assert ids[..n][k] == c && Accepts(answers[..n][k]); }
      }
    }
  }

  // ---- what is missing, and what is left ----

  /** Of the rows there at the start or inserted since (from serial id `from` on),
      only rows of these victims are missing. */
  ghost predicate OnlyGone(all: set<Row>, rows: set<Row>, was: set<Row>, from: nat, gone: set<Victim>) {
    was <= all && forall r | r in all && r !in rows && (r in was || r.id >= from) :: AnyCovers(gone, r)
  }

  /** No row of these victims that was there at the start is left. */
  ghost predicate AllGone(rows: set<Row>, was: set<Row>, gone: set<Victim>) {
    Matching(rows, gone) !! was
  }

  /** The rows these inserts make, the first with this serial id. */
  function New(inserts: seq<Insert>, next: nat): set<Row> {
    set k | 0 <= k < |inserts| :: Row(inserts[k].table, next + k, inserts[k].user, inserts[k].conn)
  }

  /** Every row that came since has a later serial id. */
  ghost predicate Grew(was: set<Row>, from: nat, all: set<Row>) {
    was <= all && forall r | r in all && r !in was :: r.id >= from
  }

  lemma NewNone(inserts: seq<Insert>, next: nat)
    ensures New(inserts[..0], next) == {}
  {}

  lemma NewOne(inserts: seq<Insert>, next: nat, n: nat)
    requires n < |inserts|
    ensures New(inserts[..n + 1], next)
         == New(inserts[..n], next) + {Row(inserts[n].table, next + n, inserts[n].user, inserts[n].conn)}
  {
    var more, row := New(inserts[..n + 1], next), Row(inserts[n].table, next + n, inserts[n].user, inserts[n].conn);
    assert inserts[..n + 1][n] == inserts[n];
    assert forall k | 0 <= k < n :: inserts[..n + 1][k] == inserts[..n][k];
    assert forall r :: r in New(inserts[..n], next) ==> r in more;
    assert row in more;
  }

  lemma NoneGone(all: set<Row>, rows: set<Row>, from: nat)
    requires rows <= all && forall r | r in all :: r.id < from
    ensures OnlyGone(all, rows, rows, from, {}) && AllGone(rows, rows, {})
  {}

  lemma OneMore(all: set<Row>, rows: set<Row>, was: set<Row>, from: nat, gone: set<Victim>, r: Row)
    requires OnlyGone(all, rows, was, from, gone) && AllGone(rows, was, gone) && r !in was
    ensures OnlyGone(all + {r}, rows + {r}, was, from, gone) && AllGone(rows + {r}, was, gone)
  {
    assert Matching(rows + {r}, gone) <= Matching(rows, gone) + {r};
  }

  lemma MatchingOne(rows: set<Row>, v: Victim)
    ensures forall r :: r in Matching(rows, {v}) <==> r in rows && Covers(v, r)
  {
    forall r | r in rows && Covers(v, r)
      ensures AnyCovers({v}, r)
    {
      assert v in {v};
    }
  }

  lemma OneGone(all: set<Row>, rows: set<Row>, was: set<Row>, from: nat, gone: set<Victim>, v: Victim)
    requires OnlyGone(all, rows, was, from, gone) && AllGone(rows, was, gone)
    ensures OnlyGone(all, rows - Matching(rows, {v}), was, from, gone + {v})
    ensures AllGone(rows - Matching(rows, {v}), was, gone + {v})
  {
    var left := rows - Matching(rows, {v});
    forall r | r in Matching(left, gone + {v})
      ensures r !in was
    {
      MatchingOne(rows, v);
      assert r in Matching(rows, gone);
    }
  }

  // ---- the late sweep ----

  function LogRows(rows: set<Row>, conns: set<string>): set<Row> {
    set r | r in rows && r.table == Log && r.conn in conns
  }

  function SweepAll(rows: set<Row>, conns: set<string>): set<Row> {
    rows - LogRows(rows, conns)
  }

  function SweepNewer(rows: set<Row>, last: nat, conns: set<string>): set<Row> {
    rows - set r | r in LogRows(rows, conns) && r.id > last
  }

  /** Sweeping only above `last` does what sweeping everything does exactly when
      whatever log is left of these connections came after it. */
  lemma SweepsAgreeIff(rows: set<Row>, last: nat, conns: set<string>)
    ensures SweepNewer(rows, last, conns) == SweepAll(rows, conns)
       <==> forall r | r in LogRows(rows, conns) :: r.id > last
  {
    if SweepNewer(rows, last, conns) == SweepAll(rows, conns) {
      forall r | r in LogRows(rows, conns)
        ensures r.id > last
      {
        assert r !in SweepAll(rows, conns);
      }
    }
  }

  /** A sweep takes log rows of connections already deleted, and no others. */
  lemma SweepTakesLog(all: set<Row>, rows: set<Row>, fewer: set<Row>, was: set<Row>, from: nat, gone: set<Victim>,
                      conns: set<string>)
    requires OnlyGone(all, rows, was, from, gone) && AllGone(rows, was, gone)
    requires fewer <= rows && rows - fewer <= LogRows(rows, conns)
    requires forall c | c in conns :: exists v :: v in gone && CoversLog(v, c)
    ensures OnlyGone(all, fewer, was, from, gone) && AllGone(fewer, was, gone)
  {
    forall r | r in all && r !in fewer && (r in was || r.id >= from)
      ensures AnyCovers(gone, r)
    {
      if r in rows {
        assert r in LogRows(rows, conns);
        var v :| v in gone && CoversLog(v, r.conn);
        assert Covers(v, r);
      }
    }
    assert Matching(fewer, gone) <= Matching(rows, gone);
  }

  predicate CoversLog(v: Victim, c: string) {
    match v
    case OfConnection(conn) => conn == c
    case OfUser(_, conns) => c in conns
  }

  // ---- the command ----

  /** The connections whose transaction was seen to commit. */
  function SeenDone(ready: seq<string>, txs: nat -> Tx): seq<string> {
    if ready == [] then []
    else SeenDone(ready[..|ready| - 1], txs) + if txs(|ready| - 1).Committed? then [ready[|ready| - 1]] else []
  }

  /** Those whose transaction took effect, seen or not. */
  function Took(ready: seq<string>, txs: nat -> Tx): set<string> {
    if ready == [] then {}
    else Took(ready[..|ready| - 1], txs) + if txs(|ready| - 1).RolledBack? then {} else {ready[|ready| - 1]}
  }

  lemma {:induction false} SeenTook(ready: seq<string>, txs: nat -> Tx)
    ensures Elements(SeenDone(ready, txs)) <= Took(ready, txs) <= Elements(ready)
  {
    if ready != [] {
      var front := ready[..|ready| - 1];
      SeenTook(front, txs);
      assert Elements(front) <= Elements(ready);
    }
  }

  function Victims(conns: set<string>): set<Victim> {
    set c | c in conns :: OfConnection(c)
  }

  function Later(others: nat -> seq<Insert>): nat -> seq<Insert> {
    (k: nat) => others(k + 1)
  }

  /** The database. Ghost: every row it has ever held, and what the command did. */
  class Database {
    var rows: set<Row>
    var next: nat
    ghost var all: set<Row>
    ghost var history: seq<Event>

    ghost predicate Valid()
      reads this
    {
      rows <= all && next > 0 && forall r | r in all :: r.id < next
    }

    constructor (rows: set<Row>, next: nat)
      requires next > 0 && forall r | r in rows :: r.id < next
      ensures Valid() && this.rows == rows && this.next == next && history == []
    {
      this.rows, this.next, this.all, this.history := rows, next, rows, [];
    }

    /** What is missing and what is left, since a start with these rows. */
    ghost predicate Since(was: set<Row>, from: nat, gone: set<Victim>)
      reads this
    {
      && Valid() && next >= from && (forall r | r in was :: r.id < from)
      && OnlyGone(all, rows, was, from, gone) && AllGone(rows, was, gone)
    }

    /** Another process's inserts: each gets the next serial id. */
    method Others(inserts: seq<Insert>, ghost was: set<Row>, ghost from: nat, ghost gone: set<Victim>)
      requires Since(was, from, gone)
      modifies this`rows, this`next, this`all
      ensures Since(was, from, gone) && next == old(next) + |inserts|
      ensures rows == old(rows) + New(inserts, old(next)) && all == old(all) + New(inserts, old(next))
      ensures Grew(old(rows), old(next), rows) && Grew(old(all), old(next), all)
    {
      hide OnlyGone, AllGone, New;
      NewNone(inserts, next);
      for i := 0 to |inserts|
        invariant Since(was, from, gone) && next == old(next) + i
        invariant rows == old(rows) + New(inserts[..i], old(next)) && all == old(all) + New(inserts[..i], old(next))
        invariant Grew(old(rows), old(next), rows) && Grew(old(all), old(next), all)
      {
        var r := Row(inserts[i].table, next, inserts[i].user, inserts[i].conn);
        OneMore(all, rows, was, from, gone, r);
        NewOne(inserts, old(next), i);
        rows, all, next := rows + {r}, all + {r}, next + 1;
      }
      assert inserts[..|inserts|] == inserts;
    }

    /** destroy: "" becomes true. */
    method Destroy(conn: string, answer: Answer) returns (ok: bool)
      modifies this`history
      ensures ok <==> answer == Status(200) || answer == Status(404)
      ensures history == old(history) + [Asked(conn, answer)]
    {
      history := history + [Asked(conn, answer)];
      ok := answer.Status? && (answer.code == 200 || answer.code == 404);
    }

    /** env.Sleep, which fails when the command is cancelled. */
    method Sleep(seconds: nat, finishes: bool) returns (ok: bool)
      modifies this`history
      ensures ok == finishes && history == old(history) + [Paused(seconds, ok)]
    {
      history := history + [Paused(seconds, finishes)];
      ok := finishes;
    }

    /** One transaction deleting a victim's rows. */
    method Delete(v: Victim, tx: Tx) returns (ok: bool)
      modifies this`rows, this`history
      ensures ok == tx.Committed?
      ensures rows == if tx.RolledBack? then old(rows) else old(rows) - Matching(old(rows), {v})
      ensures history == if tx.RolledBack? then old(history) else old(history) + [Removed(Matching(old(rows), {v}))]
    {
      ok := tx.Committed?;
      if !tx.RolledBack? {
        history := history + [Removed(Matching(rows, {v}))];
        rows := rows - Matching(rows, {v});
      }
    }

    /** destroyAndDelete's first loop. */
    method DestroyAll(ids: seq<string>, answers: seq<Answer>) returns (ready: seq<string>, skipped: nat)
      requires |ids| == |answers|
      modifies this`history
      ensures ready == Accepted(ids, answers) && |ready| + skipped == |ids|
      ensures history == old(history) + Asks(ids, answers)
    {
      ready, skipped := [], 0;
      for i := 0 to |ids|
        invariant ready == Accepted(ids[..i], answers[..i]) && |ready| + skipped == i
        invariant history == old(history) + Asks(ids[..i], answers[..i])
      {
        assert ids[..i + 1][..i] == ids[..i] && answers[..i + 1][..i] == answers[..i];
        var ok := Destroy(ids[i], answers[i]);
        if !ok {
          skipped := skipped + 1;
          continue;
        }
        ready := ready + [ids[i]];
      }
      assert ids[..|ids|] == ids && answers[..|ids|] == answers;
    }

    /** Its second: a transaction per connection, until the command is cancelled. */
    method DeleteEach(ready: seq<string>, txs: nat -> Tx, cancelled: nat -> bool, others: nat -> seq<Insert>,
                      ghost was: set<Row>, ghost from: nat)
      returns (done: seq<string>, skipped: nat, tried: nat)
      requires Since(was, from, {})
      modifies this
      ensures tried <= |ready| && (tried < |ready| ==> cancelled(tried)) && (forall k | 0 <= k < tried :: !cancelled(k))
      ensures done == SeenDone(ready[..tried], txs) && |done| + skipped == tried
      ensures Since(was, from, Victims(Took(ready[..tried], txs)))
      ensures OnlyRemovals(old(history), history)
    {
      hide OnlyGone, AllGone, Took, SeenDone, Matching;
      done, skipped, tried := [], 0, 0;
      TookNone(ready, txs);
      while tried < |ready| && !cancelled(tried)
        invariant tried <= |ready| && (forall k | 0 <= k < tried :: !cancelled(k))
        invariant done == SeenDone(ready[..tried], txs) && |done| + skipped == tried
        invariant Since(was, from, Victims(Took(ready[..tried], txs)))
        invariant OnlyRemovals(old(history), history)
      {
        ghost var gone := Victims(Took(ready[..tried], txs));
        Others(others(tried), was, from, gone);
        var v := OfConnection(ready[tried]);
        OneGone(all, rows, was, from, gone, v);
        var ok := Delete(v, txs(tried));
        TookNext(ready, txs, tried);
        assert gone + {} == gone;
        if ok { done := done + [ready[tried]]; } else { skipped := skipped + 1; }
        tried := tried + 1;
      }
    }

    /** A sweep of the log; `took` says whether it took effect. */
    method Sweep(conns: set<string>, last: Option<nat>, took: bool)
      modifies this`rows, this`history
      ensures rows == if !took then old(rows) else if last.None? then SweepAll(old(rows), conns)
                      else SweepNewer(old(rows), last.value, conns)
      ensures history == if took then old(history) + [Swept(conns, old(rows), rows)] else old(history)
    {
      if took {
        var late := set r | r in rows && r.table == Log && r.conn in conns && (last.None? || r.id > last.value);
        history := history + [Swept(conns, rows, rows - late)];
        rows := rows - late;
      }
    }

    /** destroyAndDelete. Nothing is deleted but rows of connections whose destroy
        was accepted and whose transaction took effect, after every destroy and a
        finished settling time; of those, all that was there when it began is. */
    method DestroyAndDelete(ids: seq<string>, answers: seq<Answer>, settle: nat, sleeps: bool, txs: nat -> Tx,
                            cancelled: nat -> bool,
                            sweep: Tx, others: nat -> seq<Insert>)
      returns (deleted: nat, skipped: nat, failed: bool, ghost tried: seq<string>)
      requires Valid() && |ids| == |answers|
      modifies this
      ensures tried <= Accepted(ids, answers)
      ensures Since(old(rows), old(next), Victims(Took(tried, txs)))
      ensures !failed ==> deleted + skipped == |ids| && tried == Accepted(ids, answers)
      ensures deleted == |SeenDone(tried, txs)|
      ensures !failed ==> LogRows(rows, Elements(SeenDone(tried, txs))) == {}
      ensures var asked := old(history) + Asks(ids, answers);
              history == asked || history == asked + [Paused(settle, false)]
              || OnlyRemovals(asked + [Paused(settle, true)], history)
      ensures (Accepted(ids, answers) != [] && !sleeps) ==> failed && rows >= old(rows)
      ensures failed ==> !sleeps || (exists k: nat :: cancelled(k)) || !sweep.Committed?
      // of each connection whose transaction took effect, no row that was there is left
      ensures forall k, r | 0 <= k < |tried| && !txs(k).RolledBack? && r in old(rows) && r.conn == tried[k] ::
                r.table in {Log, Seen, Private, Connection} ==> r !in rows
      // and no other row is missing
      ensures forall r | r in all && r !in rows && (r in old(rows) || r.id >= old(next)) ::
                && r.table in {Log, Seen, Private, Connection}
                && exists k :: 0 <= k < |tried| && !txs(k).RolledBack? && r.conn == tried[k]
    {
      hide OnlyGone, AllGone, Took, SeenDone, Matching, Accepted, Asks;
      ghost var was, from := rows, next;
      NoneGone(all, rows, next);
      TookNone(ids, txs);
      tried, failed := [], true;
      var ready, refused := DestroyAll(ids, answers);
      TookNone(ready, txs);
      WhatIsGone(all, rows, was, from, [], txs);
      if |ready| == 0 { return 0, refused, false, []; }
      Others(others(0), was, from, {});
      WhatIsGone(all, rows, was, from, [], txs);
      var slept := Sleep(settle, sleeps);
      if !slept { return 0, refused, true, []; }

      var done, lost, n := DeleteEach(ready, txs, cancelled, Later(others), was, from);
      deleted, skipped, tried := |done|, refused + lost, ready[..n];
      WhatIsGone(all, rows, was, from, tried, txs);
      if n < |ready| { return; }
      ghost var gone := Victims(Took(tried, txs));
      Others(others(n + 1), was, from, gone);
      if |done| > 0 {
        SeenTook(tried, txs);
        SweepKeeps(all, rows, was, from, Took(tried, txs), Elements(done));
        Sweep(Elements(done), None, !sweep.RolledBack?);
        WhatIsGone(all, rows, was, from, tried, txs);
        if !sweep.Committed? { return; }
      }
      WhatIsGone(all, rows, was, from, tried, txs);
      failed := false;
    }
  }

  /** In plain terms: of each connection whose transaction took effect, no row that was
      there is left, and no other row is missing. */
  lemma WhatIsGone(all: set<Row>, rows: set<Row>, was: set<Row>, from: nat, tried: seq<string>, txs: nat -> Tx)
    requires OnlyGone(all, rows, was, from, Victims(Took(tried, txs))) && AllGone(rows, was, Victims(Took(tried, txs)))
    ensures forall k, r | 0 <= k < |tried| && !txs(k).RolledBack? && r in was && r.conn == tried[k] ::
              r.table in {Log, Seen, Private, Connection} ==> r !in rows
    ensures forall r | r in all && r !in rows && (r in was || r.id >= from) ::
              && r.table in {Log, Seen, Private, Connection}
              && exists k :: 0 <= k < |tried| && !txs(k).RolledBack? && r.conn == tried[k]
  {
    hide Took;
    forall k, r | 0 <= k < |tried| && !txs(k).RolledBack? && r in was && r.conn == tried[k]
      ensures r.table in {Log, Seen, Private, Connection} ==> r !in rows
    {
      TookIff(tried, txs, r.conn);
      assert OfConnection(r.conn) in Victims(Took(tried, txs));
      if r.table in {Log, Seen, Private, Connection} { assert Covers(OfConnection(r.conn), r); }
    }
    forall r | r in all && r !in rows && (r in was || r.id >= from)
      ensures r.table in {Log, Seen, Private, Connection}
      ensures exists k :: 0 <= k < |tried| && !txs(k).RolledBack? && r.conn == tried[k]
    {
      var v :| v in Victims(Took(tried, txs)) && Covers(v, r);
      TookIff(tried, txs, r.conn);
    }
  }

  lemma {:induction false} TookIff(ready: seq<string>, txs: nat -> Tx, c: string)
    ensures c in Took(ready, txs) <==> exists k :: 0 <= k < |ready| && !txs(k).RolledBack? && ready[k] == c
    ensures c in SeenDone(ready, txs) <==> exists k :: 0 <= k < |ready| && txs(k).Committed? && ready[k] == c
  {
    if ready != [] {
      var n := |ready| - 1;
      TookIff(ready[..n], txs, c);
      assert forall k :: 0 <= k < n ==> ready[..n][k] == ready[k];
    }
  }

  /** A commit whose answer is lost: the command says that it deleted nothing and
      skipped one connection, but its rows are gone. */
  method LostReply() returns (db: Database, deleted: nat, skipped: nat, failed: bool)
    ensures fresh(db) && deleted == 0 && skipped == 1 && !failed
    ensures Row(Connection, 1, "ann", "c") in db.all && Row(Connection, 1, "ann", "c") !in db.rows
  {
    var row := Row(Connection, 1, "ann", "c");
    db := new Database({row}, 2);
    ghost var was := db.rows;
    var answers := [Status(200)];
    var lost := _ => ReplyLost;
    ghost var tried;
    deleted, skipped, failed,
    tried := db.DestroyAndDelete(["c"], answers, 5, true, lost, _ => false, Committed, _ => []);
    OnlyOne("c", answers, lost);
    assert OfConnection("c") in Victims(Took(tried, lost));
    assert row in was && AllGone(db.rows, was, Victims(Took(tried, lost)));
    assert Covers(OfConnection("c"), row);
  }

  lemma OnlyOne(c: string, answers: seq<Answer>, txs: nat -> Tx)
    requires answers == [Status(200)] && txs(0) == ReplyLost
    ensures Accepted([c], answers) == [c]
    ensures Took([c], txs) == {c} && SeenDone([c], txs) == []
  {
    assert [c][..0] == [] && answers[..0] == [];
    assert Took([], txs) == {} && SeenDone([], txs) == [];
  }

  lemma SweepKeeps(all: set<Row>, rows: set<Row>, was: set<Row>, from: nat, took: set<string>, conns: set<string>)
    requires OnlyGone(all, rows, was, from, Victims(took)) && AllGone(rows, was, Victims(took)) && conns <= took
    ensures OnlyGone(all, SweepAll(rows, conns), was, from, Victims(took))
            && AllGone(SweepAll(rows, conns), was, Victims(took))
  {
    hide OnlyGone, AllGone;
    forall c | c in conns
      ensures exists v :: v in Victims(took) && CoversLog(v, c)
    {
      assert OfConnection(c) in Victims(took) && CoversLog(OfConnection(c), c);
    }
    SweepTakesLog(all, rows, SweepAll(rows, conns), was, from, Victims(took), conns);
  }

  /** A history that grew by deletions alone. */
  ghost predicate OnlyRemovals(was: seq<Event>, now: seq<Event>) {
    was <= now && forall k | |was| <= k < |now| :: now[k].Removed? || now[k].Swept?
  }

  lemma TookNone(ready: seq<string>, txs: nat -> Tx)
    ensures ready[..0] == [] && Took([], txs) == {} && SeenDone([], txs) == [] && Victims({}) == {}
  {}

  lemma TookNext(ready: seq<string>, txs: nat -> Tx, n: nat)
    requires n < |ready|
    ensures SeenDone(ready[..n + 1], txs) == SeenDone(ready[..n], txs) + if txs(n).Committed? then [ready[n]] else []
    ensures Victims(Took(ready[..n + 1], txs)) == Victims(Took(ready[..n], txs)) + if txs(n).RolledBack? then {}
                                                  else {OfConnection(ready[n])}
  {
    assert ready[..n + 1][..n] == ready[..n];
  }
}
