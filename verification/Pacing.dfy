/** The paced admin loops: moving connections in batches, reviving the ones that
    should be running, and waiting for an instance to come up. */
module Pacing {
  import opened Wrappers
  import opened Arithmetic
  import M = MoveProtocol

  /** What a loop did: acted on connection k, which may have started it, or paused. */
  datatype Event = Acted(k: nat, starts: bool) | Paused

  function Starts(trace: seq<Event>): nat {
    if trace == [] then 0
    else Starts(trace[..|trace| - 1]) + if trace[|trace| - 1].Acted? && trace[|trace| - 1].starts then 1 else 0
  }

  function Pauses(trace: seq<Event>): nat {
    if trace == [] then 0 else Pauses(trace[..|trace| - 1]) + if trace[|trace| - 1].Paused? then 1 else 0
  }

  /** Connections started since the last pause. */
  function SincePause(trace: seq<Event>): nat {
    if trace == [] || trace[|trace| - 1].Paused? then 0
    else SincePause(trace[..|trace| - 1]) + if trace[|trace| - 1].starts then 1 else 0
  }

  /** Never more than a batch between pauses, and no pause before a full batch. */
  ghost predicate Paced(trace: seq<Event>, batch: nat) {
    && (forall n | 0 <= n <= |trace| :: SincePause(trace[..n]) <= batch)
    && (forall n | 0 <= n < |trace| && trace[n].Paused? :: SincePause(trace[..n]) == batch)
  }

  function ActedOn(trace: seq<Event>): seq<nat> {
    if trace == [] then []
    else ActedOn(trace[..|trace| - 1]) + if trace[|trace| - 1].Acted? then [trace[|trace| - 1].k] else []
  }

  /** One more event: what it adds to each count. */
  lemma Added(trace: seq<Event>, e: Event, batch: nat)
    ensures Starts(trace + [e]) == Starts(trace) + if e.Acted? && e.starts then 1 else 0
    ensures Pauses(trace + [e]) == Pauses(trace) + if e.Paused? then 1 else 0
    ensures SincePause(trace + [e]) == if e.Paused? then 0 else SincePause(trace) + if e.starts then 1 else 0
    ensures ActedOn(trace + [e]) == ActedOn(trace) + if e.Acted? then [e.k] else []
    ensures Paced(trace, batch) && SincePause(trace + [e]) <= batch && (e.Paused? ==> SincePause(trace) == batch) ==>
              Paced(trace + [e], batch)
  {
    hide Starts, Pauses, ActedOn;
    var more := trace + [e];
    assert more[..|trace|] == trace;
    AddedCounts(trace, e);
    if Paced(trace, batch) && SincePause(more) <= batch && (e.Paused? ==> SincePause(trace) == batch) {
      forall n | 0 <= n <= |more|
        ensures SincePause(more[..n]) <= batch
        ensures n < |more| && more[n].Paused? ==> SincePause(more[..n]) == batch
      {
        if n <= |trace| { assert more[..n] == trace[..n]; } else { assert more[..n] == more; }
      }
    }
  }

  lemma AddedCounts(trace: seq<Event>, e: Event)
    ensures Starts(trace + [e]) == Starts(trace) + if e.Acted? && e.starts then 1 else 0
    ensures Pauses(trace + [e]) == Pauses(trace) + if e.Paused? then 1 else 0
    ensures SincePause(trace + [e]) == if e.Paused? then 0 else SincePause(trace) + if e.starts then 1 else 0
    ensures ActedOn(trace + [e]) == ActedOn(trace) + if e.Acted? then [e.k] else []
  {
    assert (trace + [e])[..|trace|] == trace;
  }

  lemma Empty(batch: nat)
    ensures Starts([]) == Pauses([]) == SincePause([]) == 0 && ActedOn([]) == [] && Paced([], batch)
  {}

  /** Each pause of a paced loop ends a whole batch. */
  lemma {:induction false} PausesCount(trace: seq<Event>, batch: nat)
    requires Paced(trace, batch)
    ensures Starts(trace) == Pauses(trace) * batch + SincePause(trace)
  {
    if trace != [] {
      var front := trace[..|trace| - 1];
      assert forall n | 0 <= n <= |front| :: front[..n] == trace[..n];
      PausesCount(front, batch);
      assert (Pauses(front) + 1) * batch == Pauses(front) * batch + batch;
    }
  }

  lemma PausesAre(starts: nat, pauses: nat, batch: nat, since: nat)
    requires batch >= 1 && starts == pauses * batch + since && since <= batch
    ensures since < batch ==> pauses == starts / batch
    ensures since >= 1 ==> pauses == (starts - 1) / batch
    ensures since < batch ==> since == starts % batch
    ensures since == batch ==> starts % batch == 0
  {
    if since < batch { DivUnique(starts, batch, pauses, since); }
    if since >= 1 { DivUnique(starts - 1, batch, pauses, since - 1); }
    if since == batch { DivUnique(starts, batch, pauses + 1, 0); }
  }

  // ---- moveConnections ----

  /** The column a finished move leaves: on the target after success, and after an
      error that came after it was set. */
  function ColumnAfter(was: string, target: M.Instance, o: M.Outcome, took: bool): string {
    match o
    case Moved(_) => M.Stored(target)
    case Failed(Refused) => was
    case Failed(SettingColumn) => if took then M.Stored(target) else was
    case Failed(_) => M.Stored(target)
  }

  /** Every run of a move that ends leaves that column. */
  lemma MoveLeavesColumn(s0: M.State, trace: seq<M.Action>, n: nat, o: M.Outcome)
    requires M.Init(s0) && n <= |trace| && M.At(s0, trace, n).mover.pc == M.Done(o)
    ensures exists took :: M.At(s0, trace, n).w.column == ColumnAfter(s0.w.column, s0.mover.target, o, took)
  {
    M.MoverInvHolds(s0, trace, n);
    var s := M.At(s0, trace, n);
    var took := s.w.column == M.Stored(s0.mover.target);
    assert s.w.column == ColumnAfter(s0.w.column, s0.mover.target, o, took);
  }

  /** The liercd column of every connection. */
  class Columns {
    var liercd: map<string, string>

    constructor (liercd: map<string, string>)
      ensures this.liercd == liercd
    {
      this.liercd := liercd;
    }

    /** A move of one connection, as the protocol leaves it. */
    method Move(id: string, target: M.Instance, o: M.Outcome, took: bool)
      modifies this
      ensures liercd == if id in old(liercd) then old(liercd)[id := ColumnAfter(old(liercd)[id], target, o, took)]
                        else old(liercd)
    {
      if id in liercd {
        liercd := liercd[id := ColumnAfter(liercd[id], target, o, took)];
      }
    }

    /** The loop of moveConnections, with results(i) how the i-th move ends. `moved`
        is the number reported; `broke` tells that the move after them failed. */
    method MoveConnections(todo: seq<string>, target: M.Instance, batch: nat, results: nat -> M.Outcome,
                           took: nat -> bool,
                           cancelled: nat -> bool, sleeps: nat -> bool)
      returns (moved: nat, broke: bool, stopped: bool, trace: seq<Event>)
      requires batch >= 1
      requires forall i, j :: 0 <= i < j < |todo| ==> todo[i] != todo[j]
      requires forall i :: 0 <= i < |todo| ==> todo[i] in liercd
      modifies this
      ensures moved <= |todo| && (!stopped ==> moved == |todo|) && (broke ==> moved < |todo| && stopped)
      ensures liercd.Keys == old(liercd).Keys
      ensures forall k :: 0 <= k < moved ==> liercd[todo[k]] == if target == M.Main then "" else "next"
      ensures forall c :: c in liercd && c !in todo[..moved] && !(broke && c == todo[moved]) ==>
                            liercd[c] == old(liercd)[c]
      ensures broke ==> results(moved).Failed?
                        && liercd[todo[moved]]
                           == ColumnAfter(old(liercd)[todo[moved]], target, results(moved), took(moved))
      ensures Paced(trace, batch) && ActedOn(trace) == seq(moved, k => k)
      ensures forall k :: 0 <= k < moved ==> results(k).Moved?
      ensures forall e | e in trace && e.Acted? :: e.starts == (results(e.k) == M.Moved(true))
      ensures !stopped ==> trace == [] || !trace[|trace| - 1].Paused?
      ensures !stopped ==> Pauses(trace) == if moved > 0 && results(moved - 1) == M.Moved(true)
                                            then (Starts(trace) - 1) / batch else Starts(trace) / batch
    {
      hide Starts, Pauses, SincePause, ActedOn, Paced, ColumnAfter, MovedFirst, Counted;
      var started := 0;
      moved, broke, stopped, trace := 0, false, true, [];
      NoneMoved(liercd, todo, target, batch);
      for i := 0 to |todo|
        invariant moved == i && !broke && stopped && liercd.Keys == old(liercd).Keys
        invariant i == 0 ==> trace == []
        invariant MovedFirst(old(liercd), liercd, todo, target, i)
        invariant forall k :: 0 <= k < i ==> results(k).Moved?
        invariant Counted(trace, batch, i, started)
        invariant forall e | e in trace && e.Acted? :: e.starts == (results(e.k) == M.Moved(true))
        invariant i < |todo| ==> SincePause(trace) < batch
        invariant i == |todo| > 0 ==> trace != [] && trace[|trace| - 1] == Acted(i - 1, results(i - 1).started)
        invariant i == |todo| > 0 && !results(i - 1).started ==> SincePause(trace) < batch
      {
        if cancelled(i) {
          MovedMeans(old(liercd), liercd, todo, target, i);
          CountedGives(trace, batch, i, started);
          return;
        }
        OneMoved(old(liercd), liercd, todo, target, i, results(i), took(i));
        Move(todo[i], target, results(i), took(i));
        if results(i).Failed? {
          broke := true;
          OthersStay(old(liercd), liercd, todo, target, i);
          CountedGives(trace, batch, i, started);
          return;
        }
        moved := i + 1;
        var s := results(i).started;
        OneCounted(trace, batch, i, started, s);
        trace := trace + [Acted(i, s)];
        if !s { continue; }
        started := started + 1;
        if started % batch == 0 && i < |todo| - 1 {
          CountedGives(trace, batch, i + 1, started);
          if !sleeps(i) { MovedMeans(old(liercd), liercd, todo, target, i + 1); return; }
          PauseCounted(trace, batch, i + 1, started);
          trace := trace + [Paused];
        }
      }
      stopped := false;
      Empty(batch);
      MovedMeans(old(liercd), liercd, todo, target, |todo|);
      AllCounted(trace, batch, |todo|, started);
    }
  }

  /** The first n of the list are on the target, and every other connection is
      where it was. */
  ghost predicate MovedFirst(was: map<string, string>, now: map<string, string>, todo: seq<string>,
                             target: M.Instance, n: nat)
    requires n <= |todo|
  {
    && now.Keys == was.Keys
    && (forall k :: 0 <= k < n ==> todo[k] in now && now[todo[k]] == M.Stored(target))
    && (forall c :: c in now && c !in todo[..n] ==> now[c] == was[c])
  }

  /** The trace of n connections, with the loop's count of those started. */
  ghost predicate Counted(trace: seq<Event>, batch: nat, n: nat, started: nat) {
    Paced(trace, batch) && ActedOn(trace) == seq(n, k => k) && started == Starts(trace)
  }

  lemma MovedMeans(was: map<string, string>, now: map<string, string>, todo: seq<string>, target: M.Instance, n: nat)
    requires n <= |todo| && MovedFirst(was, now, todo, target, n)
    ensures now.Keys == was.Keys
    ensures forall k :: 0 <= k < n ==> todo[k] in now && now[todo[k]] == if target == M.Main then "" else "next"
    ensures forall c :: c in now && c !in todo[..n] ==> now[c] == was[c]
  {}

  /** One more change, to the connection after the first n. */
  lemma OthersStay(was: map<string, string>, now: map<string, string>, todo: seq<string>, target: M.Instance, n: nat)
    requires n < |todo| && todo[n] in now && todo[n] in was
    requires MovedFirst(was, now[todo[n] := was[todo[n]]], todo, target, n)
    requires forall i, j :: 0 <= i < j < |todo| ==> todo[i] != todo[j]
    ensures now.Keys == was.Keys
    ensures forall k :: 0 <= k < n ==> todo[k] in now && now[todo[k]] == if target == M.Main then "" else "next"
    ensures forall c :: c in now && c !in todo[..n] && c != todo[n] ==> now[c] == was[c]
  {
    var back := now[todo[n] := was[todo[n]]];
    assert forall k :: 0 <= k < n ==> now[todo[k]] == back[todo[k]];
  }

  lemma NoneMoved(was: map<string, string>, todo: seq<string>, target: M.Instance, batch: nat)
    ensures MovedFirst(was, was, todo, target, 0) && Counted([], batch, 0, 0) && SincePause([]) == 0
  {
    Empty(batch);
  }

  lemma OneMoved(was: map<string, string>, now: map<string, string>, todo: seq<string>, target: M.Instance, i: nat,
                 o: M.Outcome, took: bool)
    requires i < |todo| && MovedFirst(was, now, todo, target, i) && todo[i] in now
    requires forall i, j :: 0 <= i < j < |todo| ==> todo[i] != todo[j]
    ensures var after := now[todo[i] := ColumnAfter(now[todo[i]], target, o, took)];
            && now[todo[i]] == was[todo[i]]
            && (o.Moved? ==> MovedFirst(was, after, todo, target, i + 1))
            && after[todo[i] := was[todo[i]]] == now
  {
    assert todo[..i + 1] == todo[..i] + [todo[i]];
    assert forall k :: 0 <= k < i ==> todo[k] != todo[i];
  }

  lemma CountedGives(trace: seq<Event>, batch: nat, n: nat, started: nat)
    requires Counted(trace, batch, n, started)
    ensures Paced(trace, batch) && ActedOn(trace) == seq(n, k => k)
  {}

  lemma OneCounted(trace: seq<Event>, batch: nat, i: nat, started: nat, s: bool)
    requires batch >= 1 && Counted(trace, batch, i, started) && SincePause(trace) < batch
    ensures var more, count := trace + [Acted(i, s)], started + if s then 1 else 0;
            && Counted(more, batch, i + 1, count)
            && (!s ==> SincePause(more) < batch)
            && (s ==> (count % batch == 0 <==> SincePause(more) == batch) && SincePause(more) <= batch)
  {
    hide Paced, Starts, SincePause, ActedOn;
    Added(trace, Acted(i, s), batch);
    assert seq(i + 1, k => k) == seq(i, k => k) + [i];
    if s { Pace(started + 1, trace + [Acted(i, s)], batch); }
  }

  lemma PauseCounted(trace: seq<Event>, batch: nat, n: nat, started: nat)
    requires batch >= 1 && Counted(trace, batch, n, started) && SincePause(trace) == batch
    ensures Counted(trace + [Paused], batch, n, started) && SincePause(trace + [Paused]) == 0
  {
    hide Paced, Starts, SincePause, ActedOn;
    Added(trace, Paused, batch);
  }

  lemma AllCounted(trace: seq<Event>, batch: nat, n: nat, started: nat)
    requires batch >= 1 && Counted(trace, batch, n, started)
    requires n > 0 ==> trace != [] && trace[|trace| - 1].Acted?
                       && (!trace[|trace| - 1].starts ==> SincePause(trace) < batch)
    requires n == 0 ==> SincePause(trace) < batch
    ensures Paced(trace, batch) && ActedOn(trace) == seq(n, k => k)
    ensures Pauses(trace) == if n > 0 && trace[|trace| - 1].starts then (Starts(trace) - 1) / batch
                             else Starts(trace) / batch
  {
    hide Paced, Starts, ActedOn, Pauses;
    PausesCount(trace, batch);
    assert SincePause(trace) <= batch by { PacedNow(trace, batch); }
    PausesAre(Starts(trace), Pauses(trace), batch, SincePause(trace));
  }

  lemma PacedNow(trace: seq<Event>, batch: nat)
    requires Paced(trace, batch)
    ensures SincePause(trace) <= batch
  {
    assert trace[..|trace|] == trace;
  }

  /** The count is a multiple of the batch exactly when a batch has started since
      the last pause. */
  lemma Pace(started: nat, trace: seq<Event>, batch: nat)
    requires batch >= 1 && Paced(trace, batch) && started == Starts(trace) && SincePause(trace) >= 1
    ensures started % batch == 0 <==> SincePause(trace) == batch
    ensures SincePause(trace) <= batch
  {
    hide Starts, Pauses, SincePause;
    PausesCount(trace, batch);
    assert trace[..|trace|] == trace;
    PausesAre(started, Pauses(trace), batch, SincePause(trace));
  }

  // ---- dormantOn ----

  datatype Answer = Code(code: int) | NoAnswer

  function NotRunning(n: nat, status: nat -> Answer): seq<nat> {
    if n == 0 then [] else NotRunning(n - 1, status) + if status(n - 1) == Code(200) then [] else [n - 1]
  }

  /** They are those that didn't answer 200, each once and in order. */
  lemma {:induction false} NotRunningIff(n: nat, status: nat -> Answer)
    ensures forall k: nat :: k in NotRunning(n, status) <==> k < n && status(k) != Code(200)
    ensures forall i, j :: 0 <= i < j < |NotRunning(n, status)| ==> NotRunning(n, status)[i] < NotRunning(n, status)[j]
  {
    if n > 0 {
      NotRunningIff(n - 1, status);
      var front := NotRunning(n - 1, status);
      assert forall i :: 0 <= i < |front| ==> front[i] in front;
    }
  }

  /** dormantOn: the connections that answer 404, in order; anything else than 200
      or 404 is an error. */
  method DormantOn(n: nat, status: nat -> Answer) returns (r: Option<(seq<nat>, nat)>)
    ensures r.None? <==> exists i :: 0 <= i < n && status(i) !in {Code(200), Code(404)}
    ensures r.Some? ==> r.value.0 == NotRunning(n, status) && |r.value.0| + r.value.1 == n
  {
    var dormant, running := [], 0;
    for i := 0 to n
      invariant dormant == NotRunning(i, status) && |dormant| + running == i
      invariant forall k :: 0 <= k < i ==> status(k) in {Code(200), Code(404)}
    {
      if status(i) == Code(200) { running := running + 1; }
      else if status(i) == Code(404) { dormant := dormant + [i]; }
      else { return None; }
    }
    r := Some((dormant, running));
  }

  // ---- revive ----

  /** How many of these failed to start. */
  function Failing(ks: seq<nat>, creates: nat -> bool): nat {
    if ks == [] then 0 else Failing(ks[..|ks| - 1], creates) + if creates(ks[|ks| - 1]) then 0 else 1
  }

  lemma FailingNone(creates: nat -> bool)
    ensures Failing([], creates) == 0
  {}

  lemma FailingMore(ks: seq<nat>, k: nat, creates: nat -> bool)
    ensures Failing(ks + [k], creates) == Failing(ks, creates) + if creates(k) then 0 else 1
  {
    assert (ks + [k])[..|ks|] == ks;
  }

  /** The trace of a loop that has tried some connections, with its count of them. */
  ghost predicate Tried(trace: seq<Event>, batch: nat, tried: nat) {
    && Paced(trace, batch) && Starts(trace) == tried == |ActedOn(trace)|
    && (tried == 0 ==> trace == [])
    && (tried > 0 ==> trace != [] && trace[0].Acted? && trace[|trace| - 1].Acted? && SincePause(trace) >= 1)
  }

  function Pausing(trace: seq<Event>, batch: nat, tried: nat): seq<Event>
    requires batch >= 1
  {
    if tried > 0 && tried % batch == 0 then trace + [Paused] else trace
  }

  lemma OneTried(trace: seq<Event>, batch: nat, tried: nat, i: nat)
    requires batch >= 1 && Tried(trace, batch, tried)
    ensures Tried(Pausing(trace, batch, tried) + [Acted(i, true)], batch, tried + 1)
    ensures ActedOn(Pausing(trace, batch, tried) + [Acted(i, true)]) == ActedOn(trace) + [i]
  {
    hide Starts, Pauses, SincePause, ActedOn, Paced;
    Empty(batch);
    if tried > 0 { Pace(tried, trace, batch); }
    Added(trace, Paused, batch);
    Added(Pausing(trace, batch, tried), Acted(i, true), batch);
  }

  lemma NoneTried(batch: nat)
    ensures Tried([], batch, 0) && ActedOn([]) == []
  {}

  lemma AllTried(trace: seq<Event>, batch: nat, tried: nat)
    requires batch >= 1 && Tried(trace, batch, tried)
    ensures Paced(trace, batch) && Starts(trace) == tried == |ActedOn(trace)|
    ensures Pauses(trace) == if tried > 0 then (tried - 1) / batch else 0
    ensures trace != [] ==> trace[0].Acted? && trace[|trace| - 1].Acted?
  {
    hide Starts, Pauses, SincePause, ActedOn, Paced;
    Empty(batch);
    if tried > 0 {
      Pace(tried, trace, batch);
      PausesCount(trace, batch);
      PausesAre(Starts(trace), Pauses(trace), batch, SincePause(trace));
    }
  }

  /** The loop of revive over n connections: status(i) is what liercd says of the
      i-th, creates(i) whether creating it works. */
  method Revive(n: nat, batch: nat, status: nat -> Answer, creates: nat -> bool, cancelled: nat -> bool,
                sleeps: nat -> bool)
    returns (started: nat, failed: nat, stopped: bool, trace: seq<Event>)
    requires batch >= 1
    ensures Paced(trace, batch) && Starts(trace) == started + failed == |ActedOn(trace)|
    ensures failed == Failing(ActedOn(trace), creates)
    ensures !stopped ==> ActedOn(trace) == NotRunning(n, status)
    ensures var k := started + failed; Pauses(trace) == if k > 0 then (k - 1) / batch else 0
    ensures stopped ==> exists i :: 0 <= i < n && (cancelled(i) || !sleeps(i))
    ensures trace != [] ==> trace[0].Acted? && trace[|trace| - 1].Acted?
  {
    hide Starts, Pauses, SincePause, ActedOn, Paced, Failing, Tried;
    FailingNone(creates);
    NoneTried(batch);
    started, failed, stopped, trace := 0, 0, true, [];
    for i := 0 to n
      invariant Tried(trace, batch, started + failed) && stopped
      invariant ActedOn(trace) == NotRunning(i, status) && failed == Failing(ActedOn(trace), creates)
    {
      AllTried(trace, batch, started + failed);
      if cancelled(i) { return; }
      if status(i) == Code(200) { continue; }
      OneTried(trace, batch, started + failed, i);
      FailingMore(ActedOn(trace), i, creates);
      var k := started + failed;
      if k > 0 && k % batch == 0 {
        if !sleeps(i) { return; }
        trace := trace + [Paused];
      }
      trace := trace + [Acted(i, true)];
      if creates(i) { started := started + 1; } else { failed := failed + 1; }
    }
    stopped := false;
    AllTried(trace, batch, started + failed);
  }

  // ---- waitForInstance ----

  const PROBE: nat := 2_000_000_000

  /** waitForInstance, in nanoseconds: answers(i) is whether probe i is answered. */
  method WaitForInstance(wait: nat, answers: nat -> bool, sleeps: nat -> bool)
    returns (ok: bool, probes: nat, slept: nat)
    ensures 1 <= probes <= (wait + 1_999_999_999) / 2_000_000_000 + 1 && slept < wait + 2_000_000_000
    ensures ok <==> answers(probes - 1)
    ensures forall i :: 0 <= i < probes - 1 ==> !answers(i)
    ensures !ok ==> (probes == (wait + 1_999_999_999) / 2_000_000_000 + 1 && wait <= slept) || !sleeps(probes - 1)
  {
    var waited := 0;
    probes, slept := 0, 0;
    while true
      invariant waited == slept == probes * PROBE < wait + PROBE
      invariant forall i :: 0 <= i < probes ==> !answers(i)
      decreases wait + PROBE - waited
    {
      probes := probes + 1;
      if answers(probes - 1) { return true, probes, slept; }
      if waited >= wait { return false, probes, slept; }
      if !sleeps(probes - 1) { return false, probes, slept; }
      waited, slept := waited + PROBE, slept + PROBE;
    }
  }
}
