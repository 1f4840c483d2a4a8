/** moveOne as the code runs it: straight-line statements against a deployment
    that other processes change between any two of them. */
module MoveOne {
  import opened Wrappers
  import opened MoveProtocol

  function AllTheirs(others: seq<Other>): seq<Action> {
    seq(|others|, i requires 0 <= i < |others| => Theirs(others[i]))
  }

  /** The first m statements of moveOne, each after what the others do before it. */
  function Interleaved(others: nat -> seq<Other>, faults: nat -> Fault, m: nat): seq<Action> {
    if m == 0 then [] else Interleaved(others, faults, m - 1) + AllTheirs(others(m - 1)) + [Ours(faults(m - 1))]
  }

  /** A trace of moveOne's own six statements, or fewer, and the others' before each. */
  ghost predicate AsFarAs(trace: seq<Action>, others: nat -> seq<Other>, faults: nat -> Fault) {
    exists m: nat :: m <= 6 && trace == Interleaved(others, faults, m)
  }

  /** Statement m, when the trace so far is the m before it. */
  lemma Statement(trace: seq<Action>, others: nat -> seq<Other>, faults: nat -> Fault, m: nat)
    requires m < 6 && trace == Interleaved(others, faults, m)
    ensures var longer := trace + AllTheirs(others(m)) + [Ours(faults(m))];
            longer == Interleaved(others, faults, m + 1) && AsFarAs(longer, others, faults)
  {
    assert Interleaved(others, faults, m + 1) == trace + AllTheirs(others(m)) + [Ours(faults(m))];
  }

  /** The database row, the two liercd instances and the streams' routed
      requests. The ghost trace records every action since the move began, and
      `mover` is where the protocol then has the mover. */
  class Deployment {
    var column: string
    var running: set<Instance>
    var actors: map<nat, Actor>
    var now: nat
    const hasNext: bool
    ghost var mover: Mover
    ghost const start: State
    ghost var trace: seq<Action>

    ghost function Now(): State
      reads this
    {
      State(World(column, running, actors, hasNext, now), mover)
    }

    ghost predicate Valid()
      reads this
    {
      Init(start) && now == |trace| && At(start, trace, |trace|) == Now()
    }

    constructor (column: string, running: set<Instance>, hasNext: bool, target: Instance)
      ensures Valid() && trace == [] && mover.pc.Starting? && mover.target == target
      ensures this.column == column && this.running == running && this.hasNext == hasNext
    {
      var idle := Mover(Starting, target, Main, false, false, []);
      this.column, this.running, this.actors, this.now, this.hasNext := column, running, map[], 0, hasNext;
      this.mover, this.trace := idle, [];
      this.start := State(World(column, running, map[], hasNext, 0), idle);
    }

    ghost predicate SameEnds(m: Mover)
      reads this
    {
      mover.target == m.target && mover.source == m.source
    }

    /** Appends the action just taken, which led to the fields as they are now. */
    ghost method Record(x: Action, was: State)
      requires Init(start) && now == |trace| == was.w.now && At(start, trace, |trace|) == was
      requires Now() == Step(was, x).(w := Step(was, x).w.(now := now))
      modifies this`trace
      ensures trace == old(trace) + [x]
      ensures At(start, trace, |trace|) == Step(was, x)
    {
      AtPrefix(start, trace, [x], |trace|);
      trace := trace + [x];
    }

    /** What the other processes do before the mover's next statement. */
    method Meanwhile(others: seq<Other>)
      requires Valid()
      modifies this
      ensures Valid() && mover == old(mover) && column == old(column)
      ensures trace == old(trace) + AllTheirs(others)
    {
      for i := 0 to |others|
        invariant Valid() && mover == old(mover) && column == old(column)
        invariant trace == old(trace) + AllTheirs(others[..i])
      {
        assert AllTheirs(others[..i + 1]) == AllTheirs(others[..i]) + [Theirs(others[i])];
        OtherStepKeepsColumn(Now().w, others[i]);
        Other(others[i]);
      }
      assert others[..|others|] == others;
    }

    /** A request from a client pinned to one instance: its status. */
    method Status(to: Instance, f: Fault) returns (answer: Answer)
      requires Valid() && mover.pc.Probing? && to == mover.target
      modifies this`now, this`mover, this`trace
      ensures Valid() && trace == old(trace) + [Ours(f)]
      ensures answer == AnswerStatus(to in running, f)
      ensures SameEnds(old(mover)) && mover.pc == if answer == Code404 then DestroyingFirst else Done(Failed(Refused))
    {
      ghost var was := Now();
      answer := AnswerStatus(to in running, f);
      mover := OurStep(was, f).mover;
      Record(Ours(f), was);
      now := now + 1;
    }

    /** destroyOn: problem for anything but 200 or 404; found for 200. */
    method DestroyOn(to: Instance, f: Fault) returns (problem: bool, found: bool)
      requires Valid() && (mover.pc.DestroyingFirst? || mover.pc.DestroyingSecond?) && to == mover.source
      modifies this`running, this`now, this`mover, this`trace
      ensures Valid() && trace == old(trace) + [Ours(f)]
      ensures problem == !f.Clean? && found == (f.Clean? && to in old(running))
      ensures SameEnds(old(mover))
      ensures mover.wasRunning == if old(mover).pc.DestroyingFirst? then found else old(mover).wasRunning
      ensures mover.pc == if old(mover).pc.DestroyingFirst? then (if problem then Done(Failed(Refused)) else Recording)
                          else if problem then Done(Failed(DestroyingAgain))
                          else if mover.wasRunning || found then Creating else Done(Moved(false))
    {
      ghost var was := Now();
      var answer := AnswerDestroy(to in running, f);
      mover := OurStep(was, f).mover;
      running := if TakesEffect(f) then Run(running, to, false) else running;
      Record(Ours(f), was);
      now := now + 1;
      problem, found := !(answer == Code200 || answer == Code404), answer == Code200;
    }

    method SetLiercd(stored: string, f: Fault) returns (ok: bool)
      requires Valid() && mover.pc.Recording? && stored == Stored(mover.target)
      modifies this`column, this`now, this`mover, this`trace
      ensures Valid() && trace == old(trace) + [Ours(f)] && ok == f.Clean?
      ensures SameEnds(old(mover)) && mover.wasRunning == old(mover).wasRunning
      ensures mover.pc == if ok then DestroyingSecond else Done(Failed(SettingColumn))
    {
      ghost var was := Now();
      mover := OurStep(was, f).mover;
      column := if TakesEffect(f) then stored else column;
      Record(Ours(f), was);
      now := now + 1;
      ok := f.Clean?;
    }

    method CreateOn(to: Instance, f: Fault) returns (ok: bool)
      requires Valid() && mover.pc.Creating? && to == mover.target
      modifies this`running, this`now, this`mover, this`trace
      ensures Valid() && trace == old(trace) + [Ours(f)] && ok == f.Clean?
      ensures mover.pc == Done(if ok then Moved(true) else Failed(CreatingThere))
    {
      ghost var was := Now();
      var answer := AnswerCreate(f);
      mover := OurStep(was, f).mover;
      running := if TakesEffect(f) then Run(running, to, true) else running;
      Record(Ours(f), was);
      now := now + 1;
      ok := answer == Code200;
    }

    /** LookupConfig and LookupLiercd: the stored instance, None for an error or
        an unknown connection. Nothing but a move changes the column, so what
        they read is still there when the refusals after them are decided. */
    method LookUpSource(f: Fault) returns (stored: Option<string>)
      requires Valid() && mover.pc.Starting?
      modifies this`now, this`mover, this`trace
      ensures Valid() && trace == old(trace) + [Ours(f)]
      ensures stored == if f.Clean? then Some(old(column)) else None
      ensures mover == Begin(old(Now()), f)
    {
      ghost var was := Now();
      mover := OurStep(was, f).mover;
      Record(Ours(f), was);
      now := now + 1;
      stored := if f.Clean? then Some(column) else None;
    }

    /** moveOne, with others(i) what the other processes do before its i-th
        statement and faults(i) what happens to that statement. The run is these
        steps in this order, as far as moveOne gets; some step of it ends it with
        the result, and the result is truthful. */
    method MoveOne(target: Instance, others: nat -> seq<Other>, faults: nat -> Fault) returns (result: Outcome)
      requires Valid() && trace == [] && mover.pc.Starting? && mover.target == target
      modifies this
      ensures Valid() && mover.pc == Done(result) && Truthful(start, Now(), result)
      ensures exists m: nat :: m <= 6 && trace == Interleaved(others, faults, m)
      ensures exists k: nat :: k < |trace| && EndsWith(At(start, trace, k), trace[k], result)
    {
      result := MoveTo(target, others, faults);
      ResultIsTruthful(start, trace, |trace|);
      OutcomeIff(start, trace, |trace|, result);
    }

    method MoveTo(target: Instance, others: nat -> seq<Other>, faults: nat -> Fault) returns (result: Outcome)
      requires Valid() && trace == [] && mover.pc.Starting? && mover.target == target
      modifies this
      ensures Valid() && mover.pc == Done(result)
      ensures AsFarAs(trace, others, faults)
    {
      hide AsFarAs, AllTheirs, Init, At;
      Statement(trace, others, faults, 0);
      Meanwhile(others(0));
      var stored := LookUpSource(faults(0));
      if stored.None? { return Failed(Refused); }
      var sourceName := if stored.value == "" then "main" else stored.value;
      if sourceName == Name(target) { return Failed(Refused); }
      if target == Next && !hasNext { return Failed(Refused); }
      var src := For(sourceName, hasNext);
      if src.None? { return Failed(Refused); }

      Statement(trace, others, faults, 1);
      Meanwhile(others(1));
      var answer := Status(target, faults(1));
      if answer != Code404 { return Failed(Refused); }

      Statement(trace, others, faults, 2);
      Meanwhile(others(2));
      var problem, wasRunning := DestroyOn(src.value, faults(2));
      if problem { return Failed(Refused); }

      result := RecordAndCreate(src.value, target, wasRunning, others, faults);
    }

    /** moveOne from SetLiercd on. */
    method RecordAndCreate(src: Instance, target: Instance, wasRunning: bool, others: nat -> seq<Other>,
                           faults: nat -> Fault)
      returns (result: Outcome)
      requires Valid() && mover.pc.Recording? && mover.wasRunning == wasRunning
      requires mover.source == src && mover.target == target && trace == Interleaved(others, faults, 3)
      modifies this
      ensures Valid() && mover.pc == Done(result)
      ensures AsFarAs(trace, others, faults)
    {
      hide Interleaved, AsFarAs, AllTheirs, Init, At;
      Statement(trace, others, faults, 3);
      Meanwhile(others(3));
      var recorded := SetLiercd(if target == Main then "" else Name(target), faults(3));
      if !recorded { return Failed(SettingColumn); }

      Statement(trace, others, faults, 4);
      Meanwhile(others(4));
      var problem, slippedIn := DestroyOn(src, faults(4));
      if problem { return Failed(DestroyingAgain); }
      if !wasRunning && !slippedIn { return Moved(false); }

      Statement(trace, others, faults, 5);
      Meanwhile(others(5));
      var created := CreateOn(target, faults(5));
      if !created { return Failed(CreatingThere); }
      result := Moved(true);
    }

    // ---- a stream's FindOrRecreate ----

    /** One of the other processes' steps. */
    method Other(o: Other)
      requires Valid()
      modifies this`running, this`actors, this`now, this`trace
      ensures Valid() && trace == old(trace) + [Theirs(o)]
      ensures World(column, running, actors, hasNext, now) == OtherStep(old(Now()).w, o).(now := old(now) + 1)
    {
      ghost var was := Now();
      var w := OtherStep(World(column, running, actors, hasNext, now), o);
      OtherStepKeepsColumn(was.w, o);
      running, actors := w.running, w.actors;
      Record(Theirs(o), was);
      now := now + 1;
    }

    /** What the others do before stream a's next statement. */
    method Around(a: nat, others: seq<Other>)
      requires Valid() && a in actors
      modifies this`running, this`actors, this`now, this`trace
      ensures Valid() && a in actors && actors[a] == old(actors[a])
      ensures old(trace) <= trace && Own(trace, a) == Own(old(trace), a)
    {
      hide Init, At;
      for i := 0 to |others|
        invariant Valid() && a in actors && actors[a] == old(actors[a])
        invariant old(trace) <= trace && Own(trace, a) == Own(old(trace), a)
      {
        if !ActsFor(others[i], a) {
          OthersSpare(Now().w, others[i], a);
          OwnMore(trace, others[i], a);
          Other(others[i]);
        }
      }
    }

    /** A step of stream a's own. */
    method Mine(o: Other, a: nat)
      requires Valid() && ActsFor(o, a)
      modifies this`running, this`actors, this`now, this`trace
      ensures Valid() && old(trace) <= trace && trace == old(trace) + [Theirs(o)]
      ensures World(column, running, actors, hasNext, now) == OtherStep(old(Now()).w, o).(now := old(now) + 1)
      ensures Own(trace, a) == Own(old(trace), a) + [o]
    {
      hide Init, At, OtherStep, Own;
      OwnMore(trace, o, a);
      Other(o);
    }

    /** A routed Do: the column lookup, then the request to the instance it named,
        whatever the others do between the two. None if the lookup failed or named
        none. A status is that of the instance as the request reaches it, and a
        create that takes effect leaves it running. */
    method Do(a: nat, call: Call, dbOk: bool, fault: Fault, others: seq<Other>) returns (answer: Option<Answer>)
      requires Valid() && a in actors && actors[a] == Routing(call)
      modifies this`running, this`actors, this`now, this`trace
      ensures Valid() && a in actors && old(trace) <= trace
      ensures actors[a] == match answer case None => Finished(false) case Some(c) => AfterReply(call, c)
      ensures |trace| > |old(trace)| && trace[|old(trace)|] == Theirs(LookUp(a, dbOk))
      ensures answer.Some? ==> trace[|trace| - 1] == Theirs(Deliver(a, fault))
      ensures Own(trace, a) == Own(old(trace), a) + [LookUp(a, dbOk)] + if answer.Some? then [Deliver(a, fault)] else []
      ensures var to := if dbOk then Route(column, hasNext) else None;
              && (answer.None? <==> to.None?)
              && (to.Some? && call == Create ==> answer == Some(AnswerCreate(fault))
                                                 && (TakesEffect(fault) ==> to.value in running))
              && (to.Some? && call != Create ==> answer == Some(AnswerStatus(to.value in running, fault)))
    {
      hide Init, At, Own;
      var to := if dbOk then Route(column, hasNext) else None;
      Mine(LookUp(a, dbOk), a);
      if to.None? { return None; }
      ghost var begun := trace;
      Around(a, others);
      answer := Some(if call == Create then AnswerCreate(fault) else AnswerStatus(to.value in running, fault));
      Mine(Deliver(a, fault), a);
      assert trace[|begun| - 1] == begun[|begun| - 1];
    }

    /** LookupConfig, which finds no connection or fails if not known. */
    method OpenStream(a: nat, known: bool, others: seq<Other>)
      requires Valid() && a !in actors
      modifies this`running, this`actors, this`now, this`trace
      ensures Valid() && a in actors && actors[a] == if known then Routing(FirstStatus) else Finished(false)
      ensures old(trace) <= trace && Own(trace, a) == Own(old(trace), a) + [Open(a), ReadConfig(a, known)]
    {
      hide Init, At, Own;
      Mine(Open(a), a);
      Around(a, others);
      Mine(ReadConfig(a, known), a);
    }

    /** FindOrRecreate, as stream a: ask for the status, create what isn't there,
        and ask again. Its own steps are these requests in this order, as far as it
        gets, and it succeeds only if the instance it asked last runs the connection
        as it ends. */
    method FindOrRecreate(a: nat, known: bool, dbOk: nat -> bool, faults: nat -> Fault, others: nat -> seq<Other>)
      returns (ok: bool)
      requires Valid() && a !in actors
      modifies this`running, this`actors, this`now, this`trace
      ensures Valid() && a in actors && actors[a] == Finished(ok) && old(trace) <= trace
      ensures Own(old(trace), a) <= Own(trace, a) <= Own(old(trace), a) + Script(a, known, dbOk, faults)
      ensures !known ==> !ok && Own(trace, a) == Own(old(trace), a) + [Open(a), ReadConfig(a, false)]
      ensures ok ==> exists i :: Route(column, hasNext) == Some(i) && i in running
    {
      hide *;
      ScriptIs(a, known, dbOk, faults);
      OpenStream(a, known, others(0));
      if !known { return false; }
      ok := AskFirst(a, dbOk, faults, others);
    }

    /** The first status, and what follows from it. */
    method AskFirst(a: nat, dbOk: nat -> bool, faults: nat -> Fault, others: nat -> seq<Other>) returns (ok: bool)
      requires Valid() && a in actors && actors[a] == Routing(FirstStatus)
      modifies this`running, this`actors, this`now, this`trace
      ensures Valid() && a in actors && actors[a] == Finished(ok) && old(trace) <= trace
      ensures Own(old(trace), a) <= Own(trace, a)
      ensures Own(trace, a)
           <= Own(old(trace), a) + [LookUp(a, dbOk(0))] + [Deliver(a, faults(0))] + Rest(a, dbOk, faults)
      ensures ok ==> exists i :: Route(column, hasNext) == Some(i) && i in running
    {
      hide *;
      AfterReplies();
      Statuses();
      Around(a, others(1));
      var answer := Do(a, FirstStatus, dbOk(0), faults(0), others(2));
      if answer.None? || answer == Some(Failure) { return false; }
      if answer == Some(Code200) { return true; }
      ok := Recreate(a, dbOk, faults, others);
    }

    /** Its second half, when the status wasn't 200. */
    method Recreate(a: nat, dbOk: nat -> bool, faults: nat -> Fault, others: nat -> seq<Other>) returns (ok: bool)
      requires Valid() && a in actors && actors[a] == Routing(Create)
      modifies this`running, this`actors, this`now, this`trace
      ensures Valid() && a in actors && actors[a] == Finished(ok) && old(trace) <= trace
      ensures Own(old(trace), a) <= Own(trace, a) <= Own(old(trace), a) + Rest(a, dbOk, faults)
      ensures ok ==> exists i :: Route(column, hasNext) == Some(i) && i in running
    {
      hide *;
      AfterReplies();
      Statuses();
      RestIs(a, dbOk, faults);
      Around(a, others(3));
      var answer := Do(a, Create, dbOk(1), faults(1), others(4));
      if answer != Some(Code200) { return false; }
      Around(a, others(5));
      answer := Do(a, LastStatus, dbOk(2), faults(2), others(6));
      ok := answer == Some(Code200);
    }
  }

  /** Stream a's own steps in a trace. */
  function Own(trace: seq<Action>, a: nat): seq<Other> {
    if trace == [] then []
    else
      var x := trace[|trace| - 1];
      Own(trace[..|trace| - 1], a) + if x.Theirs? && ActsFor(x.other, a) then [x.other] else []
  }

  lemma OwnMore(trace: seq<Action>, o: Other, a: nat)
    ensures Own(trace + [Theirs(o)], a) == if ActsFor(o, a) then Own(trace, a) + [o] else Own(trace, a)
  {
    assert (trace + [Theirs(o)])[..|trace|] == trace;
  }

  function Rest(a: nat, dbOk: nat -> bool, faults: nat -> Fault): seq<Other> {
    [LookUp(a, dbOk(1)), Deliver(a, faults(1)), LookUp(a, dbOk(2)), Deliver(a, faults(2))]
  }

  /** Every step FindOrRecreate can take: its config, a status, a create, a status. */
  function Script(a: nat, known: bool, dbOk: nat -> bool, faults: nat -> Fault): seq<Other> {
    [Open(a), ReadConfig(a, known), LookUp(a, dbOk(0)), Deliver(a, faults(0))] + Rest(a, dbOk, faults)
  }

  lemma RestIs(a: nat, dbOk: nat -> bool, faults: nat -> Fault)
    ensures Rest(a, dbOk, faults)
         == [LookUp(a, dbOk(1))] + [Deliver(a, faults(1))] + [LookUp(a, dbOk(2))] + [Deliver(a, faults(2))]
  {}

  lemma ScriptIs(a: nat, known: bool, dbOk: nat -> bool, faults: nat -> Fault)
    ensures Script(a, known, dbOk, faults)
         == [Open(a), ReadConfig(a, known)] + [LookUp(a, dbOk(0))] + [Deliver(a, faults(0))] + Rest(a, dbOk, faults)
  {}

  lemma Statuses()
    ensures forall running, f :: AnswerStatus(running, f) == Code200 ==> running
  {}

  lemma AfterReplies()
    ensures AfterReply(FirstStatus, Failure) == Finished(false) && AfterReply(FirstStatus, Code200) == Finished(true)
    ensures forall c: Answer :: c != Failure && c != Code200 ==> AfterReply(FirstStatus, c) == Routing(Create)
    ensures forall c: Answer :: AfterReply(Create, c) == if c == Code200 then Routing(LastStatus) else Finished(false)
    ensures forall c: Answer :: AfterReply(LastStatus, c) == Finished(c == Code200)
  {}

  predicate ActsFor(o: Other, a: nat) {
    match o
    case Open(b) => b == a
    case ReadConfig(b, _) => b == a
    case LookUp(b, _) => b == a
    case Deliver(b, _) => b == a
    case Drop(_) => false
  }

  lemma OthersSpare(w: World, o: Other, a: nat)
    requires a in w.actors && !ActsFor(o, a)
    ensures a in OtherStep(w, o).actors && OtherStep(w, o).actors[a] == w.actors[a]
  {}
}
