/** Moving one connection between two liercd instances while any number of
    streams open and recreate it. Every step that another process can observe
    (a database statement, the delivery of one request) is one action, so a
    sequence of actions is an interleaving. */
module MoveProtocol {
  import opened Wrappers

  datatype Instance = Main | Next

  /** The instance's name on the command line. */
  function Name(i: Instance): string {
    match i case Main => "main" case Next => "next"
  }

  /** The name as the column stores it; NULL and "" both mean main. */
  function Stored(i: Instance): string {
    match i case Main => "" case Next => "next"
  }

  /** Client.base: the instance a routed request goes to, None for the errors. */
  function Route(column: string, hasNext: bool): Option<Instance> {
    if column == "" then Some(Main)
    else if column == "next" && hasNext then Some(Next)
    else None
  }

  /** Client.For: the instance a pinned client talks to. */
  function For(name: string, hasNext: bool): Option<Instance> {
    if name == "main" then Some(Main)
    else if name == "next" && hasNext then Some(Next)
    else None
  }

  /** What the environment does to one request: it is answered in full, or a
      status that is neither 200 nor 404 comes back, or no answer does. `took`
      is whether a failing request changed the other end all the same. */
  datatype Fault = Clean | BadStatus(took: bool) | NoReply(took: bool)

  datatype Answer = Code200 | Code404 | OtherCode | Failure

  function Faulty(f: Fault): Answer
    requires !f.Clean?
  {
    if f.BadStatus? then OtherCode else Failure
  }

  predicate TakesEffect(f: Fault) { f.Clean? || f.took }

  function AnswerStatus(running: bool, f: Fault): Answer {
    if !f.Clean? then Faulty(f) else if running then Code200 else Code404
  }

  function AnswerDestroy(running: bool, f: Fault): Answer {
    AnswerStatus(running, f)
  }

  function AnswerCreate(f: Fault): Answer {
    if !f.Clean? then Faulty(f) else Code200
  }

  datatype Call = FirstStatus | Create | LastStatus

  /** One FindOrRecreate. A routed request reads the column first and is
      delivered later; `lookedUpAt` is the number of the action that read it. */
  datatype Actor =
    | ReadingConfig
    | Routing(call: Call)
    | Delivering(call: Call, to: Instance, lookedUpAt: nat)
    | Finished(found: bool)

  datatype Verb = Get | Destroy | Make

  datatype Request = Request(verb: Verb, to: Instance, answer: Answer)

  datatype Stage = Refused | SettingColumn | DestroyingAgain | CreatingThere

  /** moveOne's result: an error, or started with no error. */
  datatype Outcome = Failed(stage: Stage) | Moved(started: bool)

  datatype Pc =
    | Starting
    | Probing
    | DestroyingFirst
    | Recording
    | DestroyingSecond
    | Creating
    | Done(outcome: Outcome)

  /** The mover: where it is, its variables, and what it has asked liercd for. */
  datatype Mover = Mover(
    pc: Pc,
    target: Instance,
    source: Instance,
    wasRunning: bool,
    slippedIn: bool,
    requests: seq<Request>)

  /** What the processes share: the row's column, where the connection runs, the
      streams' requests, and the number of actions so far. */
  datatype World = World(
    column: string,
    running: set<Instance>,
    actors: map<nat, Actor>,
    hasNext: bool,
    now: nat)

  datatype State = State(w: World, mover: Mover)

  /** What everyone but the mover can do. */
  datatype Other =
    | Open(actor: nat)
    | ReadConfig(actor: nat, found: bool)
    | LookUp(actor: nat, dbOk: bool)
    | Deliver(actor: nat, fault: Fault)
    | Drop(inst: Instance)

  datatype Action = Theirs(other: Other) | Ours(fault: Fault)

  ghost predicate Init(s: State) {
    s.mover.pc == Starting && s.mover.requests == [] && s.w.actors == map[] && s.w.now == 0
  }

  function Run(running: set<Instance>, i: Instance, on: bool): set<Instance> {
    if on then running + {i} else running - {i}
  }

  /** FindOrRecreate after an answer to the request it made. */
  function AfterReply(call: Call, answer: Answer): Actor {
    match call
    case FirstStatus =>
      if answer == Failure then Finished(false)
      else if answer == Code200 then Finished(true)
      else Routing(Create)
    case Create => if answer == Code200 then Routing(LastStatus) else Finished(false)
    case LastStatus => Finished(answer == Code200)
  }

  function DeliverStep(w: World, a: nat, f: Fault): World
    requires a in w.actors && w.actors[a].Delivering?
  {
    var Delivering(call, to, _) := w.actors[a];
    if call == Create then
      w.(actors := w.actors[a := AfterReply(call, AnswerCreate(f))],
      running := if TakesEffect(f) then Run(w.running, to, true) else w.running)
    else
      w.(actors := w.actors[a := AfterReply(call, AnswerStatus(to in w.running, f))])
  }

  /** A step of a stream or of liercd itself; one that isn't possible changes nothing. */
  function OtherStep(w: World, o: Other): World {
    match o
    case Open(a) => if a in w.actors then w else w.(actors := w.actors[a := ReadingConfig])
    case ReadConfig(a, found) =>
      if a in w.actors && w.actors[a].ReadingConfig?
      then w.(actors := w.actors[a := if found then Routing(FirstStatus) else Finished(false)])
      else w
    case LookUp(a, dbOk) =>
      if a in w.actors && w.actors[a].Routing? then
        var to := if dbOk then Route(w.column, w.hasNext) else None;
        w.(actors := w.actors[a := if to.None? then Finished(false) else Delivering(w.actors[a].call, to.value, w.now)])
      else w
    case Deliver(a, f) => if a in w.actors && w.actors[a].Delivering? then DeliverStep(w, a, f) else w
    case Drop(i) => w.(running := Run(w.running, i, false))
  }

  function Asked(m: Mover, verb: Verb, to: Instance, answer: Answer): seq<Request> {
    m.requests + [Request(verb, to, answer)]
  }

  /** moveOne up to its first request: the lookups and every refusal. */
  function Begin(s: State, f: Fault): Mover {
    var m := s.mover;
    var sourceName := if s.w.column == "" then "main" else s.w.column;
    var source := For(sourceName, s.w.hasNext);
    if !f.Clean? || sourceName == Name(m.target) || (m.target == Next && !s.w.hasNext) || source.None?
    then m.(pc := Done(Failed(Refused)))
    else m.(pc := Probing, source := source.value)
  }

  /** The mover's next step, its request meeting fault f. */
  function OurStep(s: State, f: Fault): State {
    var m, running := s.mover, s.w.running;
    match m.pc
    case Starting => s.(mover := Begin(s, f))
    case Probing =>
      var answer := AnswerStatus(m.target in running, f);
      s.(mover := m.(requests := Asked(m, Get, m.target, answer),
      pc := if answer == Code404 then DestroyingFirst else Done(Failed(Refused))))
    case DestroyingFirst =>
      var answer := AnswerDestroy(m.source in running, f);
      State(s.w.(running := if TakesEffect(f) then Run(running, m.source, false) else running),
            m.(requests := Asked(m, Destroy, m.source, answer),
            wasRunning := answer == Code200,
            pc := if f.Clean? then Recording else Done(Failed(Refused))))
    case Recording =>
      State(s.w.(column := if TakesEffect(f) then Stored(m.target) else s.w.column),
            m.(pc := if f.Clean? then DestroyingSecond else Done(Failed(SettingColumn))))
    case DestroyingSecond =>
      var answer := AnswerDestroy(m.source in running, f);
      State(s.w.(running := if TakesEffect(f) then Run(running, m.source, false) else running),
            m.(requests := Asked(m, Destroy, m.source, answer),
            slippedIn := answer == Code200,
            pc := if !f.Clean? then Done(Failed(DestroyingAgain))
            else if m.wasRunning || answer == Code200 then Creating
            else Done(Moved(false))))
    case Creating =>
      var answer := AnswerCreate(f);
      State(s.w.(running := if TakesEffect(f) then Run(running, m.target, true) else running),
            m.(requests := Asked(m, Make, m.target, answer),
            pc := Done(if f.Clean? then Moved(true) else Failed(CreatingThere))))
    case Done(_) => s
  }

  function Step(s: State, a: Action): State {
    var s' := match a case Theirs(o) => s.(w := OtherStep(s.w, o)) case Ours(f) => OurStep(s, f);
    s'.(w := s'.w.(now := s.w.now + 1))
  }

  /** The state before action n of a run. */
  function At(s0: State, trace: seq<Action>, n: nat): State
    requires n <= |trace|
  {
    if n == 0 then s0 else Step(At(s0, trace, n - 1), trace[n - 1])
  }

  lemma {:induction false} AtPrefix(s0: State, trace: seq<Action>, more: seq<Action>, n: nat)
    requires n <= |trace|
    ensures At(s0, trace + more, n) == At(s0, trace, n)
  {
    if n > 0 { AtPrefix(s0, trace, more, n - 1); }
  }

  // ---- moveOne's result ----

  /** A destroy that was answered in full. */
  function Found(i: Instance, running: bool): Request {
    Request(Destroy, i, if running then Code200 else Code404)
  }

  /** The requests of a move up to its first and second destroy, both answered. */
  function Probe(m: Mover): Request { Request(Get, m.target, Code404) }

  function OneDestroy(m: Mover): seq<Request> { [Probe(m), Found(m.source, m.wasRunning)] }

  function BothDestroys(m: Mover): seq<Request> {
    [Probe(m), Found(m.source, m.wasRunning), Found(m.source, m.slippedIn)]
  }

  predicate Unanswered(r: Request, verb: Verb, to: Instance) {
    r.verb == verb && r.to == to && r.answer in {OtherCode, Failure}
  }

  /** What each result tells the operator. */
  ghost predicate Truthful(s0: State, s: State, o: Outcome) {
    var m := s.mover;
    var q := m.requests;
    match o
    case Moved(started) =>
      && s.w.column == Stored(m.target)
      && started == (m.wasRunning || m.slippedIn)
      && q == BothDestroys(m) + if started then [Request(Make, m.target, Code200)] else []
    case Failed(Refused) =>
      && s.w.column == s0.w.column
      && |q| <= 2
      && (|q| > 0 ==> q[0].verb == Get && q[0].to == m.target)
      && (|q| > 1 ==> q[0].answer == Code404 && Unanswered(q[1], Destroy, m.source))
    case Failed(SettingColumn) =>
      && s.w.column in {s0.w.column, Stored(m.target)}
      && q == OneDestroy(m)
    case Failed(DestroyingAgain) =>
      && s.w.column == Stored(m.target)
      && |q| == 3 && q[..2] == OneDestroy(m) && Unanswered(q[2], Destroy, m.source)
    case Failed(CreatingThere) =>
      && s.w.column == Stored(m.target)
      && (m.wasRunning || m.slippedIn)
      && |q| == 4 && q[..3] == BothDestroys(m) && Unanswered(q[3], Make, m.target)
  }

  /** The ends the move works on, once it has read them. */
  ghost predicate EndsInv(s0: State, s: State) {
    var m := s.mover;
    && m.target == s0.mover.target
    && s.w.hasNext == s0.w.hasNext
    && (m.requests != [] || !(m.pc.Starting? || m.pc.Done?) ==>
          m.source != m.target && For(if s0.w.column == "" then "main" else s0.w.column, s.w.hasNext) == Some(m.source))
  }

  /** What the requests sent so far and the column say at each point of moveOne. */
  ghost predicate MoverInv(s0: State, s: State) {
    var m := s.mover;
    && EndsInv(s0, s)
    && (match m.pc
        case Starting => m.requests == [] && s.w.column == s0.w.column
        case Probing => m.requests == [] && s.w.column == s0.w.column
        case DestroyingFirst => m.requests == [Probe(m)] && s.w.column == s0.w.column
        case Recording => m.requests == OneDestroy(m) && s.w.column == s0.w.column
        case DestroyingSecond => m.requests == OneDestroy(m) && s.w.column == Stored(m.target)
        case Creating => m.requests == BothDestroys(m) && s.w.column == Stored(m.target)
                         && (m.wasRunning || m.slippedIn)
        case Done(o) => Truthful(s0, s, o))
  }

  lemma OtherStepKeepsColumn(w: World, o: Other)
    ensures OtherStep(w, o).column == w.column && OtherStep(w, o).hasNext == w.hasNext && OtherStep(w, o).now == w.now
  {}

  lemma MoverStepKeepsInv(s0: State, s: State, f: Fault)
    requires MoverInv(s0, s)
    ensures MoverInv(s0, OurStep(s, f))
  {
    match s.mover.pc
    case Starting => EarlyStepKeepsInv(s0, s, f);
    case Probing => EarlyStepKeepsInv(s0, s, f);
    case DestroyingFirst => DestroyStepKeepsInv(s0, s, f);
    case DestroyingSecond => DestroyStepKeepsInv(s0, s, f);
    case Recording =>
    case Creating => CreateStepKeepsInv(s0, s, f);
    case Done(_) =>
  }

  lemma EarlyStepKeepsInv(s0: State, s: State, f: Fault)
    requires MoverInv(s0, s) && (s.mover.pc.Starting? || s.mover.pc.Probing?)
    ensures MoverInv(s0, OurStep(s, f))
  {}

  lemma DestroyStepKeepsInv(s0: State, s: State, f: Fault)
    requires MoverInv(s0, s) && (s.mover.pc.DestroyingFirst? || s.mover.pc.DestroyingSecond?)
    ensures MoverInv(s0, OurStep(s, f))
  {}

  lemma CreateStepKeepsInv(s0: State, s: State, f: Fault)
    requires MoverInv(s0, s) && s.mover.pc.Creating?
    ensures MoverInv(s0, OurStep(s, f))
  {}

  lemma {:induction false} MoverInvHolds(s0: State, trace: seq<Action>, n: nat)
    requires Init(s0) && n <= |trace|
    ensures MoverInv(s0, At(s0, trace, n)) && At(s0, trace, n).w.now == n
  {
    if n > 0 {
      MoverInvHolds(s0, trace, n - 1);
      var s := At(s0, trace, n - 1);
      match trace[n - 1]
      case Theirs(o) => OtherStepKeepsColumn(s.w, o);
      case Ours(f) => MoverStepKeepsInv(s0, s, f);
    }
  }

  /** In every interleaving, the result moveOne ends with is truthful. */
  lemma {:induction false} ResultIsTruthful(s0: State, trace: seq<Action>, n: nat)
    requires Init(s0) && n <= |trace|
    requires At(s0, trace, n).mover.pc.Done?
    ensures Truthful(s0, At(s0, trace, n), At(s0, trace, n).mover.pc.outcome)
  {
    MoverInvHolds(s0, trace, n);
  }

  // ---- exactly when each result is reached ----

  /** Action x, taken in state s, ends moveOne with this result. */
  predicate EndsWith(s: State, x: Action, o: Outcome) {
    x.Ours? &&
    match s.mover.pc
    case Starting => o == Failed(Refused) && Unmovable(s, x.fault)
    case Probing => o == Failed(Refused) && !(x.fault.Clean? && s.mover.target !in s.w.running)
    case DestroyingFirst => o == Failed(Refused) && !x.fault.Clean?
    case Recording => o == Failed(SettingColumn) && !x.fault.Clean?
    case DestroyingSecond =>
      if !x.fault.Clean? then o == Failed(DestroyingAgain)
      else o == Moved(false) && !s.mover.wasRunning && s.mover.source !in s.w.running
    case Creating => o == if x.fault.Clean? then Moved(true) else Failed(CreatingThere)
    case Done(_) => false
  }

  /** The refusals before the first request. */
  predicate Unmovable(s: State, f: Fault) {
    || !f.Clean?
    || s.w.column !in {"", "main", "next"}
    || (s.mover.target == Next <==> s.w.column == "next")
    || !s.w.hasNext
  }

  lemma StepEnds(s: State, x: Action, o: Outcome)
    ensures Step(s, x).mover.pc == Done(o) <==> s.mover.pc == Done(o) || EndsWith(s, x, o)
  {}

  /** In every run: moveOne has ended with a result exactly when some action ended it so. */
  lemma {:induction false} OutcomeIff(s0: State, trace: seq<Action>, n: nat, o: Outcome)
    requires Init(s0) && n <= |trace|
    ensures At(s0, trace, n).mover.pc == Done(o)
       <==> exists k: nat :: k < n && EndsWith(At(s0, trace, k), trace[k], o)
  {
    hide At, EndsWith;
    if n == 0 {
      NoActions(s0, trace);
    } else {
      OutcomeIff(s0, trace, n - 1, o);
      AtStep(s0, trace, n);
      StepEnds(At(s0, trace, n - 1), trace[n - 1], o);
    }
  }

  /** A move is refused exactly when a lookup fails; the column names the target,
      or no instance; next is one of the ends and has no host; the target is found
      running or doesn't answer as it should; or the first destroy isn't answered
      200 or 404. */
  lemma RefusedIff(s0: State, trace: seq<Action>, n: nat)
    requires Init(s0) && n <= |trace|
    ensures At(s0, trace, n).mover.pc == Done(Failed(Refused)) <==>
            exists k: nat :: k < n && trace[k].Ours? &&
                             var s, f := At(s0, trace, k), trace[k].fault;
                             || (s.mover.pc == Starting && (
                                   || !f.Clean?
                                   || (s0.w.column in {"", "main"} && s0.mover.target == Main)
                                   || (s0.w.column == "next" && s0.mover.target == Next)
                                   || s0.w.column !in {"", "main", "next"}
                                   || (!s0.w.hasNext && (s0.w.column == "next" || s0.mover.target == Next))))
                             || (s.mover.pc == Probing && !(f.Clean? && s0.mover.target !in s.w.running))
                             || (s.mover.pc == DestroyingFirst && !f.Clean?)
  {
    hide At, Init, MoverInv;
    OutcomeIff(s0, trace, n, Failed(Refused));
    forall k: nat | k < n
      ensures At(s0, trace, k).mover.target == s0.mover.target && At(s0, trace, k).w.hasNext == s0.w.hasNext
      ensures At(s0, trace, k).mover.pc == Starting ==> At(s0, trace, k).w.column == s0.w.column
    {
      MoverInvHolds(s0, trace, k);
      StillThere(s0, At(s0, trace, k));
    }
  }

  lemma StillThere(s0: State, s: State)
    requires MoverInv(s0, s)
    ensures s.mover.target == s0.mover.target && s.w.hasNext == s0.w.hasNext
    ensures s.mover.pc == Starting ==> s.w.column == s0.w.column
  {}

  /** Past the refusals, the source is main for "" and "main", and next for "next". */
  lemma SourceIs(s0: State, trace: seq<Action>, n: nat)
    requires Init(s0) && n <= |trace|
    requires At(s0, trace, n).mover.pc !in {Starting, Done(Failed(Refused))}
    ensures s0.w.column in {"", "main", "next"}
    ensures At(s0, trace, n).mover.source == if s0.w.column == "next" then Next else Main
    ensures At(s0, trace, n).mover.target == s0.mover.target != At(s0, trace, n).mover.source
  {
    hide At, Init;
    MoverInvHolds(s0, trace, n);
  }

  /** Action k is a destroy answered in full, sent at this point of moveOne, and
      found says whether the source was running as it arrived. */
  ghost predicate DestroyFound(s0: State, trace: seq<Action>, k: nat, pc: Pc, found: bool) {
    && k < |trace| && trace[k] == Ours(Clean)
    && var s := At(s0, trace, k);
    s.mover.pc == pc && found == (s.mover.source in s.w.running)
  }

  predicate PastFirst(pc: Pc) {
    pc in {Recording, DestroyingSecond, Creating} || (pc.Done? && pc.outcome != Failed(Refused))
  }

  predicate PastSecond(pc: Pc) {
    pc == Creating || (pc.Done? && (pc.outcome.Moved? || pc.outcome == Failed(CreatingThere)))
  }

  /** What moveOne remembers of its destroys is what they found. */
  lemma {:induction false} DestroysFound(s0: State, trace: seq<Action>, n: nat)
    requires Init(s0) && n <= |trace|
    ensures var m := At(s0, trace, n).mover;
            && (PastFirst(m.pc) ==> exists k: nat :: k < n && DestroyFound(s0, trace, k, DestroyingFirst, m.wasRunning))
            && (PastSecond(m.pc) ==>
                  exists k: nat :: k < n && DestroyFound(s0, trace, k, DestroyingSecond, m.slippedIn))
  {
    hide At;
    if n == 0 {
      NoActions(s0, trace);
    } else {
      DestroysFound(s0, trace, n - 1);
      AtStep(s0, trace, n);
      DestroyStep(At(s0, trace, n - 1), trace[n - 1]);
      var s, m := At(s0, trace, n - 1), At(s0, trace, n).mover;
      if PastFirst(m.pc) && !PastFirst(s.mover.pc) {
        assert DestroyFound(s0, trace, n - 1, DestroyingFirst, m.wasRunning);
      }
      if PastSecond(m.pc) && !PastSecond(s.mover.pc) {
        assert DestroyFound(s0, trace, n - 1, DestroyingSecond, m.slippedIn);
      }
    }
  }

  /** A step keeps what the mover remembers, or is the destroy that it comes from. */
  lemma DestroyStep(s: State, x: Action)
    ensures var m, m', found := s.mover, Step(s, x).mover, s.mover.source in s.w.running;
            && (PastFirst(m'.pc) ==>
                  || (PastFirst(m.pc) && m'.wasRunning == m.wasRunning)
                  || (m.pc == DestroyingFirst && x == Ours(Clean) && m'.wasRunning == found))
            && (PastSecond(m'.pc) ==>
                  || (PastSecond(m.pc) && m'.slippedIn == m.slippedIn)
                  || (m.pc == DestroyingSecond && x == Ours(Clean) && m'.slippedIn == found))
  {}

  // ---- the race with recreate-on-open ----

  /** How far the mover is; it never goes back. */
  function Rank(pc: Pc): nat {
    match pc
    case Starting => 0
    case Probing => 1
    case DestroyingFirst => 2
    case Recording => 3
    case DestroyingSecond => 4
    case Creating => 5
    case Done(_) => 6
  }

  lemma {:induction false} RankGrows(s0: State, trace: seq<Action>, m: nat, n: nat)
    requires m <= n <= |trace|
    ensures Rank(At(s0, trace, m).mover.pc) <= Rank(At(s0, trace, n).mover.pc)
  {
    if m < n {
      RankGrows(s0, trace, m, n - 1);
      var s := At(s0, trace, n - 1);
      if trace[n - 1].Theirs? { OtherStepKeepsColumn(s.w, trace[n - 1].other); }
    }
  }

  /** Action p is the SetLiercd that moves the connection. */
  ghost predicate Records(s0: State, trace: seq<Action>, p: nat) {
    p < |trace| && trace[p] == Ours(Clean) && At(s0, trace, p).mover.pc.Recording?
  }

  /** Action d is the second destroy, answered 200 or 404. */
  ghost predicate DestroyedAgain(s0: State, trace: seq<Action>, d: nat) {
    d < |trace| && trace[d] == Ours(Clean) && At(s0, trace, d).mover.pc.DestroyingSecond?
  }

  /** Action j is actor a's column lookup for a create, which finds instance i. */
  ghost predicate LooksUp(s0: State, trace: seq<Action>, j: nat, a: nat, i: Instance) {
    && j < |trace| && trace[j] == Theirs(LookUp(a, true))
    && var s := At(s0, trace, j);
    a in s.w.actors && s.w.actors[a] == Routing(Create) && Route(s.w.column, s.w.hasNext) == Some(i)
  }

  /** Action k is the delivery, with effect on instance i, of a create looked up at j. */
  ghost predicate Lands(s0: State, trace: seq<Action>, k: nat, a: nat, j: nat, i: Instance) {
    && k < |trace| && trace[k].Theirs? && trace[k].other.Deliver? && trace[k].other.actor == a
    && TakesEffect(trace[k].other.fault)
    && var s := At(s0, trace, k);
    a in s.w.actors && s.w.actors[a] == Delivering(Create, i, j)
  }

  /** A create looked up before SetLiercd (p) and delivered after the second
      destroy (d), which instance i hasn't dropped since. */
  ghost predicate StaleCreate(s0: State, trace: seq<Action>, p: nat, d: nat, n: nat, i: Instance, a: nat, j: nat,
                              k: nat) {
    && j < p < d < k < n <= |trace|
    && LooksUp(s0, trace, j, a, i)
    && Lands(s0, trace, k, a, j, i)
    && forall e :: k < e < n ==> trace[e] != Theirs(Drop(i))
  }

  /** A create on its way after one action was on its way before, or has just been looked up. */
  lemma DeliveringAfterStep(s: State, x: Action, a: nat)
    requires a in Step(s, x).w.actors && Step(s, x).w.actors[a].Delivering?
    ensures a in s.w.actors
    ensures if s.w.actors[a] == Step(s, x).w.actors[a]
            then !(x.Theirs? && x.other.Deliver? && x.other.actor == a)
            else x == Theirs(LookUp(a, true)) && s.w.actors[a].Routing?
                 && Some(Step(s, x).w.actors[a].to) == Route(s.w.column, s.w.hasNext)
                 && Step(s, x).w.actors[a].call == s.w.actors[a].call
                 && Step(s, x).w.actors[a].lookedUpAt == s.w.now
  {}

  /** A routed create on its way was looked up by its own actor, which has delivered nothing since. */
  lemma {:induction false} LookupOf(s0: State, trace: seq<Action>, n: nat, a: nat)
    requires Init(s0) && n <= |trace|
    requires a in At(s0, trace, n).w.actors
    requires At(s0, trace, n).w.actors[a].Delivering? && At(s0, trace, n).w.actors[a].call == Create
    ensures var q := At(s0, trace, n).w.actors[a];
            q.lookedUpAt < n && LooksUp(s0, trace, q.lookedUpAt, a, q.to)
            && forall i :: q.lookedUpAt < i < n ==>
                             !(trace[i].Theirs? && trace[i].other.Deliver? && trace[i].other.actor == a)
  {
    if n > 0 {
      var s := At(s0, trace, n - 1);
      DeliveringAfterStep(s, trace[n - 1], a);
      if s.w.actors[a] == At(s0, trace, n).w.actors[a] {
        LookupOf(s0, trace, n - 1, a);
      } else {
        MoverInvHolds(s0, trace, n - 1);
      }
    }
  }

  /** Once SetLiercd has run, the column names the target, and the source stays the source. */
  lemma AfterRecording(s0: State, trace: seq<Action>, p: nat, n: nat)
    requires Init(s0) && Records(s0, trace, p) && p < n <= |trace|
    ensures var s, m := At(s0, trace, n), At(s0, trace, p).mover;
            && s.w.column == Stored(m.target) && s.mover.target == m.target && s.mover.source == m.source
            && m.source != m.target
            && Rank(s.mover.pc) >= 4
  {
    MoverInvHolds(s0, trace, p);
    MoverInvHolds(s0, trace, p + 1);
    MoverInvHolds(s0, trace, n);
    RankGrows(s0, trace, p + 1, n);
    StaysRecorded(s0, trace, p, n);
  }

  lemma {:induction false} StaysRecorded(s0: State, trace: seq<Action>, p: nat, n: nat)
    requires Records(s0, trace, p) && p < n <= |trace|
    ensures var s := At(s0, trace, n);
            s.w.column == Stored(At(s0, trace, p).mover.target)
            && s.mover.source == At(s0, trace, p).mover.source && s.mover.target == At(s0, trace, p).mover.target
  {
    hide At;
    AtStep(s0, trace, n);
    if p + 1 < n {
      StaysRecorded(s0, trace, p, n - 1);
      RankGrows(s0, trace, p + 1, n - 1);
      RankRecorded(s0, trace, p);
      StepStaysRecorded(At(s0, trace, n - 1), trace[n - 1]);
    }
  }

  lemma RankRecorded(s0: State, trace: seq<Action>, p: nat)
    requires Records(s0, trace, p)
    ensures Rank(At(s0, trace, p + 1).mover.pc) >= 4
  {}

  lemma StepStaysRecorded(s: State, x: Action)
    requires Rank(s.mover.pc) >= 4
    ensures Step(s, x).w.column == s.w.column
    ensures Step(s, x).mover.source == s.mover.source && Step(s, x).mover.target == s.mover.target
  {
    if x.Theirs? { OtherStepKeepsColumn(s.w, x.other); }
  }

  /** What FindOrRecreate makes of each delivery: done with a status of 200 or no
      answer at all, otherwise a create; done unless that was answered 200; and then
      whatever the second status says. */
  lemma StreamSteps(w: World, a: nat, f: Fault)
    requires a in w.actors && w.actors[a].Delivering?
    ensures var Delivering(call, to, _) := w.actors[a];
            var next := OtherStep(w, Deliver(a, f)).actors[a];
            && (call == FirstStatus ==>
                  next == if f.Clean? && to in w.running then Finished(true)
                  else if f.NoReply? then Finished(false)
                  else Routing(Create))
            && (call == Create ==> next == if f.Clean? then Routing(LastStatus) else Finished(false))
            && (call == LastStatus ==> next == Finished(f.Clean? && to in w.running))
  {}

  /** And of each step before one: the config, then the column. */
  lemma StreamRoutes(w: World, a: nat, o: Other)
    requires a in w.actors
    ensures w.actors[a].ReadingConfig? && o.ReadConfig? && o.actor == a ==>
              OtherStep(w, o).actors[a] == if o.found then Routing(FirstStatus) else Finished(false)
    ensures w.actors[a].Routing? && o.LookUp? && o.actor == a ==>
              OtherStep(w, o).actors[a]
              == if o.dbOk && w.column == "" then Delivering(w.actors[a].call, Main, w.now)
              else if o.dbOk && w.column == "next" && w.hasNext then Delivering(w.actors[a].call, Next, w.now)
              else Finished(false)
  {}

  // ---- when an instance runs the connection ----

  /** Action x, taken in state s, starts the connection on i. */
  predicate StartsOn(s: State, x: Action, i: Instance) {
    if x.Ours? then TakesEffect(x.fault) && s.mover.pc.Creating? && s.mover.target == i
    else
      && x.other.Deliver? && TakesEffect(x.other.fault)
      && var a := x.other.actor;
      a in s.w.actors && s.w.actors[a].Delivering? && s.w.actors[a].call == Create && s.w.actors[a].to == i
  }

  /** Action x, taken in state s, stops it there, if it runs. */
  predicate StopsOn(s: State, x: Action, i: Instance) {
    || x == Theirs(Drop(i))
    || (x.Ours? && TakesEffect(x.fault) && s.mover.source == i
        && (s.mover.pc.DestroyingFirst? || s.mover.pc.DestroyingSecond?))
  }

  lemma StepRuns(s: State, x: Action, i: Instance)
    ensures i in Step(s, x).w.running <==> StartsOn(s, x, i) || (i in s.w.running && !StopsOn(s, x, i))
  {}

  /** Nothing stops i in the actions from lo to n. */
  ghost predicate Undisturbed(s0: State, trace: seq<Action>, lo: nat, n: nat, i: Instance) {
    n <= |trace| && forall e :: lo <= e < n ==> !StopsOn(At(s0, trace, e), trace[e], i)
  }

  ghost predicate StillRuns(s0: State, trace: seq<Action>, n: nat, i: Instance) {
    i in s0.w.running && Undisturbed(s0, trace, 0, n, i)
  }

  ghost predicate StartedAt(s0: State, trace: seq<Action>, n: nat, i: Instance, k: nat) {
    k < n <= |trace| && StartsOn(At(s0, trace, k), trace[k], i) && Undisturbed(s0, trace, k + 1, n, i)
  }

  ghost predicate Started(s0: State, trace: seq<Action>, n: nat, i: Instance) {
    exists k: nat :: StartedAt(s0, trace, n, i, k)
  }

  lemma {:induction false} RunsSinceStart(s0: State, trace: seq<Action>, n: nat, i: Instance)
    requires n <= |trace|
    ensures i in At(s0, trace, n).w.running <==> StillRuns(s0, trace, n, i) || Started(s0, trace, n, i)
  {
    hide At, StartsOn, StopsOn;
    if n == 0 {
      NoActions(s0, trace);
    } else {
      RunsSinceStart(s0, trace, n - 1, i);
      AtStep(s0, trace, n);
      StepRuns(At(s0, trace, n - 1), trace[n - 1], i);
      StartedStep(s0, trace, n, i);
    }
  }

  lemma StartedStep(s0: State, trace: seq<Action>, n: nat, i: Instance)
    requires 0 < n <= |trace|
    ensures var starts, stops := StartsOn(At(s0, trace, n - 1), trace[n - 1], i),
                                 StopsOn(At(s0, trace, n - 1), trace[n - 1], i);
            && (StillRuns(s0, trace, n, i) <==> StillRuns(s0, trace, n - 1, i) && !stops)
            && (Started(s0, trace, n, i) <==> starts || (!stops && Started(s0, trace, n - 1, i)))
  {
    hide At, StartsOn, StopsOn;
    var starts, stops := StartsOn(At(s0, trace, n - 1), trace[n - 1], i),
                         StopsOn(At(s0, trace, n - 1), trace[n - 1], i);
    if starts { assert StartedAt(s0, trace, n, i, n - 1); }
    if k: nat :| StartedAt(s0, trace, n, i, k) {
      if k < n - 1 { assert StartedAt(s0, trace, n - 1, i, k); }
    }
    var m := n - 1;
    if k: nat :| StartedAt(s0, trace, m, i, k) {
      if !stops { assert StartedAt(s0, trace, n, i, k); }
    }
  }

  lemma NoActions(s0: State, trace: seq<Action>)
    ensures At(s0, trace, 0) == s0
  {}

  lemma AtStep(s0: State, trace: seq<Action>, n: nat)
    requires 0 < n <= |trace|
    ensures At(s0, trace, n) == Step(At(s0, trace, n - 1), trace[n - 1])
  {}

  /** A create for i, looked up at j by actor a, landed at k, and i has not been stopped since. */
  ghost predicate Recreated(s0: State, trace: seq<Action>, n: nat, i: Instance, a: nat, j: nat, k: nat) {
    && j < k < n <= |trace|
    && LooksUp(s0, trace, j, a, i) && Lands(s0, trace, k, a, j, i)
    && Undisturbed(s0, trace, k + 1, n, i)
  }

  /** The mover's create on i took effect at k, and i has not been stopped since. */
  ghost predicate MoverCreated(s0: State, trace: seq<Action>, n: nat, i: Instance, k: nat) {
    && k < n <= |trace|
    && trace[k].Ours? && TakesEffect(trace[k].fault)
    && At(s0, trace, k).mover.pc.Creating? && At(s0, trace, k).mover.target == i
    && Undisturbed(s0, trace, k + 1, n, i)
  }

  /** In every run and at every point of it: an instance runs the connection
      exactly when it did at first, or a routed create or the mover's took effect
      there, and nothing has stopped it there since. */
  lemma RunsIff(s0: State, trace: seq<Action>, n: nat, i: Instance)
    requires Init(s0) && n <= |trace|
    ensures i in At(s0, trace, n).w.running <==>
            || StillRuns(s0, trace, n, i)
            || (exists a, j, k :: Recreated(s0, trace, n, i, a, j, k))
            || (exists k :: MoverCreated(s0, trace, n, i, k))
  {
    hide At, Init, LooksUp, Undisturbed, StillRuns;
    RunsSinceStart(s0, trace, n, i);
    if k: nat :| StartedAt(s0, trace, n, i, k) {
      if trace[k].Ours? {
        assert MoverCreated(s0, trace, n, i, k);
      } else {
        var a := trace[k].other.actor;
        LookupOf(s0, trace, k, a);
        assert Recreated(s0, trace, n, i, a, At(s0, trace, k).w.actors[a].lookedUpAt, k);
      }
    }
    if a, j, k :| Recreated(s0, trace, n, i, a, j, k) { assert StartedAt(s0, trace, n, i, k); }
    if k :| MoverCreated(s0, trace, n, i, k) { assert StartedAt(s0, trace, n, i, k); }
  }

  // ---- both at once ----

  function OtherThan(i: Instance): Instance { if i == Main then Next else Main }

  /** The instance that requests were routed to when the run began. */
  function Home(s0: State): Option<Instance> { Route(s0.w.column, s0.w.hasNext) }

  /** Action p is a SetLiercd that takes effect, answered or not. */
  ghost predicate Writes(s0: State, trace: seq<Action>, p: nat) {
    p < |trace| && trace[p].Ours? && TakesEffect(trace[p].fault) && At(s0, trace, p).mover.pc.Recording?
  }

  ghost predicate WrittenBy(s0: State, trace: seq<Action>, n: nat) {
    exists p: nat :: p < n && Writes(s0, trace, p)
  }

  /** The column names the target once SetLiercd has taken effect, and is as it was until then. */
  lemma {:induction false} ColumnIs(s0: State, trace: seq<Action>, n: nat)
    requires Init(s0) && n <= |trace|
    ensures var w := At(s0, trace, n).w;
            && w.hasNext == s0.w.hasNext
            && w.column == if WrittenBy(s0, trace, n) then Stored(s0.mover.target) else s0.w.column
    ensures WrittenBy(s0, trace, n) ==> Home(s0) != Some(s0.mover.target)
  {
    hide At, Init, MoverInv;
    if n == 0 {
      NoActions(s0, trace);
    } else {
      ColumnIs(s0, trace, n - 1);
      MoverInvHolds(s0, trace, n - 1);
      AtStep(s0, trace, n);
      ColumnStep(s0, At(s0, trace, n - 1), trace[n - 1]);
      if Writes(s0, trace, n - 1) { assert WrittenBy(s0, trace, n); }
      if p: nat :| p < n && Writes(s0, trace, p) { assert p < n - 1 || p == n - 1; }
    }
  }

  lemma ColumnStep(s0: State, s: State, x: Action)
    requires MoverInv(s0, s)
    ensures Step(s, x).w.hasNext == s.w.hasNext == s0.w.hasNext
    ensures var writes := x.Ours? && TakesEffect(x.fault) && s.mover.pc.Recording?;
            && Step(s, x).w.column == (if writes then Stored(s0.mover.target) else s.w.column)
            && (writes ==> Home(s0) != Some(s0.mover.target))
  {
    if x.Theirs? { OtherStepKeepsColumn(s.w, x.other); }
  }

  /** A create is looked up for the first instance before SetLiercd and for the target after it. */
  lemma LookupSide(s0: State, trace: seq<Action>, j: nat, a: nat, i: Instance)
    requires Init(s0) && LooksUp(s0, trace, j, a, i)
    ensures if WrittenBy(s0, trace, j) then i == s0.mover.target && Home(s0) != Some(i) else Home(s0) == Some(i)
  {
    hide At, Init, WrittenBy;
    ColumnIs(s0, trace, j);
  }

  /** Why the instance that isn't the target runs the connection: it did at first,
      or a create was looked up before SetLiercd. */
  ghost predicate RunsOnOld(s0: State, trace: seq<Action>, n: nat) {
    var i := OtherThan(s0.mover.target);
    || StillRuns(s0, trace, n, i)
    || exists a, j, k :: Recreated(s0, trace, n, i, a, j, k) && !WrittenBy(s0, trace, j)
  }

  /** Why the target runs it: it did at first, the mover created it, or a create was
      looked up after SetLiercd, unless requests were routed to the target from the
      first (a move that is refused). */
  ghost predicate RunsOnNew(s0: State, trace: seq<Action>, n: nat) {
    var i := s0.mover.target;
    || StillRuns(s0, trace, n, i)
    || (exists k :: MoverCreated(s0, trace, n, i, k))
    || exists a, j, k :: Recreated(s0, trace, n, i, a, j, k) && (WrittenBy(s0, trace, j) || Home(s0) == Some(i))
  }

  lemma {:induction false} TargetStays(s0: State, trace: seq<Action>, n: nat)
    requires Init(s0) && n <= |trace|
    ensures At(s0, trace, n).mover.target == s0.mover.target
  {
    hide At, Init, EndsInv;
    MoverInvHolds(s0, trace, n);
    EndsTarget(s0, At(s0, trace, n));
  }

  lemma EndsTarget(s0: State, s: State)
    requires MoverInv(s0, s)
    ensures s.mover.target == s0.mover.target
  {}

  /** The design promises that a connection runs on exactly one instance at a
      time. In every run and at every point of it, it runs on both exactly when
      each end has a reason of its own to run it. */
  lemma BothRunIff(s0: State, trace: seq<Action>, n: nat)
    requires Init(s0) && n <= |trace|
    ensures At(s0, trace, n).w.running == {Main, Next} <==> RunsOnOld(s0, trace, n) && RunsOnNew(s0, trace, n)
  {
    hide At, Init, StillRuns, Recreated, MoverCreated, WrittenBy, RunsOnOld, RunsOnNew;
    OldRunsIff(s0, trace, n);
    NewRunsIff(s0, trace, n);
    OnlyTwo(At(s0, trace, n).w.running);
  }

  lemma OnlyTwo(running: set<Instance>)
    ensures running == {Main, Next} <==> Main in running && Next in running
  {
    forall i | i in running
      ensures i in {Main, Next}
    {
      match i case Main => case Next =>
    }
  }

  lemma OldRunsIff(s0: State, trace: seq<Action>, n: nat)
    requires Init(s0) && n <= |trace|
    ensures OtherThan(s0.mover.target) in At(s0, trace, n).w.running <==> RunsOnOld(s0, trace, n)
  {
    hide At, Init, StillRuns, LooksUp, Lands, Undisturbed, WrittenBy;
    var i := OtherThan(s0.mover.target);
    RunsIff(s0, trace, n, i);
    if k :| MoverCreated(s0, trace, n, i, k) { TargetStays(s0, trace, k); }
    forall a, j, k | Recreated(s0, trace, n, i, a, j, k)
      ensures !WrittenBy(s0, trace, j)
    {
      LookupSide(s0, trace, j, a, i);
    }
  }

  lemma NewRunsIff(s0: State, trace: seq<Action>, n: nat)
    requires Init(s0) && n <= |trace|
    ensures s0.mover.target in At(s0, trace, n).w.running <==> RunsOnNew(s0, trace, n)
  {
    hide At, Init, StillRuns, LooksUp, Lands, Undisturbed, WrittenBy, MoverCreated;
    var i := s0.mover.target;
    RunsIff(s0, trace, n, i);
    forall a, j, k | Recreated(s0, trace, n, i, a, j, k)
      ensures WrittenBy(s0, trace, j) || Home(s0) == Some(i)
    {
      LookupSide(s0, trace, j, a, i);
    }
  }

  // ---- after the second destroy ----

  /** Once the second source destroy has been answered, the source runs exactly
      when a create was looked up before SetLiercd, landed after that destroy,
      and has not been dropped by liercd since. */
  lemma SourceRunsIffStaleCreate(s0: State, trace: seq<Action>, p: nat, d: nat, n: nat)
    requires Init(s0) && Records(s0, trace, p) && DestroyedAgain(s0, trace, d) && d < n <= |trace|
    ensures var src := At(s0, trace, p).mover.source;
            src in At(s0, trace, n).w.running <==> exists a, j, k :: StaleCreate(s0, trace, p, d, n, src, a, j, k)
  {
    hide At, Init, LooksUp, Lands;
    var src := At(s0, trace, p).mover.source;
    RecordsFirst(s0, trace, p, d);
    AfterRecording(s0, trace, p, d);
    RunsIff(s0, trace, n, src);
    assert StopsOn(At(s0, trace, d), trace[d], src);
    TargetStays(s0, trace, d);
    if k :| MoverCreated(s0, trace, n, src, k) { TargetStays(s0, trace, k); }
    if a, j, k :| Recreated(s0, trace, n, src, a, j, k) {
      RecreatedIsStale(s0, trace, p, d, n, src, a, j, k);
    }
    if a, j, k :| StaleCreate(s0, trace, p, d, n, src, a, j, k) {
      StaleIsRecreated(s0, trace, p, d, n, src, a, j, k);
    }
  }

  /** SetLiercd comes before the second destroy. */
  lemma RecordsFirst(s0: State, trace: seq<Action>, p: nat, d: nat)
    requires Records(s0, trace, p) && DestroyedAgain(s0, trace, d)
    ensures p < d
  {
    hide At;
    if d < p { RankGrows(s0, trace, d, p); }
  }

  lemma RecreatedIsStale(s0: State, trace: seq<Action>, p: nat, d: nat, n: nat, i: Instance, a: nat, j: nat, k: nat)
    requires Init(s0) && Records(s0, trace, p) && DestroyedAgain(s0, trace, d) && p < d
    requires Recreated(s0, trace, n, i, a, j, k) && d < n
    requires i != s0.mover.target && StopsOn(At(s0, trace, d), trace[d], i)
    ensures StaleCreate(s0, trace, p, d, n, i, a, j, k)
  {
    hide At, Init;
    LookupSide(s0, trace, j, a, i);
    assert Writes(s0, trace, p);
    if k < d { NotStopped(s0, trace, k, n, i, d); }
    forall e | k < e < n
      ensures trace[e] != Theirs(Drop(i))
    {
      assert !StopsOn(At(s0, trace, e), trace[e], i);
    }
  }

  lemma NotStopped(s0: State, trace: seq<Action>, k: nat, n: nat, i: Instance, e: nat)
    requires Undisturbed(s0, trace, k + 1, n, i) && k < e < n
    ensures !StopsOn(At(s0, trace, e), trace[e], i)
  {}

  lemma StaleIsRecreated(s0: State, trace: seq<Action>, p: nat, d: nat, n: nat, i: Instance, a: nat, j: nat, k: nat)
    requires DestroyedAgain(s0, trace, d) && StaleCreate(s0, trace, p, d, n, i, a, j, k)
    ensures Recreated(s0, trace, n, i, a, j, k)
  {
    hide At, LooksUp, Lands;
    PastDestroys(s0, trace, d);
    forall e | k < e < n
      ensures !StopsOn(At(s0, trace, e), trace[e], i)
    {
      RankGrows(s0, trace, d + 1, e);
    }
  }

  lemma PastDestroys(s0: State, trace: seq<Action>, d: nat)
    requires DestroyedAgain(s0, trace, d)
    ensures Rank(At(s0, trace, d + 1).mover.pc) >= 5
  {
    hide At;
    AtStep(s0, trace, d + 1);
  }

  /** Every routed create is delivered in the action after its lookup. */
  ghost predicate RoutedAtomically(s0: State, trace: seq<Action>) {
    forall j: nat, a: nat, i :: LooksUp(s0, trace, j, a, i) && j + 1 < |trace| ==>
                                  trace[j + 1].Theirs? && trace[j + 1].other.Deliver? && trace[j + 1].other.actor == a
  }

  /** With atomic routing the second destroy is final: the source never runs again. */
  lemma AtomicRoutingNeverStale(s0: State, trace: seq<Action>, p: nat, d: nat, n: nat)
    requires Init(s0) && Records(s0, trace, p) && DestroyedAgain(s0, trace, d) && d < n <= |trace|
    requires RoutedAtomically(s0, trace)
    ensures At(s0, trace, p).mover.source !in At(s0, trace, n).w.running
  {
    SourceRunsIffStaleCreate(s0, trace, p, d, n);
    var src := At(s0, trace, p).mover.source;
    if a, j, k :| StaleCreate(s0, trace, p, d, n, src, a, j, k) {
      LookupOf(s0, trace, k, a);
    }
  }

  // ---- without a recreate ----

  /** No recreate reaches a liercd in the first n actions. */
  ghost predicate NoRecreate(s0: State, trace: seq<Action>, n: nat)
    requires n <= |trace|
  {
    forall k: nat, a: nat, j: nat, i :: k < n ==> !Lands(s0, trace, k, a, j, i)
  }

  /** Where each end can run while only the mover acts. */
  ghost predicate AloneInv(s: State) {
    var m := s.mover;
    && !(Main in s.w.running && Next in s.w.running)
    && (m.pc.DestroyingFirst? || m.pc.Recording? || m.pc.DestroyingSecond? || m.pc.Creating? ==>
          m.target !in s.w.running && m.source != m.target)
    && (m.pc.Recording? || m.pc.DestroyingSecond? || m.pc.Creating? ==> m.source !in s.w.running)
  }

  /** Without a recreate landing, the two instances never both run the connection. */
  lemma {:induction false} NeverBothWithoutRecreate(s0: State, trace: seq<Action>, n: nat)
    requires Init(s0) && n <= |trace| && NoRecreate(s0, trace, n)
    requires !(Main in s0.w.running && Next in s0.w.running)
    ensures AloneInv(At(s0, trace, n))
  {
    if n > 0 {
      NeverBothWithoutRecreate(s0, trace, n - 1);
      MoverInvHolds(s0, trace, n - 1);
      MoverInvHolds(s0, trace, n);
      var s := At(s0, trace, n - 1);
      match trace[n - 1]
      case Ours(f) => OurStepAlone(s, f);
      case Theirs(o) =>
        if o.Deliver? && o.actor in s.w.actors && s.w.actors[o.actor].Delivering? {
          assert !Lands(s0, trace, n - 1, o.actor, s.w.actors[o.actor].lookedUpAt, s.w.actors[o.actor].to);
        }
    }
  }

  lemma OurStepAlone(s: State, f: Fault)
    requires AloneInv(s)
    requires s.mover.pc.Probing? ==> s.mover.source != s.mover.target
    ensures AloneInv(OurStep(s, f))
  {}

  /** moveOne reports a started connection only after its create was answered
      200, and the target was running then. */
  lemma {:induction false} StartedMeansCreated(s0: State, trace: seq<Action>, n: nat) returns (k: nat)
    requires Init(s0) && n <= |trace| && At(s0, trace, n).mover.pc == Done(Moved(true))
    ensures k < n && trace[k] == Ours(Clean) && At(s0, trace, k).mover.pc.Creating?
    ensures At(s0, trace, n).mover.target in At(s0, trace, k + 1).w.running
    ensures At(s0, trace, k + 1).w.column == Stored(At(s0, trace, n).mover.target)
  {
    hide At, Init, MoverInv;
    DoneLater(s0, trace, n);
    MoverInvHolds(s0, trace, n - 1);
    AtStep(s0, trace, n);
    StartingStep(s0, At(s0, trace, n - 1), trace[n - 1]);
    if At(s0, trace, n - 1).mover.pc.Done? {
      k := StartedMeansCreated(s0, trace, n - 1);
    } else {
      k := n - 1;
    }
  }

  lemma DoneLater(s0: State, trace: seq<Action>, n: nat)
    requires Init(s0) && n <= |trace| && At(s0, trace, n).mover.pc.Done?
    ensures n > 0
  {}

  lemma StartingStep(s0: State, s: State, x: Action)
    requires MoverInv(s0, s) && Step(s, x).mover.pc == Done(Moved(true))
    ensures if s.mover.pc.Done? then Step(s, x).mover == s.mover
            else x == Ours(Clean) && s.mover.pc.Creating? && Step(s, x).mover.target in Step(s, x).w.running
                 && Step(s, x).w.column == Stored(Step(s, x).mover.target)
  {
    if x.Theirs? { OtherStepKeepsColumn(s.w, x.other); }
  }

  lemma Extend(s0: State, trace: seq<Action>, s: State, x: Action) returns (longer: seq<Action>, s': State)
    requires At(s0, trace, |trace|) == s
    ensures longer == trace + [x] && s' == Step(s, x) == At(s0, longer, |longer|)
  {
    longer, s' := trace + [x], Step(s, x);
    AtPrefix(s0, trace, [x], |trace|);
  }

  const OPENS: seq<Action> :=
    [Ours(Clean), Ours(Clean), Theirs(Open(0)), Theirs(ReadConfig(0, true)),
     Ours(Clean), Theirs(LookUp(0, true)), Theirs(Deliver(0, Clean))]

  /** This run, which ends with moveOne reporting success, has both running: a
      create looked up before SetLiercd lands after the second destroy. */
  lemma StaleCreateRunsOnBoth()
    ensures exists s0, trace ::
              && Init(s0) && s0.w.running == {Main} && s0.w.column == ""
              && At(s0, trace, |trace|).mover.pc == Done(Moved(true))
              && At(s0, trace, |trace|).w.running == {Main, Next}
  {
    hide Init, At;
    var s0, trace, s := MoveFinishes();
    trace, s := Extend(s0, trace, s, Theirs(Deliver(0, Clean)));
  }

  /** The stream looks its create up, and the move ends before it is delivered. */
  lemma MoveFinishes() returns (s0: State, trace: seq<Action>, s: State)
    ensures Init(s0) && s0.w.running == {Main} && s0.w.column == "" && s == At(s0, trace, |trace|)
    ensures s.mover.pc == Done(Moved(true)) && s.w.running == {Next}
    ensures 0 in s.w.actors && s.w.actors[0].Delivering? && s.w.actors[0].call == Create && s.w.actors[0].to == Main
  {
    hide Init, At;
    s0, trace, s := RecreateSlipsIn();
    trace, s := Extend(s0, trace, s, Theirs(LookUp(0, true)));
    trace, s := Extend(s0, trace, s, Ours(Clean));
    trace, s := Extend(s0, trace, s, Ours(Clean));
    trace, s := Extend(s0, trace, s, Ours(Clean));
  }

  /** A stream that opens during a move to next and is about to create on main. */
  lemma RecreateSlipsIn() returns (s0: State, trace: seq<Action>, s: State)
    ensures Init(s0) && s0.w.running == {Main} && s0.w.column == "" && s == At(s0, trace, |trace|) && trace == OPENS
    ensures s.w.column == "" && s.w.running == {} && s.w.hasNext && s.w.actors == map[0 := Routing(Create)]
    ensures s.mover.pc == Recording && s.mover.wasRunning && s.mover.source == Main && s.mover.target == Next
  {
    hide At;
    s0, trace, s := StreamOpens();
    trace, s := Extend(s0, trace, s, Ours(Clean));
    trace, s := Extend(s0, trace, s, Theirs(LookUp(0, true)));
    trace, s := Extend(s0, trace, s, Theirs(Deliver(0, Clean)));
  }

  lemma StreamOpens() returns (s0: State, trace: seq<Action>, s: State)
    ensures Init(s0) && s0.w.running == {Main} && s0.w.column == "" && s == At(s0, trace, |trace|)
            && trace == OPENS[..4]
    ensures s.w == World("", {Main}, map[0 := Routing(FirstStatus)], true, 4)
    ensures s.mover.pc == DestroyingFirst && s.mover.source == Main && s.mover.target == Next
  {
    s0 := State(World("", {Main}, map[], true, 0), Mover(Starting, Next, Main, false, false, []));
    NoActions(s0, []);
    hide At;
    trace, s := Extend(s0, [], s0, Ours(Clean));
    trace, s := Extend(s0, trace, s, Ours(Clean));
    trace, s := Extend(s0, trace, s, Theirs(Open(0)));
    trace, s := Extend(s0, trace, s, Theirs(ReadConfig(0, true)));
  }

  const OVERLAP: seq<Action> :=
    OPENS
    + [Theirs(LookUp(0, true)), Theirs(Deliver(0, Clean)), Ours(Clean)]
    + [Theirs(Open(1)), Theirs(ReadConfig(1, true)), Theirs(LookUp(1, true)), Theirs(Deliver(1, Clean))]
    + [Theirs(LookUp(1, true)), Theirs(Deliver(1, Clean))]

  /** In this run both run before the second destroy, though every routed request
      is delivered right after its lookup: one stream recreates the connection on
      main before SetLiercd, and another on next after it. */
  lemma OverlapRunsOnBoth()
    ensures exists s0 ::
              && Init(s0) && s0.w.running == {Main} && s0.w.column == "" && RoutedAtomically(s0, OVERLAP)
              && At(s0, OVERLAP, |OVERLAP|).mover.pc == DestroyingSecond
              && At(s0, OVERLAP, |OVERLAP|).w.running == {Main, Next}
  {
    hide Init, At, RoutedAtomically;
    var s0, trace, s := OverlapStarts();
    trace, s := Extend(s0, trace, s, Theirs(LookUp(1, true)));
    trace, s := Extend(s0, trace, s, Theirs(Deliver(1, Clean)));
    assert trace == OVERLAP;
    OverlapIsAtomic(s0);
  }

  lemma OverlapStarts() returns (s0: State, trace: seq<Action>, s: State)
    ensures Init(s0) && s0.w.running == {Main} && s0.w.column == "" && s == At(s0, trace, |trace|)
            && trace == OVERLAP[..14]
    ensures s.w.column == "next" && s.w.running == {Main} && s.w.hasNext && 1 in s.w.actors
            && s.w.actors[1] == Routing(Create)
    ensures s.mover.pc == DestroyingSecond
  {
    hide Init, At;
    s0, trace, s := OldRunsAgain();
    trace, s := Extend(s0, trace, s, Theirs(Open(1)));
    trace, s := Extend(s0, trace, s, Theirs(ReadConfig(1, true)));
    trace, s := Extend(s0, trace, s, Theirs(LookUp(1, true)));
    trace, s := Extend(s0, trace, s, Theirs(Deliver(1, Clean)));
  }

  lemma OldRunsAgain() returns (s0: State, trace: seq<Action>, s: State)
    ensures Init(s0) && s0.w.running == {Main} && s0.w.column == "" && s == At(s0, trace, |trace|)
            && trace == OVERLAP[..10]
    ensures s.w.column == "next" && s.w.running == {Main} && s.w.hasNext && s.w.actors.Keys == {0}
    ensures s.mover.pc == DestroyingSecond
  {
    hide Init, At;
    s0, trace, s := RecreateSlipsIn();
    trace, s := Extend(s0, trace, s, Theirs(LookUp(0, true)));
    trace, s := Extend(s0, trace, s, Theirs(Deliver(0, Clean)));
    trace, s := Extend(s0, trace, s, Ours(Clean));
  }

  lemma OverlapIsAtomic(s0: State)
    ensures RoutedAtomically(s0, OVERLAP)
  {
    hide At;
  }
}
