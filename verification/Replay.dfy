/** The events that bring a new stream up to date: six phases over a user's
    connections, built in full before the first is pushed. */
module Replay {
  import opened Wrappers

  /** A JSON value liercd sent, with how Perl would show it and whether Perl
      takes it for true; or a string the server makes. */
  datatype Value = Raw(json: string, shown: string, truthy: bool) | Text(s: string)

  function Shown(v: Value): string { if v.Raw? then v.shown else v.s }

  datatype Channel = Channel(name: Value, mode: Value, topic: Value, topicUser: Value, topicTime: Value,
                             nicks: Option<seq<Value>>)

  datatype Status = Status(
    id: Value, nick: Value, alias: Value, host: Value, connected: bool, registered: bool,
    isupport: seq<Value>, caps: seq<Value>, channels: seq<Channel>)

  datatype Event = Event(id: Value, prefix: Value, command: string, params: seq<Value>)

  const LIERCD: Value := Text("liercd")
  const CHUNK: nat := 50

  predicate Truthy(v: Value) { v.Raw? && v.truthy }

  /** A value liercd sent is as true as Perl takes it for. */
  lemma TruthIsPerls(json: string, shown: string, truthy: bool)
    ensures Truthy(Raw(json, shown, truthy)) <==> truthy
  {}

  function Joined(vs: seq<Value>): string {
    if vs == [] then ""
    else if |vs| == 1 then Shown(vs[0])
    else Joined(vs[..|vs| - 1]) + " " + Shown(vs[|vs| - 1])
  }

  // ---- what one connection contributes to each phase ----

  function Say(st: Status, command: string, params: seq<Value>): Event {
    Event(st.id, LIERCD, command, params)
  }

  function Created(st: Status): seq<Event> {
    [Say(st, "CREATE", [st.nick, if Truthy(st.alias) then st.alias else st.host])]
    + if st.connected then [Say(st, "CONNECT", [])] else []
  }

  function Welcomed(st: Status): seq<Event> {
    [Say(st, "001", [st.nick, Text("Welcome to the Internet Relay Network " + Shown(st.nick))])]
    + (if |st.isupport| > 0 then [Say(st, "005", [st.nick, Text(Joined(st.isupport))])] else [])
    + if |st.caps| > 0 then [Say(st, "CAP", [Text("*"), Text("ACK"), Text(Joined(st.caps))])] else []
  }

  function JoinOf(st: Status, ch: Channel): seq<Event> {
    [Event(st.id, st.nick, "JOIN", [ch.name])]
  }

  function TopicOf(st: Status, ch: Channel): seq<Event> {
    if Truthy(ch.topic)
    then [Say(st, "332", [st.nick, ch.name, ch.topic]), Say(st, "333", [st.nick, ch.name, ch.topicUser, ch.topicTime])]
    else []
  }

  function Reply(st: Status, ch: Channel, nicks: seq<Value>): Event {
    Say(st, "353", [st.nick, Text("="), ch.name, Text(Joined(nicks))])
  }

  function EndOfNames(st: Status, ch: Channel): Event {
    Say(st, "366", [st.nick, ch.name, Text("End of /NAMES list.")])
  }

  function Replies(st: Status, ch: Channel, chunks: seq<seq<Value>>): seq<Event> {
    seq(|chunks|, i requires 0 <= i < |chunks| => Reply(st, ch, chunks[i]))
  }

  function NamesOf(st: Status, ch: Channel): seq<Event> {
    if ch.nicks.None? then [] else Replies(st, ch, Chunks(ch.nicks.value)) + [EndOfNames(st, ch)]
  }

  function ModeOf(st: Status, ch: Channel): seq<Event> {
    if Truthy(ch.mode) then [Say(st, "324", [ch.name, ch.mode])] else []
  }

  /** The list cut into runs of at most fifty. */
  function Chunks(nicks: seq<Value>): seq<seq<Value>> {
    if |nicks| == 0 then []
    else
      var n := if CHUNK < |nicks| then CHUNK else |nicks|;
      [nicks[..n]] + Chunks(nicks[n..])
  }

  function Concat(chunks: seq<seq<Value>>): seq<Value> {
    if chunks == [] then [] else chunks[0] + Concat(chunks[1..])
  }

  /** The chunks are the list, in order, cut as seldom as fifty at a time allows. */
  lemma {:induction false} ChunksCover(nicks: seq<Value>)
    ensures Concat(Chunks(nicks)) == nicks
    ensures |Chunks(nicks)| == (|nicks| + 49) / 50
    ensures forall k :: 0 <= k < |Chunks(nicks)| ==> 1 <= |Chunks(nicks)[k]| <= 50
  {
    if |nicks| > 0 {
      var n := if CHUNK < |nicks| then CHUNK else |nicks|;
      ChunksCover(nicks[n..]);
      assert nicks[..n] + nicks[n..] == nicks;
      assert Chunks(nicks)[1..] == Chunks(nicks[n..]);
    }
  }

  /** A channel with nicks gets one 353 for every fifty begun, then its one 366. */
  lemma NamesEndOnce(st: Status, ch: Channel)
    requires ch.nicks.Some?
    ensures var evs := NamesOf(st, ch);
            && |evs| == (|ch.nicks.value| + 49) / 50 + 1
            && forall k :: 0 <= k < |evs| ==> (evs[k].command == "366" <==> k == |evs| - 1)
                                              && (evs[k].command == "353" <==> k < |evs| - 1)
  {
    hide Chunks;
    ChunksCover(ch.nicks.value);
    var replies := Replies(st, ch, Chunks(ch.nicks.value));
    assert forall k :: 0 <= k < |replies| ==> replies[k].command == "353";
  }

  // ---- the whole list ----

  datatype Phase = Connects | Welcomes | Joins | Topics | Names | Modes

  /** A phase that goes channel by channel: what one channel adds. */
  function OfChannel(p: Phase, st: Status, ch: Channel): seq<Event>
    requires !p.Connects? && !p.Welcomes?
  {
    match p
    case Joins => JoinOf(st, ch)
    case Topics => TopicOf(st, ch)
    case Names => NamesOf(st, ch)
    case Modes => ModeOf(st, ch)
  }

  function OfChannels(p: Phase, st: Status, chs: seq<Channel>): seq<Event>
    requires !p.Connects? && !p.Welcomes?
  {
    if chs == [] then [] else OfChannels(p, st, chs[..|chs| - 1]) + OfChannel(p, st, chs[|chs| - 1])
  }

  /** One connection's part of a phase. All but the first are for registered ones. */
  function OfStatus(p: Phase, st: Status): seq<Event> {
    match p
    case Connects => Created(st)
    case Welcomes => if st.registered then Welcomed(st) else []
    case _ => if st.registered then OfChannels(p, st, st.channels) else []
  }

  function OfPhase(p: Phase, stats: seq<Status>): seq<Event> {
    if stats == [] then [] else OfPhase(p, stats[..|stats| - 1]) + OfStatus(p, stats[|stats| - 1])
  }

  function Events(stats: seq<Status>): seq<Event> {
    OfPhase(Connects, stats) + OfPhase(Welcomes, stats) + OfPhase(Joins, stats)
    + OfPhase(Topics, stats) + OfPhase(Names, stats) + OfPhase(Modes, stats)
  }

  // ---- what each event says ----

  /** What every connection says first. */
  lemma ConnectsSay(st: Status)
    ensures var alias := if Truthy(st.alias) then st.alias else st.host;
            OfStatus(Connects, st)
            == [Event(st.id, Text("liercd"), "CREATE", [st.nick, alias])]
            + if st.connected then [Event(st.id, Text("liercd"), "CONNECT", [])] else []
  {}

  /** How a registered connection is welcomed. */
  lemma WelcomesSay(st: Status)
    requires st.registered
    ensures OfStatus(Welcomes, st)
         == [Event(st.id, Text("liercd"), "001",
                   [st.nick, Text("Welcome to the Internet Relay Network " + Shown(st.nick))])]
            + (if st.isupport == [] then []
               else [Event(st.id, Text("liercd"), "005", [st.nick, Text(Joined(st.isupport))])])
            + (if st.caps == [] then []
               else [Event(st.id, Text("liercd"), "CAP", [Text("*"), Text("ACK"), Text(Joined(st.caps))])])
  {}

  /** What a channel of a registered connection says in each phase. */
  lemma ChannelSays(st: Status, ch: Channel)
    requires st.registered && st.channels == [ch]
    ensures OfStatus(Joins, st) == [Event(st.id, st.nick, "JOIN", [ch.name])]
    ensures OfStatus(Topics, st)
         == if Truthy(ch.topic)
            then [Event(st.id, Text("liercd"), "332", [st.nick, ch.name, ch.topic]),
                  Event(st.id, Text("liercd"), "333", [st.nick, ch.name, ch.topicUser, ch.topicTime])]
            else []
    ensures OfStatus(Modes, st)
         == if Truthy(ch.mode) then [Event(st.id, Text("liercd"), "324", [ch.name, ch.mode])] else []
    ensures OfStatus(Names, st)
         == if ch.nicks.None? then []
            else seq(|Chunks(ch.nicks.value)|, i requires 0 <= i < |Chunks(ch.nicks.value)| =>
                   Event(st.id, Text("liercd"), "353",
                         [st.nick, Text("="), ch.name, Text(Joined(Chunks(ch.nicks.value)[i]))]))
                 + [Event(st.id, Text("liercd"), "366", [st.nick, ch.name, Text("End of /NAMES list.")])]
  {
    forall p: Phase | !p.Connects? && !p.Welcomes?
      ensures OfChannels(p, st, [ch]) == OfChannel(p, st, ch)
    {
      assert [ch][..0] == [] && OfChannels(p, st, []) == [];
    }
  }

  /** Channel by channel, in order. */
  lemma {:induction false} ChannelsInOrder(p: Phase, st: Status, a: seq<Channel>, b: seq<Channel>)
    requires st.registered && !p.Connects? && !p.Welcomes? && st.channels == a + b
    ensures OfStatus(p, st) == OfStatus(p, st.(channels := a)) + OfStatus(p, st.(channels := b))
  {
    hide OfChannel;
    SameChannels(p, st, st.(channels := a), a);
    SameChannels(p, st, st.(channels := b), b);
    ChannelsConcat(p, st, a, b);
  }

  lemma {:induction false} SameChannels(p: Phase, st: Status, other: Status, chs: seq<Channel>)
    requires !p.Connects? && !p.Welcomes? && other.id == st.id && other.nick == st.nick
    ensures OfChannels(p, st, chs) == OfChannels(p, other, chs)
  {
    hide OfChannel;
    if chs != [] {
      SameChannels(p, st, other, chs[..|chs| - 1]);
      SameChannel(p, st, other, chs[|chs| - 1]);
    }
  }

  lemma SameChannel(p: Phase, st: Status, other: Status, ch: Channel)
    requires !p.Connects? && !p.Welcomes? && other.id == st.id && other.nick == st.nick
    ensures OfChannel(p, st, ch) == OfChannel(p, other, ch)
  {
    hide Chunks;
  }

  lemma {:induction false} ChannelsConcat(p: Phase, st: Status, a: seq<Channel>, b: seq<Channel>)
    requires !p.Connects? && !p.Welcomes?
    ensures OfChannels(p, st, a + b) == OfChannels(p, st, a) + OfChannels(p, st, b)
  {
    hide OfChannel;
    if b == [] { assert a + b == a; } else {
      ChannelsConcat(p, st, a, b[..|b| - 1]);
      assert (a + b)[..|a + b| - 1] == a + b[..|b| - 1];
    }
  }

  /** Connection by connection, in order, and in the order of the phases. */
  lemma EventsInOrder(a: seq<Status>, b: seq<Status>)
    ensures forall p :: OfPhase(p, a + b) == OfPhase(p, a) + OfPhase(p, b)
    ensures forall p, st :: OfPhase(p, [st]) == OfStatus(p, st)
    ensures Events(a) == OfPhase(Connects, a) + OfPhase(Welcomes, a) + OfPhase(Joins, a)
                         + OfPhase(Topics, a) + OfPhase(Names, a) + OfPhase(Modes, a)
  {
    hide OfStatus;
    forall p ensures OfPhase(p, a + b) == OfPhase(p, a) + OfPhase(p, b) { PhaseConcat(p, a, b); }
    forall p, st ensures OfPhase(p, [st]) == OfStatus(p, st) {
      assert [st][..0] == [] && OfPhase(p, []) == [];
    }
  }

  lemma {:induction false} PhaseConcat(p: Phase, a: seq<Status>, b: seq<Status>)
    ensures OfPhase(p, a + b) == OfPhase(p, a) + OfPhase(p, b)
  {
    hide OfStatus;
    if b == [] { assert a + b == a; } else {
      PhaseConcat(p, a, b[..|b| - 1]);
      assert (a + b)[..|a + b| - 1] == a + b[..|b| - 1];
    }
  }

  /** Values are joined with single spaces, each as Perl shows it. */
  lemma {:induction false} JoinedBySpaces(vs: seq<Value>, v: Value)
    ensures Joined([]) == "" && Joined([v]) == match v case Raw(_, shown, _) => shown case Text(s) => s
    ensures vs != [] ==> Joined(vs + [v]) == Joined(vs) + " " + Joined([v])
  {
    if vs != [] { assert (vs + [v])[..|vs|] == vs; }
  }

  // ---- what the list is, connection by connection ----

  /** The events about one connection. */
  function About(evs: seq<Event>, id: Value): seq<Event> {
    if evs == [] then []
    else About(evs[..|evs| - 1], id) + if evs[|evs| - 1].id == id then [evs[|evs| - 1]] else []
  }

  function Named(stats: seq<Status>, id: Value): seq<Status> {
    if stats == [] then []
    else Named(stats[..|stats| - 1], id) + if stats[|stats| - 1].id == id then [stats[|stats| - 1]] else []
  }

  lemma {:induction false} AboutConcat(a: seq<Event>, b: seq<Event>, id: Value)
    ensures About(a + b, id) == About(a, id) + About(b, id)
  {
    if b == [] { assert a + b == a; } else {
      assert (a + b)[..|a + b| - 1] == a + b[..|b| - 1];
      AboutConcat(a, b[..|b| - 1], id);
    }
  }

  lemma {:induction false} AboutSame(evs: seq<Event>, of: Value, id: Value)
    requires forall k :: 0 <= k < |evs| ==> evs[k].id == of
    ensures About(evs, id) == if of == id then evs else []
  {
    if evs != [] {
      AboutSame(evs[..|evs| - 1], of, id);
      assert evs == evs[..|evs| - 1] + [evs[|evs| - 1]];
    }
  }

  /** Events about one connection, all with commands of one phase. */
  predicate AllOf(evs: seq<Event>, id: Value, p: Phase) {
    forall k :: 0 <= k < |evs| ==> evs[k].id == id && PhaseOf(evs[k].command) == p
  }

  /** Every event a connection contributes to a phase is such an event. */
  lemma StatusEvents(p: Phase, st: Status)
    ensures AllOf(OfStatus(p, st), st.id, p)
  {
    if st.registered && !p.Connects? && !p.Welcomes? { ChannelEvents(p, st, st.channels); }
  }

  function PhaseOf(command: string): Phase {
    if command == "CREATE" || command == "CONNECT" then Connects
    else if command == "001" || command == "005" || command == "CAP" then Welcomes
    else if command == "JOIN" then Joins
    else if command == "332" || command == "333" then Topics
    else if command == "353" || command == "366" then Names
    else Modes
  }

  lemma {:induction false} ChannelEvents(p: Phase, st: Status, chs: seq<Channel>)
    requires !p.Connects? && !p.Welcomes?
    ensures AllOf(OfChannels(p, st, chs), st.id, p)
  {
    hide OfChannel, PhaseOf;
    if chs != [] {
      ChannelEvents(p, st, chs[..|chs| - 1]);
      OneChannelEvents(p, st, chs[|chs| - 1]);
    }
  }

  lemma OneChannelEvents(p: Phase, st: Status, ch: Channel)
    requires !p.Connects? && !p.Welcomes?
    ensures AllOf(OfChannel(p, st, ch), st.id, p)
  {
    if ch.nicks.Some? {
      assert forall k :: 0 <= k < |Replies(st, ch, Chunks(ch.nicks.value))| ==>
                           Replies(st, ch, Chunks(ch.nicks.value))[k].command == "353";
    }
  }

  lemma Split<T>(s: seq<T>)
    requires s != []
    ensures s == s[..|s| - 1] + [s[|s| - 1]]
  {}

  lemma PhaseSnoc(p: Phase, front: seq<Status>, st: Status)
    ensures OfPhase(p, front + [st]) == OfPhase(p, front) + OfStatus(p, st)
  {
    assert (front + [st])[..|front|] == front;
  }

  lemma NamedSnoc(front: seq<Status>, st: Status, id: Value)
    ensures Named(front + [st], id) == if st.id == id then Named(front, id) + [st] else Named(front, id)
  {
    assert (front + [st])[..|front|] == front;
  }

  lemma {:induction false} PhaseAbout(p: Phase, stats: seq<Status>, id: Value)
    ensures About(OfPhase(p, stats), id) == OfPhase(p, Named(stats, id))
  {
    hide OfStatus, OfPhase, Named, About, AllOf;
    if stats == [] {
      PhaseAboutNone(p, id);
    } else {
      var front, st := stats[..|stats| - 1], stats[|stats| - 1];
      Split(stats);
      PhaseAbout(p, front, id);
      PhaseSnoc(p, front, st);
      NamedSnoc(front, st, id);
      StatusEvents(p, st);
      StatusAbout(p, st, id);
      AboutConcat(OfPhase(p, front), OfStatus(p, st), id);
      PhaseSnoc(p, Named(front, id), st);
    }
  }

  lemma PhaseAboutNone(p: Phase, id: Value)
    ensures About(OfPhase(p, []), id) == OfPhase(p, Named([], id)) == []
  {}

  lemma StatusAbout(p: Phase, st: Status, id: Value)
    ensures About(OfStatus(p, st), id) == if st.id == id then OfStatus(p, st) else []
  {
    hide OfStatus, About, PhaseOf;
    StatusEvents(p, st);
    AboutSame(OfStatus(p, st), st.id, id);
  }

  /** What a stream is told about a connection is what it would be told if its
      user had no other. */
  lemma AboutOneConnection(stats: seq<Status>, id: Value)
    ensures About(Events(stats), id) == Events(Named(stats, id))
  {
    hide OfPhase, About, Named;
    var a, b, c := OfPhase(Connects, stats), OfPhase(Welcomes, stats), OfPhase(Joins, stats);
    var d, e, f := OfPhase(Topics, stats), OfPhase(Names, stats), OfPhase(Modes, stats);
    AboutConcat(a, b, id);
    AboutConcat(a + b, c, id);
    AboutConcat(a + b + c, d, id);
    AboutConcat(a + b + c + d, e, id);
    AboutConcat(a + b + c + d + e, f, id);
    PhaseAbout(Connects, stats, id);
    PhaseAbout(Welcomes, stats, id);
    PhaseAbout(Joins, stats, id);
    PhaseAbout(Topics, stats, id);
    PhaseAbout(Names, stats, id);
    PhaseAbout(Modes, stats, id);
  }

  lemma {:induction false} NamedIsOne(stats: seq<Status>, i: nat)
    requires i < |stats| && forall j, k :: 0 <= j < k < |stats| ==> stats[j].id != stats[k].id
    ensures Named(stats, stats[i].id) == [stats[i]]
  {
    var front := stats[..|stats| - 1];
    if i < |front| { NamedIsOne(front, i); } else { NamedIsNone(front, stats[i].id); }
  }

  lemma {:induction false} NamedIsNone(stats: seq<Status>, id: Value)
    requires forall k :: 0 <= k < |stats| ==> stats[k].id != id
    ensures Named(stats, id) == []
  {
    if stats != [] { NamedIsNone(stats[..|stats| - 1], id); }
  }

  /** With distinct ids: connection i's events are its own replay, and one that
      isn't registered is only created and perhaps connected. */
  lemma EachOnItsOwn(stats: seq<Status>, i: nat)
    requires i < |stats| && forall j, k :: 0 <= j < k < |stats| ==> stats[j].id != stats[k].id
    ensures About(Events(stats), stats[i].id) == Events([stats[i]])
    ensures !stats[i].registered ==> Events([stats[i]]) == Created(stats[i])
  {
    hide Events, About, Named, Created;
    AboutOneConnection(stats, stats[i].id);
    NamedIsOne(stats, i);
    if !stats[i].registered { OnlyCreated(stats[i]); }
  }

  lemma OnlyCreated(st: Status)
    requires !st.registered
    ensures Events([st]) == Created(st)
  {
    hide Created;
    forall p
      ensures OfPhase(p, [st]) == OfStatus(p, st)
    {
      assert [st][..0] == [] && OfPhase(p, []) == [];
    }
  }

  function Rank(p: Phase): nat {
    match p case Connects => 0 case Welcomes => 1 case Joins => 2 case Topics => 3 case Names => 4 case Modes => 5
  }

  lemma {:induction false} PhaseEvents(p: Phase, stats: seq<Status>)
    ensures forall k :: 0 <= k < |OfPhase(p, stats)| ==> PhaseOf(OfPhase(p, stats)[k].command) == p
  {
    hide OfStatus, PhaseOf;
    if stats != [] {
      PhaseEvents(p, stats[..|stats| - 1]);
      StatusEvents(p, stats[|stats| - 1]);
    }
  }

  /** No event comes before one of an earlier phase. */
  lemma PhasesInOrder(stats: seq<Status>, i: nat, j: nat)
    requires i < j < |Events(stats)|
    ensures Rank(PhaseOf(Events(stats)[i].command)) <= Rank(PhaseOf(Events(stats)[j].command))
  {
    hide OfPhase, PhaseOf;
    PhaseEvents(Connects, stats);
    PhaseEvents(Welcomes, stats);
    PhaseEvents(Joins, stats);
    PhaseEvents(Topics, stats);
    PhaseEvents(Names, stats);
    PhaseEvents(Modes, stats);
  }

  predicate AllRegistered(stats: seq<Status>) {
    forall k :: 0 <= k < |stats| ==> stats[k].registered
  }

  // ---- the code ----

  /** push_connect. */
  method PushConnect(stats: seq<Status>) returns (evs: seq<Event>)
    ensures evs == OfPhase(Connects, stats)
  {
    hide OfPhase;
    evs := [];
    PhaseNone(Connects, stats);
    for i := 0 to |stats|
      invariant evs == OfPhase(Connects, stats[..i])
    {
      var st := stats[i];
      PhaseNext(Connects, stats, i);
      var alias := st.alias;
      if !Truthy(alias) { alias := st.host; }
      evs := evs + [Say(st, "CREATE", [st.nick, alias])];
      if st.connected { evs := evs + [Say(st, "CONNECT", [])]; }
    }
    assert stats[..|stats|] == stats;
  }

  /** push_welcome, over the registered connections. */
  method PushWelcome(registered: seq<Status>) returns (evs: seq<Event>)
    requires AllRegistered(registered)
    ensures evs == OfPhase(Welcomes, registered)
  {
    hide OfPhase;
    evs := [];
    PhaseNone(Welcomes, registered);
    for i := 0 to |registered|
      invariant evs == OfPhase(Welcomes, registered[..i])
    {
      var st := registered[i];
      PhaseNext(Welcomes, registered, i);
      var welcome := "Welcome to the Internet Relay Network " + Shown(st.nick);
      evs := evs + [Say(st, "001", [st.nick, Text(welcome)])];
      if |st.isupport| > 0 { evs := evs + [Say(st, "005", [st.nick, Text(Joined(st.isupport))])]; }
      if |st.caps| > 0 { evs := evs + [Say(st, "CAP", [Text("*"), Text("ACK"), Text(Joined(st.caps))])]; }
    }
    assert registered[..|registered|] == registered;
  }

  /** A channel's 353s and 366: `nicks` is used up fifty at a time. */
  method PushNames(st: Status, ch: Channel) returns (evs: seq<Event>)
    ensures evs == NamesOf(st, ch)
  {
    if ch.nicks.None? { return []; }
    var nicks := ch.nicks.value;
    evs := [];
    while |nicks| > 0
      invariant evs + Replies(st, ch, Chunks(nicks)) == Replies(st, ch, Chunks(ch.nicks.value))
      decreases |nicks|
    {
      var n := if CHUNK < |nicks| then CHUNK else |nicks|;
      evs := evs + [Reply(st, ch, nicks[..n])];
      assert Replies(st, ch, Chunks(nicks)) == [Reply(st, ch, nicks[..n])] + Replies(st, ch, Chunks(nicks[n..]));
      nicks := nicks[n..];
    }
    evs := evs + [EndOfNames(st, ch)];
  }

  /** What one channel adds to a phase. */
  method PushChannel(p: Phase, st: Status, ch: Channel) returns (evs: seq<Event>)
    requires !p.Connects? && !p.Welcomes?
    ensures evs == OfChannel(p, st, ch)
  {
    evs := [];
    match p
    case Joins => evs := evs + [Event(st.id, st.nick, "JOIN", [ch.name])];
    case Topics =>
      if Truthy(ch.topic) {
        evs := evs + [Say(st, "332", [st.nick, ch.name, ch.topic])];
        evs := evs + [Say(st, "333", [st.nick, ch.name, ch.topicUser, ch.topicTime])];
      }
    case Names => evs := PushNames(st, ch);
    case Modes =>
      if Truthy(ch.mode) { evs := evs + [Say(st, "324", [ch.name, ch.mode])]; }
  }

  /** push_joins, push_topics, push_nicks and push_modes: channel by channel. */
  method PushChannels(p: Phase, registered: seq<Status>) returns (evs: seq<Event>)
    requires !p.Connects? && !p.Welcomes?
    requires AllRegistered(registered)
    ensures evs == OfPhase(p, registered)
  {
    hide OfPhase, OfChannels, OfChannel;
    evs := [];
    PhaseNone(p, registered);
    for i := 0 to |registered|
      invariant evs == OfPhase(p, registered[..i])
    {
      var st := registered[i];
      PhaseNext(p, registered, i);
      ChannelsNone(p, st);
      ghost var before := evs;
      for j := 0 to |st.channels|
        invariant evs == before + OfChannels(p, st, st.channels[..j])
      {
        var ch := st.channels[j];
        ChannelsNext(p, st, j);
        var more := PushChannel(p, st, ch);
        evs := evs + more;
      }
      assert st.channels[..|st.channels|] == st.channels;
    }
    assert registered[..|registered|] == registered;
  }

  function Registered(stats: seq<Status>): seq<Status> {
    if stats == [] then []
    else Registered(stats[..|stats| - 1]) + if stats[|stats| - 1].registered then [stats[|stats| - 1]] else []
  }

  lemma RegisteredSnoc(front: seq<Status>, st: Status)
    ensures Registered(front + [st]) == if st.registered then Registered(front) + [st] else Registered(front)
  {
    assert (front + [st])[..|front|] == front;
  }

  lemma NothingUnregistered(p: Phase, st: Status)
    requires !p.Connects? && !st.registered
    ensures OfStatus(p, st) == []
  {}

  lemma {:induction false} RegisteredPhase(p: Phase, stats: seq<Status>)
    requires !p.Connects?
    ensures OfPhase(p, Registered(stats)) == OfPhase(p, stats)
    ensures AllRegistered(Registered(stats))
    decreases |stats|, 1
  {
    if stats != [] { RegisteredPhaseStep(p, stats); }
  }

  lemma {:induction false} RegisteredPhaseStep(p: Phase, stats: seq<Status>)
    requires !p.Connects? && stats != []
    ensures OfPhase(p, Registered(stats)) == OfPhase(p, stats)
    ensures AllRegistered(Registered(stats))
    decreases |stats|, 0
  {
    hide OfStatus, OfPhase, Registered;
    var front, st := stats[..|stats| - 1], stats[|stats| - 1];
    Split(stats);
    RegisteredPhase(p, front);
    RegisteredSnoc(front, st);
    PhaseSnoc(p, front, st);
    PhaseSnoc(p, Registered(front), st);
    if !st.registered { NothingUnregistered(p, st); }
  }

  lemma PhaseNone(p: Phase, stats: seq<Status>)
    ensures OfPhase(p, stats[..0]) == []
  {}

  lemma PhaseNext(p: Phase, stats: seq<Status>, i: nat)
    requires i < |stats|
    ensures OfPhase(p, stats[..i + 1]) == OfPhase(p, stats[..i]) + OfStatus(p, stats[i])
  {
    assert stats[..i + 1][..i] == stats[..i];
  }

  lemma ChannelsNone(p: Phase, st: Status)
    requires !p.Connects? && !p.Welcomes?
    ensures OfChannels(p, st, st.channels[..0]) == []
  {}

  lemma ChannelsNext(p: Phase, st: Status, j: nat)
    requires !p.Connects? && !p.Welcomes? && j < |st.channels|
    ensures OfChannels(p, st, st.channels[..j + 1])
         == OfChannels(p, st, st.channels[..j]) + OfChannel(p, st, st.channels[j])
  {
    assert st.channels[..j + 1][..j] == st.channels[..j];
  }

  /** replay, with find what FindOrRecreate and the decoding make of each
      connection, and push(k) whether the stream still takes event k. */
  method Run(conns: seq<string>, find: string -> Option<Status>, push: nat -> bool) returns (pushed: seq<Event>)
    ensures (exists i :: 0 <= i < |conns| && find(conns[i]).None?) ==> pushed == []
    ensures (forall i :: 0 <= i < |conns| ==> find(conns[i]).Some?) ==>
              var evs := Events(Statuses(conns, find));
              && pushed <= evs
              && (forall k: nat :: k < |pushed| ==> push(k))
              && (pushed == evs || !push(|pushed|))
  {
    hide OfPhase, Registered;
    pushed := [];
    var stats := [];
    var i := 0;
    while i < |conns|
      invariant i <= |conns| && |stats| == i
      invariant forall j :: 0 <= j < i ==> find(conns[j]) == Some(stats[j])
    {
      var stat := find(conns[i]);
      if stat.None? { return; }
      stats := stats + [stat.value];
      i := i + 1;
    }
    assert stats == Statuses(conns, find);

    var registered := RegisteredOf(stats);
    RegisteredPhase(Welcomes, stats);
    RegisteredPhase(Joins, stats);
    RegisteredPhase(Topics, stats);
    RegisteredPhase(Names, stats);
    RegisteredPhase(Modes, stats);
    var connects := PushConnect(stats);
    var welcomes := PushWelcome(registered);
    var joins := PushChannels(Joins, registered);
    var topics := PushChannels(Topics, registered);
    var names := PushChannels(Names, registered);
    var modes := PushChannels(Modes, registered);
    var evs := connects + welcomes + joins + topics + names + modes;

    while |pushed| < |evs| && push(|pushed|)
      invariant pushed <= evs && forall k: nat :: k < |pushed| ==> push(k)
    {
      pushed := pushed + [evs[|pushed|]];
    }
  }

  method RegisteredOf(stats: seq<Status>) returns (registered: seq<Status>)
    ensures registered == Registered(stats)
  {
    registered := [];
    for i := 0 to |stats|
      invariant registered == Registered(stats[..i])
    {
      assert stats[..i + 1][..i] == stats[..i];
      if stats[i].registered { registered := registered + [stats[i]]; }
    }
    assert stats[..|stats|] == stats;
  }

  /** What was found for each connection. */
  function Statuses(conns: seq<string>, find: string -> Option<Status>): (stats: seq<Status>)
    requires forall i :: 0 <= i < |conns| ==> find(conns[i]).Some?
    ensures |stats| == |conns| && forall i :: 0 <= i < |conns| ==> find(conns[i]) == Some(stats[i])
  {
    if conns == [] then [] else Statuses(conns[..|conns| - 1], find) + [find(conns[|conns| - 1]).value]
  }
}
