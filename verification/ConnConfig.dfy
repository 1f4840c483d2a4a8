/** The rules for a connection's settings: what Clean accepts, and that what it
    returns is a normal form. */
module ConnConfig {
  import opened Wrappers
  import opened Patterns
  import Utf8

  /** Decoded JSON. A number is the exact one written. */
  datatype Json =
    | Null
    | Bool(b: bool)
    | Num(n: real)
    | Str(s: string)
    | List(items: seq<Json>)
    | Object(fields: map<string, Json>)

  /** What the Unicode tables say: which characters are letters, numbers,
      punctuation or symbols, which are digits, and how to fold and decompose; and
      how a number is read as a 64-bit float, None if it is out of range. */
  datatype Tables = Tables(
    graphic: char -> bool, number: char -> bool, fold: string -> string, nfd: string -> string,
    float: real -> Option<real>)

  /** A 64-bit float holds every port number exactly. */
  ghost predicate FloatsHoldPorts(t: Tables) {
    forall f | IsPort(f) :: t.float(f) == Some(f)
  }

  datatype Field = Host | Port | Nick | User | Pass | Channels | Highlight | Alias | Ssl | Sasl

  datatype Problem =
    | NotJson
    | Missing(f: Field)
    | WrongType(f: Field)
    | Refused(f: Field)
    | TooLong(f: Field)
    | Reserved(f: Field)

  const FIELDS: seq<Field> := [Host, Port, Nick, User, Pass, Channels, Highlight, Alias, Ssl, Sasl]

  function Key(f: Field): string {
    match f
    case Host => "Host" case Port => "Port" case Nick => "Nick" case User => "User" case Pass => "Pass"
    case Channels => "Channels" case Highlight => "Highlight" case Alias => "Alias"
    case Ssl => "Ssl" case Sasl => "SASL"
  }

  /** A map lookup: missing is null. */
  function Get(params: map<string, Json>, key: string): Json {
    if key in params then params[key] else Null
  }

  // ---- text ----

  predicate Space(c: char) {
    || '\t' <= c <= '\r' || c == ' ' || c == '\U{85}' || c == '\U{A0}' || c == '\U{1680}'
    || '\U{2000}' <= c <= '\U{200A}' || c == '\U{2028}' || c == '\U{2029}' || c == '\U{202F}' || c == '\U{205F}'
    || c == '\U{3000}'
  }

  function TrimLeft(s: string): string {
    if s != "" && Space(s[0]) then TrimLeft(s[1..]) else s
  }

  function Trim(s: string): string {
    var t := TrimLeft(s);
    TrimRight(t)
  }

  function TrimRight(s: string): string {
    if s != "" && Space(s[|s| - 1]) then TrimRight(s[..|s| - 1]) else s
  }

  predicate Trimmed(s: string) {
    s != "" ==> !Space(s[0]) && !Space(s[|s| - 1])
  }

  lemma {:induction false} TrimRightTrims(s: string)
    requires s != "" ==> !Space(s[0])
    ensures Trimmed(TrimRight(s))
  {
    if s != "" && Space(s[|s| - 1]) { TrimRightTrims(s[..|s| - 1]); }
  }

  lemma {:induction false} TrimLeftTrims(s: string)
    ensures TrimLeft(s) != "" ==> !Space(TrimLeft(s)[0])
  {
    if s != "" && Space(s[0]) { TrimLeftTrims(s[1..]); }
  }

  lemma {:induction false} TrimLeftCuts(s: string) returns (left: string)
    ensures All(left, Space) && s == left + TrimLeft(s)
  {
    left := "";
    if s != "" && Space(s[0]) {
      var rest := TrimLeftCuts(s[1..]);
      left := [s[0]] + rest;
      assert s == [s[0]] + s[1..];
    }
  }

  lemma {:induction false} TrimRightCuts(s: string) returns (right: string)
    ensures All(right, Space) && s == TrimRight(s) + right
  {
    right := "";
    if s != "" && Space(s[|s| - 1]) {
      var rest := TrimRightCuts(s[..|s| - 1]);
      right := rest + [s[|s| - 1]];
      assert s == s[..|s| - 1] + [s[|s| - 1]];
    }
  }

  /** Trimming takes the spaces around a text and nothing else. */
  ghost predicate CutFrom(t: string, s: string) {
    exists left, right :: All(left, Space) && All(right, Space) && s == left + t + right
  }

  /** Trimming leaves nothing to trim, cuts only spaces, and leaves trimmed text alone. */
  lemma TrimTrims(s: string)
    ensures Trimmed(Trim(s)) && CutFrom(Trim(s), s)
    ensures Trimmed(s) <==> Trim(s) == s
  {
    TrimLeftTrims(s);
    TrimRightTrims(TrimLeft(s));
    var left := TrimLeftCuts(s);
    var right := TrimRightCuts(TrimLeft(s));
    assert s == left + Trim(s) + right;
    if Trimmed(s) { assert TrimLeft(s) == s && TrimRight(s) == s; }
  }

  /** Perl's `$` also matches before a final newline. */
  function Chop(s: string): string {
    if s != "" && s[|s| - 1] == '\n' then s[..|s| - 1] else s
  }

  predicate All(s: string, p: char -> bool) {
    forall i :: 0 <= i < |s| ==> p(s[i])
  }

  predicate Digit(c: char) { '0' <= c <= '9' }
  predicate Alnum(c: char) { Digit(c) || 'A' <= c <= 'Z' || 'a' <= c <= 'z' }
  predicate Control(c: char) { c < ' ' || c == '\U{7F}' }

  function SplitDots(s: string): (parts: seq<string>)
    ensures |parts| >= 1
  {
    if s == "" then [""]
    else if s[0] == '.' then [""] + SplitDots(s[1..])
    else
      var rest := SplitDots(s[1..]);
      [[s[0]] + rest[0]] + rest[1..]
  }

  function JoinDots(parts: seq<string>): string
    requires |parts| >= 1
  {
    if |parts| == 1 then parts[0] else parts[0] + "." + JoinDots(parts[1..])
  }

  /** The labels are the host cut at its dots. */
  lemma {:induction false} SplitIsCut(s: string)
    ensures JoinDots(SplitDots(s)) == s
    ensures forall k :: 0 <= k < |SplitDots(s)| ==> '.' !in SplitDots(s)[k]
  {
    if s != "" {
      SplitIsCut(s[1..]);
      var rest := SplitDots(s[1..]);
      assert s == [s[0]] + s[1..];
      if s[0] == '.' {
        assert SplitDots(s)[1..] == rest;
      } else if |rest| > 1 {
        assert SplitDots(s)[1..] == rest[1..];
        assert rest[0] + "." + JoinDots(rest[1..]) == s[1..];
      }
    }
  }

  function Value(digits: string): nat
    requires All(digits, Digit)
  {
    if digits == "" then 0 else Value(digits[..|digits| - 1]) * 10 + (digits[|digits| - 1] as int - '0' as int)
  }

  // ---- the rules ----

  predicate Octet(p: string) { 1 <= |p| <= 3 && All(p, Digit) && Value(p) <= 255 }

  predicate Ipv4(host: string) {
    var parts := SplitDots(Chop(host));
    |parts| == 4 && forall k :: 0 <= k < 4 ==> Octet(parts[k])
  }

  predicate Label(l: string) {
    var m := Chop(l);
    1 <= |m| <= 63 && Alnum(m[0]) && Alnum(m[|m| - 1]) && All(m, c => Alnum(c) || c == '-')
  }

  predicate Numeric(l: string, t: Tables) {
    var m := Chop(l);
    m != "" && All(m, t.number)
  }

  predicate HostRule(host: string, t: Tables) {
    Ipv4(host) || (
      && |host| <= 253
      && !Numeric(SplitDots(host)[|SplitDots(host)| - 1], t)
      && forall k :: 0 <= k < |SplitDots(host)| ==> Label(SplitDots(host)[k]))
  }

  predicate NickShape(nick: string, t: Tables) {
    && nick != "" && nick[0] !in "#~&@%+-$"
    && All(nick[1..], t.graphic)
    && All(nick, c => c !in " ,*?.!@:<>'\";#/")
  }

  function CharCodes(s: string): Utf8.Text {
    seq(|s|, i requires 0 <= i < |s| => s[i] as int)
  }

  function ByteLength(s: string): nat {
    |Utf8.Encode(CharCodes(s))|
  }

  predicate NickFits(nick: string, t: Tables) {
    ByteLength(nick) <= 32 && ByteLength(t.nfd(t.fold(t.nfd(nick)))) <= 32
  }

  const RESERVED: seq<string> := ["0", "NickServ", "ChanServ", "HostServ", "HistServ", "MemoServ", "BotServ",
                                  "OperServ", "Global", "=scene="]

  predicate NickReserved(nick: string, t: Tables) {
    exists i :: 0 <= i < |RESERVED| && t.fold(RESERVED[i]) == t.fold(nick)
  }

  predicate UserRule(user: string) {
    1 <= |user| <= 32 && user[0] != ':' && All(user, c => c !in " \0\r\n@")
  }

  predicate PassRule(pass: string) { All(pass, c => c !in "\r\n\0") }

  predicate ChannelRule(name: string) {
    var m := Chop(name);
    2 <= |m| <= 200 && m[0] in "#&+!" && All(m[1..], c => !Space(c) && c != ',' && !Control(c))
  }

  predicate HighlightRule(word: string) { All(word, c => !Control(c)) }

  predicate AliasRule(alias: string) {
    var m := Chop(alias);
    1 <= |m| <= 32 && All(m, c => Alnum(c) || c in " .-")
  }

  // ---- one field ----

  /** What a field becomes: None if it is left out. */
  type Outcome = Result<Option<Json>, Problem>

  /** str's text; missing is empty. */
  function TextOf(v: Json): string { if v.Str? then v.s else "" }

  predicate TextLike(v: Json) { v.Null? || v.Str? }

  predicate Texts(v: Json) {
    v.Null? || (v.List? && forall i :: 0 <= i < |v.items| ==> v.items[i].Str?)
  }

  /** The trimmed, non-blank items. */
  function ItemsOf(v: Json): seq<string>
    requires Texts(v)
  {
    if v.Null? then [] else Kept(v.items)
  }

  function Kept(items: seq<Json>): (kept: seq<string>)
    requires forall i :: 0 <= i < |items| ==> items[i].Str?
    ensures |kept| <= |items|
  {
    if items == [] then []
    else Kept(items[..|items| - 1]) + if Trim(items[|items| - 1].s) == "" then [] else [Trim(items[|items| - 1].s)]
  }

  function AsList(items: seq<string>): Json {
    List(seq(|items|, i requires 0 <= i < |items| => Str(items[i])))
  }

  function Required(f: Field, v: Json, ok: bool): Outcome {
    if ok then Ok(Some(v)) else Err(Refused(f))
  }

  predicate IsPort(f: real) { f == f.Floor as real && 1.0 <= f <= 65535.0 }

  function PortOf(v: Json, t: Tables): Outcome {
    if v.Null? then Err(Refused(Port))
    else if !v.Num? then Err(WrongType(Port))
    else
      match t.float(v.n)
      case Some(f) => if IsPort(f) then Ok(Some(Num(f))) else Err(Refused(Port))
      case None => Err(Refused(Port))
  }

  function NickOf(v: Json, t: Tables): Outcome {
    var nick := Trim(TextOf(v));
    if nick == "" then Err(Missing(Nick))
    else if !NickShape(nick, t) then Err(Refused(Nick))
    else if !NickFits(nick, t) then Err(TooLong(Nick))
    else if NickReserved(nick, t) then Err(Reserved(Nick))
    else Ok(Some(Str(nick)))
  }

  function ListOf(f: Field, v: Json, rule: string -> bool): Outcome {
    if !Texts(v) then Err(WrongType(f))
    else Required(f, AsList(ItemsOf(v)), forall i :: 0 <= i < |ItemsOf(v)| ==> rule(ItemsOf(v)[i]))
  }

  function FlagOf(f: Field, v: Json): Outcome {
    if v.Null? then Ok(Some(Bool(false)))
    else if v.Bool? then Ok(Some(v))
    else Err(WrongType(f))
  }

  /** A field of text that may be left out. */
  function OptionalOf(f: Field, text: string, ok: bool): Outcome {
    if text == "" then Ok(None) else Required(f, Str(text), ok)
  }

  predicate IsText(f: Field) { f.Host? || f.Nick? || f.User? || f.Pass? || f.Alias? }

  function FieldOf(f: Field, v: Json, t: Tables): Outcome {
    if IsText(f) && !TextLike(v) then Err(WrongType(f))
    else
      match f
      case Host =>
        if Trim(TextOf(v)) == "" then Err(Missing(Host))
        else Required(Host, Str(Trim(TextOf(v))), HostRule(Trim(TextOf(v)), t))
      case Port => PortOf(v, t)
      case Nick => NickOf(v, t)
      case User => OptionalOf(User, Trim(TextOf(v)), UserRule(Trim(TextOf(v))))
      case Pass => if PassRule(TextOf(v)) then OptionalOf(Pass, TextOf(v), true) else Err(Refused(Pass))
      case Channels => ListOf(Channels, v, ChannelRule)
      case Highlight => ListOf(Highlight, v, HighlightRule)
      case Alias => OptionalOf(Alias, Trim(TextOf(v)), AliasRule(Trim(TextOf(v))))
      case Ssl => FlagOf(Ssl, v)
      case Sasl => FlagOf(Sasl, v)
  }

  /** A value of a field that is just as it should be. */
  predicate Normal(f: Field, w: Option<Json>, t: Tables) {
    match f
    case Host => Clear(w) && HostRule(w.value.s, t)
    case Port => w.Some? && w.value.Num? && IsPort(w.value.n)
    case Nick => Clear(w) && NickShape(w.value.s, t) && NickFits(w.value.s, t) && !NickReserved(w.value.s, t)
    case User => w.None? || (Clear(w) && UserRule(w.value.s))
    case Pass => w.None? || (w.value.Str? && w.value.s != "" && PassRule(w.value.s))
    case Channels => w.Some? && ClearList(w.value, ChannelRule)
    case Highlight => w.Some? && ClearList(w.value, HighlightRule)
    case Alias => w.None? || (Clear(w) && AliasRule(w.value.s))
    case Ssl => w.Some? && w.value.Bool?
    case Sasl => w.Some? && w.value.Bool?
  }

  /** Text, trimmed and not blank. */
  predicate Clear(w: Option<Json>) {
    w.Some? && w.value.Str? && w.value.s != "" && Trimmed(w.value.s)
  }

  predicate ClearList(v: Json, rule: string -> bool) {
    v.List? && forall i :: 0 <= i < |v.items| ==> v.items[i].Str? && v.items[i].s != "" && Trimmed(v.items[i].s)
                                                  && rule(v.items[i].s)
  }

  function OrNull(w: Option<Json>): Json { if w.Some? then w.value else Null }

  lemma {:induction false} KeptIsClear(items: seq<Json>)
    requires forall i :: 0 <= i < |items| ==> items[i].Str?
    ensures forall i :: 0 <= i < |Kept(items)| ==> Kept(items)[i] != "" && Trimmed(Kept(items)[i])
  {
    if items != [] {
      KeptIsClear(items[..|items| - 1]);
      TrimTrims(items[|items| - 1].s);
    }
  }

  lemma NoItems()
    ensures AsList([]) == List([])
  {}

  lemma OneItemMore(items: seq<string>, s: string)
    ensures AsList(items + [s]).items == AsList(items).items + [Str(s)]
  {}

  lemma {:induction false} ClearIsKept(items: seq<Json>)
    requires forall i :: 0 <= i < |items| ==> items[i].Str? && items[i].s != "" && Trimmed(items[i].s)
    ensures AsList(Kept(items)).items == items
  {
    hide Trim, Trimmed, AsList;
    if items == [] {
      NoItems();
    } else {
      var front, last := items[..|items| - 1], items[|items| - 1];
      ClearIsKept(front);
      TrimTrims(last.s);
      assert items == front + [last];
      OneItemMore(Kept(front), last.s);
    }
  }

  lemma ListIsNormal(f: Field, v: Json, rule: string -> bool)
    ensures ListOf(f, v, rule).Ok? ==> ListOf(f, v, rule).value.Some? && ClearList(ListOf(f, v, rule).value.value, rule)
    ensures ClearList(v, rule) ==> ListOf(f, v, rule) == Ok(Some(v))
  {
    if v.List? && Texts(v) { KeptIsClear(v.items); }
    if ClearList(v, rule) {
      ClearIsKept(v.items);
      assert AsList(Kept(v.items)).items == v.items;
      forall i | 0 <= i < |Kept(v.items)|
        ensures rule(Kept(v.items)[i])
      {
        assert AsList(Kept(v.items)).items[i] == Str(Kept(v.items)[i]);
      }
    }
  }

  /** A field is returned in normal form. */
  lemma FieldIsNormal(f: Field, v: Json, t: Tables)
    requires FieldOf(f, v, t).Ok?
    ensures Normal(f, FieldOf(f, v, t).value, t)
  {
    hide HostRule, NickShape, NickFits, NickReserved, UserRule, PassRule, AliasRule, ListOf, Trim, Trimmed;
    TrimTrims(TextOf(v));
    ListIsNormal(f, v, ChannelRule);
    ListIsNormal(f, v, HighlightRule);
  }

  /** And a normal value is returned as it is. */
  lemma NormalIsKept(f: Field, w: Option<Json>, t: Tables)
    requires Normal(f, w, t) && FloatsHoldPorts(t)
    ensures FieldOf(f, OrNull(w), t) == Ok(w)
  {
    hide HostRule, NickShape, NickFits, NickReserved, UserRule, AliasRule, ListOf, Trim, Trimmed;
    TrimTrims(TextOf(OrNull(w)));
    ListIsNormal(f, OrNull(w), ChannelRule);
    ListIsNormal(f, OrNull(w), HighlightRule);
    NothingLeft();
  }

  lemma NothingLeft()
    ensures Trim("") == ""
  {}

  // ---- all of them ----

  type Settings = map<string, Json>

  function With(config: Settings, f: Field, w: Option<Json>): Settings {
    if w.Some? then config[Key(f) := w.value] else config
  }

  /** The first n fields, or the first problem among them. */
  function First(params: Settings, n: nat, t: Tables): Result<Settings, Problem>
    requires n <= |FIELDS|
  {
    if n == 0 then Ok(map[])
    else
      var front := First(params, n - 1, t);
      if front.Err? then front
      else
        var f := FIELDS[n - 1];
        match FieldOf(f, Get(params, Key(f)), t)
        case Err(p) => Err(p)
        case Ok(w) => Ok(With(front.value, f, w))
  }

  /** Clean of decoded settings; None is what couldn't be decoded. */
  function Cleaned(input: Option<Json>, t: Tables): Result<Settings, Problem> {
    if input.None? then Err(NotJson)
    else if !input.value.Object? then Err(Missing(Host))
    else First(input.value.fields, |FIELDS|, t)
  }

  lemma KeysDiffer(i: nat, j: nat)
    requires i < |FIELDS| && j < |FIELDS| && Key(FIELDS[i]) == Key(FIELDS[j])
    ensures i == j
  {}

  /** An accepted prefix: each of its keys holds what its field became, and there
      are no others. */
  lemma {:induction false} FirstHolds(params: Settings, n: nat, t: Tables)
    requires n <= |FIELDS| && First(params, n, t).Ok?
    ensures forall i :: 0 <= i < n ==> FieldOf(FIELDS[i], Get(params, Key(FIELDS[i])), t).Ok?
    ensures forall i :: 0 <= i < n ==>
                          var f := FIELDS[i]; Holds(First(params, n, t).value, f, FieldOf(f, Get(params, Key(f)), t))
    ensures forall k :: k in First(params, n, t).value ==> exists i :: 0 <= i < n && Key(FIELDS[i]) == k
  {
    hide FieldOf, Key;
    if n > 0 {
      FirstHolds(params, n - 1, t);
      var f := FIELDS[n - 1];
      var front := First(params, n - 1, t).value;
      forall i | 0 <= i < n
        ensures Holds(First(params, n, t).value, FIELDS[i], FieldOf(FIELDS[i], Get(params, Key(FIELDS[i])), t))
      {
        if Key(FIELDS[i]) == Key(f) { KeysDiffer(i, n - 1); }
        if i == n - 1 && Key(f) in front {
          var j :| 0 <= j < n - 1 && Key(FIELDS[j]) == Key(f);
          KeysDiffer(j, n - 1);
        }
      }
    }
  }

  predicate Holds(config: Settings, f: Field, r: Outcome) {
    r.Ok? && OptionAt(config, Key(f)) == r.value
  }

  function OptionAt(config: Settings, key: string): Option<Json> {
    if key in config then Some(config[key]) else None
  }

  /** Settings that are just as they should be: every field normal, no other key. */
  ghost predicate NormalForm(config: Settings, t: Tables) {
    && (forall i :: 0 <= i < |FIELDS| ==> Normal(FIELDS[i], OptionAt(config, Key(FIELDS[i])), t))
    && (forall k :: k in config ==> exists i :: 0 <= i < |FIELDS| && Key(FIELDS[i]) == k)
  }

  /** The settings cut down to the first n fields. */
  lemma {:induction false} NormalFirst(config: Settings, n: nat, t: Tables)
    requires n <= |FIELDS| && NormalForm(config, t) && FloatsHoldPorts(t)
    ensures First(config, n, t).Ok?
    ensures forall i :: 0 <= i < n ==>
                          OptionAt(First(config, n, t).value, Key(FIELDS[i])) == OptionAt(config, Key(FIELDS[i]))
  {
    hide FieldOf, Key, Normal;
    if n > 0 {
      NormalFirst(config, n - 1, t);
      var f := FIELDS[n - 1];
      NormalIsKept(f, OptionAt(config, Key(f)), t);
      assert OrNull(OptionAt(config, Key(f))) == Get(config, Key(f));
      FirstHolds(config, n, t);
      forall i | 0 <= i < n
        ensures OptionAt(First(config, n, t).value, Key(FIELDS[i])) == OptionAt(config, Key(FIELDS[i]))
      {
        NormalIsKept(FIELDS[i], OptionAt(config, Key(FIELDS[i])), t);
        assert OrNull(OptionAt(config, Key(FIELDS[i]))) == Get(config, Key(FIELDS[i]));
        assert Holds(First(config, n, t).value, FIELDS[i], FieldOf(FIELDS[i], Get(config, Key(FIELDS[i])), t));
      }
    }
  }

  /** Clean returns settings unchanged exactly when they are in normal form. */
  lemma FixedIffNormal(config: Settings, t: Tables)
    requires FloatsHoldPorts(t)
    ensures Cleaned(Some(Object(config)), t) == Ok(config) <==> NormalForm(config, t)
  {
    hide FieldOf, Key, Normal, First;
    var n := |FIELDS|;
    if Cleaned(Some(Object(config)), t) == Ok(config) { AcceptedIsNormal(config, t); }
    if NormalForm(config, t) {
      NormalFirst(config, n, t);
      FirstHolds(config, n, t);
      SameSettings(First(config, n, t).value, config);
    }
  }

  lemma SameSettings(a: Settings, b: Settings)
    requires forall i :: 0 <= i < |FIELDS| ==> OptionAt(a, Key(FIELDS[i])) == OptionAt(b, Key(FIELDS[i]))
    requires forall k :: k in a ==> exists i :: 0 <= i < |FIELDS| && Key(FIELDS[i]) == k
    requires forall k :: k in b ==> exists i :: 0 <= i < |FIELDS| && Key(FIELDS[i]) == k
    ensures a == b
  {
    hide Key;
    forall k
      ensures k in a <==> k in b
      ensures k in a ==> a[k] == b[k]
    {
      if k in a || k in b {
        var i :| 0 <= i < |FIELDS| && Key(FIELDS[i]) == k;
        assert OptionAt(a, Key(FIELDS[i])) == OptionAt(b, Key(FIELDS[i]));
      }
    }
  }

  /** Whatever Clean accepts it returns in normal form: text trimmed and not blank
      but for the password, every value by its rule, and no unknown key. */
  lemma AcceptedIsNormal(params: Settings, t: Tables)
    requires Cleaned(Some(Object(params)), t).Ok?
    ensures NormalForm(Cleaned(Some(Object(params)), t).value, t)
  {
    hide FieldOf, Key, Normal, First;
    var config := Cleaned(Some(Object(params)), t).value;
    FirstHolds(params, |FIELDS|, t);
    forall i | 0 <= i < |FIELDS|
      ensures Normal(FIELDS[i], OptionAt(config, Key(FIELDS[i])), t)
    {
      assert Holds(config, FIELDS[i], FieldOf(FIELDS[i], Get(params, Key(FIELDS[i])), t));
      FieldIsNormal(FIELDS[i], Get(params, Key(FIELDS[i])), t);
    }
  }

  /** Fed back, an accepted result is accepted unchanged. */
  lemma CleanIsIdempotent(params: Settings, t: Tables)
    requires FloatsHoldPorts(t) && Cleaned(Some(Object(params)), t).Ok?
    ensures var config := Cleaned(Some(Object(params)), t).value;
            Cleaned(Some(Object(config)), t) == Ok(config)
  {
    hide NormalForm, First;
    AcceptedIsNormal(params, t);
    FixedIffNormal(Cleaned(Some(Object(params)), t).value, t);
  }

  /** Only the known keys matter, and a null is as good as nothing. */
  lemma {:induction false} OnlyKnownKeysMatter(a: Settings, b: Settings, n: nat, t: Tables)
    requires n <= |FIELDS| && forall i :: 0 <= i < n ==> Get(a, Key(FIELDS[i])) == Get(b, Key(FIELDS[i]))
    ensures First(a, n, t) == First(b, n, t)
    ensures n == |FIELDS| ==> Cleaned(Some(Object(a)), t) == Cleaned(Some(Object(b)), t)
  {
    hide FieldOf, Key;
    if n > 0 { OnlyKnownKeysMatter(a, b, n - 1, t); }
  }

  // ---- the rules as the patterns they are written as ----

  /** perlSpace: tab to carriage return, and the White_Space characters beyond ASCII. */
  lemma SpacesAre(c: char)
    ensures Space(c) <==>
            || c in "\t\n\U{000B}\U{000C}\r " || '\U{2000}' <= c <= '\U{200A}'
            || c in "\U{0085}\U{00A0}\U{1680}\U{2028}\U{2029}\U{202F}\U{205F}\U{3000}"
  {}

  /** userRe is first rest{0,31}. */
  lemma UserIsPattern(first: char -> bool, rest: char -> bool, s: string)
    requires forall c :: first(c) <==> c !in " \0\r\n@:"
    requires forall c :: rest(c) <==> c !in " \0\r\n@"
    ensures UserRule(s) <==> Matches([One(first), Piece(rest, 0, Some(31))], s)
  {
    hide Matches;
    var tail := Piece(rest, 0, Some(31));
    MatchesHead(first, [tail], s);
    assert [One(first)] + [tail] == [One(first), tail];
    if s != "" {
      MatchesOne(tail, s[1..]);
      Tail(s);
    }
  }

  lemma Tail(s: string)
    requires s != ""
    ensures |s[1..]| == |s| - 1
    ensures forall p: char -> bool :: All(s, p) <==> p(s[0]) && All(s[1..], p)
  {
    forall p: char -> bool
      ensures All(s, p) <==> p(s[0]) && All(s[1..], p)
    {
      if All(s[1..], p) && p(s[0]) {
        forall i | 0 <= i < |s| ensures p(s[i]) { if i > 0 { assert s[1..][i - 1] == s[i]; } }
      }
    }
  }

  /** nickRe is first rest*, and none of nickForbidden's characters is in a nick. */
  lemma NickIsPattern(first: char -> bool, s: string, t: Tables)
    requires forall c :: first(c) <==> c !in "#~&@%+-$"
    ensures NickShape(s, t) <==>
            && Matches([One(first), Piece(t.graphic, 0, None)], s)
            && forall i :: 0 <= i < |s| ==> s[i] !in " ,*?.!@:<>'\";#/"
  {
    hide Matches;
    var tail := Piece(t.graphic, 0, None);
    MatchesHead(first, [tail], s);
    assert [One(first)] + [tail] == [One(first), tail];
    if s != "" { MatchesOne(tail, s[1..]); }
    NickShapeIs(s, t);
  }

  lemma NickShapeIs(s: string, t: Tables)
    ensures NickShape(s, t) <==>
            && s != "" && s[0] !in "#~&@%+-$" && (forall i :: 0 <= i < |s[1..]| ==> t.graphic(s[1..][i]))
            && forall i :: 0 <= i < |s| ==> s[i] !in " ,*?.!@:<>'\";#/"
  {}

  /** A pattern that can't end in a newline, with Perl's `$`, is the pattern of the text before one. */
  lemma ChopIsEnd(ps: seq<Piece>, s: string)
    requires Matches(ps, s) ==> s == "" || s[|s| - 1] != '\n'
    ensures Matches(ps + [END], s) <==> Matches(ps, Chop(s))
  {
    hide Matches;
    MatchesEnd(ps, s);
  }

  /** channelRe is first rest{1,199}, then Perl's `$`. */
  lemma ChannelIsPattern(first: char -> bool, rest: char -> bool, s: string)
    requires forall c :: first(c) <==> c in "#&+!"
    requires forall c :: rest(c) <==> !Space(c) && c != ',' && c >= ' ' && c != '\U{7F}'
    ensures ChannelRule(s) <==> Matches([One(first), Piece(rest, 1, Some(199)), END], s)
  {
    hide Matches;
    var tail := Piece(rest, 1, Some(199));
    forall m
      ensures Matches([One(first), tail], m) <==> 2 <= |m| <= 200 && first(m[0]) && All(m[1..], rest)
    {
      MatchesHead(first, [tail], m);
      assert [One(first)] + [tail] == [One(first), tail];
      if m != "" { MatchesOne(tail, m[1..]); }
    }
    if Matches([One(first), tail], s) { assert rest(s[1..][|s| - 2]); }
    ChopIsEnd([One(first), tail], s);
    assert [One(first), tail] + [END] == [One(first), tail, END];
  }

  /** aliasRe is chars{1,32}, then Perl's `$`. */
  lemma AliasIsPattern(chars: char -> bool, s: string)
    requires forall c :: chars(c) <==> 'A' <= c <= 'Z' || 'a' <= c <= 'z' || '0' <= c <= '9' || c in " .-"
    ensures AliasRule(s) <==> Matches([Piece(chars, 1, Some(32)), END], s)
  {
    hide Matches;
    var all := Piece(chars, 1, Some(32));
    MatchesOne(all, s);
    MatchesOne(all, Chop(s));
    ChopIsEnd([all], s);
    assert [all] + [END] == [all, END];
  }

  /** digitsRe is number+, then Perl's `$`. */
  lemma NumericIsPattern(s: string, t: Tables)
    requires !t.number('\n')
    ensures Numeric(s, t) <==> Matches([Piece(t.number, 1, None), END], s)
  {
    hide Matches;
    var all := Piece(t.number, 1, None);
    MatchesOne(all, s);
    MatchesOne(all, Chop(s));
    ChopIsEnd([all], s);
    assert [all] + [END] == [all, END];
  }

  /** labelRe is alnum, or alnum middle{0,61} alnum, then Perl's `$`. */
  lemma LabelIsPattern(alnum: char -> bool, middle: char -> bool, s: string)
    requires forall c :: alnum(c) <==> 'A' <= c <= 'Z' || 'a' <= c <= 'z' || '0' <= c <= '9'
    requires forall c :: middle(c) <==> alnum(c) || c == '-'
    ensures Label(s) <==>
            || Matches([One(alnum), END], s)
            || Matches([One(alnum), Piece(middle, 0, Some(61)), One(alnum), END], s)
  {
    hide Matches, Label;
    var short, long := [One(alnum)], [One(alnum), Piece(middle, 0, Some(61)), One(alnum)];
    assert short + [END] == [One(alnum), END];
    assert long + [END] == [One(alnum), Piece(middle, 0, Some(61)), One(alnum), END];
    ShortLabel(alnum, s);
    ShortLabel(alnum, Chop(s));
    LongLabel(alnum, middle, s);
    LongLabel(alnum, middle, Chop(s));
    ChopIsEnd(short, s);
    ChopIsEnd(long, s);
    LabelIs(s);
  }

  lemma LabelIs(s: string)
    ensures Label(s) <==>
            var m := Chop(s);
            && 1 <= |m| <= 63 && Alnum(m[0]) && Alnum(m[|m| - 1])
            && forall i :: 0 < i < |m| - 1 ==> Alnum(m[i]) || m[i] == '-'
  {}

  lemma ShortLabel(alnum: char -> bool, m: string)
    ensures Matches([One(alnum)], m) <==> |m| == 1 && alnum(m[0])
  {
    hide Matches;
    MatchesOne(One(alnum), m);
  }

  lemma LongLabel(alnum: char -> bool, middle: char -> bool, m: string)
    ensures Matches([One(alnum), Piece(middle, 0, Some(61)), One(alnum)], m) <==>
            && 2 <= |m| <= 63 && alnum(m[0]) && alnum(m[|m| - 1])
            && forall i :: 0 < i < |m| - 1 ==> middle(m[i])
  {
    hide Matches;
    var piece := Piece(middle, 0, Some(61));
    assert [One(alnum)] + [piece, One(alnum)] == [One(alnum), piece, One(alnum)];
    MatchesHead(alnum, [piece, One(alnum)], m);
    if m != "" {
      var r := m[1..];
      assert [piece] + [One(alnum)] == [piece, One(alnum)];
      MatchesTail([piece], One(alnum), r);
      forall n | 0 <= n <= |r|
        ensures Matches([piece], r[..n]) <==> Fits(piece, r[..n])
        ensures Fits(One(alnum), r[n..]) <==> n == |r| - 1 && alnum(r[n])
      {
        MatchesOne(piece, r[..n]);
      }
      if |r| > 0 { MiddleFits(middle, m); }
    }
  }

  lemma MiddleFits(middle: char -> bool, m: string)
    requires |m| >= 2
    ensures var r := m[1..];
            Fits(Piece(middle, 0, Some(61)), r[..|r| - 1])
            <==> |m| <= 63 && forall i :: 0 < i < |m| - 1 ==> middle(m[i])
  {
    var inner := m[1..][..|m| - 2];
    assert inner == m[1..|m| - 1];
    assert forall i {:trigger m[i]} :: 0 < i < |m| - 1 ==> inner[i - 1] == m[i];
  }

  /** An IPv4 literal is four numbers of one to three digits, none above 255, with
      dots between, and perhaps a final newline. */
  lemma Ipv4Is(host: string)
    ensures Ipv4(host) <==>
            exists a, b, c, d :: OctetText(a) && OctetText(b) && OctetText(c) && OctetText(d)
                                 && Chop(host) == a + "." + b + "." + c + "." + d
  {
    hide SplitDots;
    var parts := SplitDots(Chop(host));
    SplitIsCut(Chop(host));
    forall p
      ensures Octet(p) <==> OctetText(p)
    {
      OctetIs(p);
    }
    if Ipv4(host) {
      JoinFour(parts);
      assert Chop(host) == parts[0] + "." + parts[1] + "." + parts[2] + "." + parts[3];
    }
    if a, b, c, d :| OctetText(a) && OctetText(b) && OctetText(c) && OctetText(d)
                     && Chop(host) == a + "." + b + "." + c + "." + d {
      SplitFour(a, b, c, d);
    }
  }

  /** One to three digits, not above 255. */
  predicate OctetText(p: string) {
    && 1 <= |p| <= 3 && (forall i :: 0 <= i < |p| ==> '0' <= p[i] <= '9')
    && var digit := (i: int) requires 0 <= i < |p| => p[i] as int - '0' as int;
    (if |p| == 1 then digit(0) else if |p| == 2 then 10 * digit(0) + digit(1)
     else 100 * digit(0) + 10 * digit(1) + digit(2)) <= 255
  }

  lemma OctetIs(p: string)
    ensures Octet(p) <==> OctetText(p)
  {
    if 1 <= |p| <= 3 && All(p, Digit) {
      assert Value(p[..1]) == p[0] as int - '0' as int by { assert p[..1][..0] == ""; }
      if |p| >= 2 { assert p[..2][..1] == p[..1]; }
      if |p| == 3 { assert p[..3] == p; }
      assert p[..|p|] == p;
    }
  }

  lemma JoinFour(parts: seq<string>)
    requires |parts| == 4
    ensures JoinDots(parts) == parts[0] + "." + parts[1] + "." + parts[2] + "." + parts[3]
  {
    assert JoinDots(parts[3..]) == parts[3];
    assert JoinDots(parts[2..]) == parts[2] + "." + parts[3];
    assert JoinDots(parts[1..]) == parts[1] + "." + (parts[2] + "." + parts[3]);
  }

  lemma {:induction false} SplitAt(a: string, rest: string)
    requires '.' !in a
    ensures SplitDots(a) == [a]
    ensures SplitDots(a + "." + rest) == [a] + SplitDots(rest)
  {
    if a == "" {
      assert "" + "." + rest == "." + rest;
      assert ("." + rest)[1..] == rest;
    } else {
      SplitAt(a[1..], rest);
      assert a == [a[0]] + a[1..];
      assert (a + "." + rest)[1..] == a[1..] + "." + rest;
    }
  }

  lemma SplitFour(a: string, b: string, c: string, d: string)
    requires OctetText(a) && OctetText(b) && OctetText(c) && OctetText(d)
    ensures SplitDots(a + "." + b + "." + c + "." + d) == [a, b, c, d]
  {
    hide SplitDots;
    SplitAt(d, "");
    SplitAt(c, d);
    SplitAt(b, c + "." + d);
    SplitAt(a, b + "." + (c + "." + d));
    assert a + "." + b + "." + c + "." + d == a + "." + (b + "." + (c + "." + d));
    assert b + "." + (c + "." + d) == b + "." + c + "." + d;
    assert [a] + ([b] + ([c] + [d])) == [a, b, c, d];
  }

  /** A host is an IPv4 literal, or at most 253 characters of labels with dots
      between, the last of them not a number. */
  lemma HostIs(host: string, t: Tables)
    ensures HostRule(host, t) <==>
            || Ipv4(host)
            || (|host| <= 253 && exists labels :: HostLabels(host, labels, t))
  {
    hide Ipv4, Label, Numeric, SplitDots;
    SplitIsCut(host);
    if |host| <= 253 && !Numeric(SplitDots(host)[|SplitDots(host)| - 1], t)
       && (forall k :: 0 <= k < |SplitDots(host)| ==> Label(SplitDots(host)[k])) {
      assert HostLabels(host, SplitDots(host), t);
    }
    if labels :| HostLabels(host, labels, t) { SplitJoined(labels); }
  }

  predicate HostLabels(host: string, labels: seq<string>, t: Tables) {
    && |labels| >= 1 && JoinDots(labels) == host && !Numeric(labels[|labels| - 1], t)
    && forall k :: 0 <= k < |labels| ==> '.' !in labels[k] && Label(labels[k])
  }

  lemma {:induction false} SplitJoined(labels: seq<string>)
    requires |labels| >= 1 && forall k :: 0 <= k < |labels| ==> '.' !in labels[k]
    ensures SplitDots(JoinDots(labels)) == labels
  {
    hide SplitDots;
    if |labels| == 1 {
      SplitAt(labels[0], "");
    } else {
      SplitJoined(labels[1..]);
      SplitAt(labels[0], JoinDots(labels[1..]));
    }
  }

  /** A highlight word has no control characters. */
  lemma HighlightIs(word: string)
    ensures HighlightRule(word) <==> forall i :: 0 <= i < |word| ==> word[i] >= ' ' && word[i] != '\U{7F}'
  {}

  // ---- what is accepted, and what it becomes ----

  /** Bytes of UTF-8: one below U+0080, two below U+0800, three below U+10000, else four. */
  lemma {:induction false} ByteLengthIs(s: string, c: char)
    ensures ByteLength("") == 0
    ensures ByteLength([c] + s)
         == ByteLength(s) + if c < '\U{80}' then 1 else if c < '\U{800}' then 2 else if c < '\U{10000}' then 3 else 4
  {
    assert CharCodes([c] + s) == [c as int] + CharCodes(s);
    assert ([c as int] + CharCodes(s))[1..] == CharCodes(s);
  }

  /** The names that Ergo keeps for itself, compared folded. */
  lemma ReservedAre(nick: string, t: Tables)
    ensures NickReserved(nick, t) <==>
            t.fold(nick) in {t.fold("0"), t.fold("NickServ"), t.fold("ChanServ"), t.fold("HostServ"),
                             t.fold("HistServ"), t.fold("MemoServ"), t.fold("BotServ"), t.fold("OperServ"),
                             t.fold("Global"), t.fold("=scene=")}
  {
    var r := RESERVED;
    assert r[0] == "0" && r[1] == "NickServ" && r[2] == "ChanServ" && r[3] == "HostServ" && r[4] == "HistServ";
    assert r[5] == "MemoServ" && r[6] == "BotServ" && r[7] == "OperServ" && r[8] == "Global" && r[9] == "=scene=";
  }

  /** list keeps order: the items of two lists together are the items of one and then the other. */
  lemma {:induction false} KeptTogether(a: seq<Json>, b: seq<Json>)
    requires forall i :: 0 <= i < |a| ==> a[i].Str?
    requires forall i :: 0 <= i < |b| ==> b[i].Str?
    ensures Kept(a + b) == Kept(a) + Kept(b)
    ensures |a| == 1 ==> Kept(a) == if Trim(a[0].s) == "" then [] else [Trim(a[0].s)]
  {
    hide Trim;
    if |a| == 1 { assert Kept(a[..0]) == []; }
    if b == [] { assert a + b == a; } else {
      KeptTogether(a, b[..|b| - 1]);
      assert (a + b)[..|a + b| - 1] == a + b[..|b| - 1];
    }
  }

  lemma OneMoreHolds(a: seq<string>, more: seq<string>, rule: string -> bool)
    requires |more| <= 1
    ensures (forall i :: 0 <= i < |a + more| ==> rule((a + more)[i]))
       <==> (forall i :: 0 <= i < |a| ==> rule(a[i])) && (more == [] || rule(more[0]))
  {
    assert forall i :: 0 <= i < |a| ==> (a + more)[i] == a[i];
    if more != [] { assert (a + more)[|a|] == more[0]; }
  }

  lemma {:induction false} EachKept(items: seq<Json>, rule: string -> bool)
    requires forall i :: 0 <= i < |items| ==> items[i].Str?
    ensures (forall i :: 0 <= i < |Kept(items)| ==> rule(Kept(items)[i]))
       <==> forall i :: 0 <= i < |items| ==> Trim(items[i].s) == "" || rule(Trim(items[i].s))
  {
    hide Trim;
    if items != [] {
      var front, last := items[..|items| - 1], items[|items| - 1];
      EachKept(front, rule);
      assert items == front + [last];
      var more := if Trim(last.s) == "" then [] else [Trim(last.s)];
      assert Kept(items) == Kept(front) + more;
      OneMoreHolds(Kept(front), more, rule);
    }
  }

  lemma {:induction false} FirstOkIff(params: Settings, n: nat, t: Tables)
    requires n <= |FIELDS|
    ensures First(params, n, t).Ok?
       <==> forall i :: 0 <= i < n ==> FieldOf(FIELDS[i], Get(params, Key(FIELDS[i])), t).Ok?
  {
    hide FieldOf, Key;
    if n > 0 { FirstOkIff(params, n - 1, t); }
  }

  /** A value that is null, or text that trimmed is blank or follows a rule. */
  predicate BlankOr(v: Json, rule: string -> bool) {
    v.Null? || (v.Str? && (Trim(v.s) == "" || rule(Trim(v.s))))
  }

  /** A value that is null, or a list of strings that trimmed are blank or follow a rule. */
  predicate ListBy(v: Json, rule: string -> bool) {
    v.Null? || (v.List? && forall i :: 0 <= i < |v.items| ==>
                                         v.items[i].Str? && (Trim(v.items[i].s) == "" || rule(Trim(v.items[i].s))))
  }

  /** A number that is read as a whole one from 1 to 65535. */
  predicate ReadsAsPort(v: Json, t: Tables) {
    v.Num? && t.float(v.n).Some? && exists k: int :: IsNumber(k, t.float(v.n).value) && 1 <= k <= 65535
  }

  predicate IsNumber(k: int, f: real) { k as real == f }

  lemma PortReads(v: Json, t: Tables)
    ensures PortOf(v, t).Ok? <==> ReadsAsPort(v, t)
    ensures PortOf(v, t).Ok? ==> PortOf(v, t).value == Some(Num(t.float(v.n).value))
  {
    if PortOf(v, t).Ok? { assert IsNumber(t.float(v.n).value.Floor, t.float(v.n).value); }
    if v.Num? && t.float(v.n).Some? {
      forall k: int | IsNumber(k, t.float(v.n).value)
        ensures t.float(v.n).value.Floor == k
      {
      }
    }
  }

  lemma ListReads(f: Field, v: Json, rule: string -> bool)
    ensures ListOf(f, v, rule).Ok? <==> ListBy(v, rule)
    ensures ListOf(f, v, rule).Ok? ==> ListOf(f, v, rule).value == Some(AsList(if v.Null? then [] else Kept(v.items)))
  {
    hide Trim;
    if v.List? && Texts(v) { EachKept(v.items, rule); }
  }

  /** Exactly these settings are accepted. */
  lemma AcceptedIff(params: Settings, t: Tables)
    ensures Cleaned(Some(Object(params)), t).Ok? <==>
            var host, nick, pass := Get(params, "Host"), Get(params, "Nick"), Get(params, "Pass");
            && host.Str? && Trim(host.s) != "" && HostRule(Trim(host.s), t)
            && ReadsAsPort(Get(params, "Port"), t)
            && nick.Str? && Trim(nick.s) != "" && NickShape(Trim(nick.s), t) && !NickReserved(Trim(nick.s), t)
            && ByteLength(Trim(nick.s)) <= 32 && ByteLength(t.nfd(t.fold(t.nfd(Trim(nick.s))))) <= 32
            && BlankOr(Get(params, "User"), UserRule)
            && (pass.Null? || (pass.Str? && '\r' !in pass.s && '\n' !in pass.s && '\0' !in pass.s))
            && ListBy(Get(params, "Channels"), ChannelRule)
            && ListBy(Get(params, "Highlight"), HighlightRule)
            && BlankOr(Get(params, "Alias"), AliasRule)
            && (Get(params, "Ssl").Null? || Get(params, "Ssl").Bool?)
            && (Get(params, "SASL").Null? || Get(params, "SASL").Bool?)
  {
    hide First, FieldOf, Get, Trim, ReadsAsPort, NickShape, ByteLength, NickReserved, HostRule, ListBy, BlankOr;
    FirstOkIff(params, |FIELDS|, t);
    FieldsAre(Get(params, "Host"), Get(params, "Port"), Get(params, "Nick"), t);
    OptionalsAre(Get(params, "User"), Get(params, "Pass"), Get(params, "Alias"), t);
    ListsAre(Get(params, "Channels"), Get(params, "Highlight"), t);
    FlagsAre(Get(params, "Ssl"), Get(params, "SASL"), t);
    TenFields();
  }

  lemma TenFields()
    ensures |FIELDS| == 10
    ensures FIELDS[0] == Host && FIELDS[1] == Port && FIELDS[2] == Nick && FIELDS[3] == User && FIELDS[4] == Pass
    ensures FIELDS[5] == Channels && FIELDS[6] == Highlight && FIELDS[7] == Alias
    ensures FIELDS[8] == Ssl && FIELDS[9] == Sasl
    ensures Key(Host) == "Host" && Key(Port) == "Port" && Key(Nick) == "Nick"
    ensures Key(User) == "User" && Key(Pass) == "Pass"
    ensures Key(Channels) == "Channels" && Key(Highlight) == "Highlight" && Key(Alias) == "Alias"
    ensures Key(Ssl) == "Ssl" && Key(Sasl) == "SASL"
  {}

  lemma FieldsAre(host: Json, port: Json, nick: Json, t: Tables)
    ensures FieldOf(Host, host, t).Ok? <==> host.Str? && Trim(host.s) != "" && HostRule(Trim(host.s), t)
    ensures FieldOf(Host, host, t).Ok? ==> FieldOf(Host, host, t).value == Some(Str(Trim(host.s)))
    ensures FieldOf(Port, port, t).Ok? <==> ReadsAsPort(port, t)
    ensures FieldOf(Port, port, t).Ok? ==> FieldOf(Port, port, t).value == Some(Num(t.float(port.n).value))
    ensures FieldOf(Nick, nick, t).Ok? <==>
            && nick.Str? && Trim(nick.s) != "" && NickShape(Trim(nick.s), t) && !NickReserved(Trim(nick.s), t)
            && ByteLength(Trim(nick.s)) <= 32 && ByteLength(t.nfd(t.fold(t.nfd(Trim(nick.s))))) <= 32
    ensures FieldOf(Nick, nick, t).Ok? ==> FieldOf(Nick, nick, t).value == Some(Str(Trim(nick.s)))
  {
    hide HostRule, NickShape, ByteLength, NickReserved, ReadsAsPort;
    PortReads(port, t);
    NothingLeft();
  }

  lemma OptionalsAre(user: Json, pass: Json, alias: Json, t: Tables)
    ensures FieldOf(User, user, t).Ok? <==> BlankOr(user, UserRule)
    ensures FieldOf(User, user, t).Ok? ==>
              FieldOf(User, user, t).value == if user.Null? || Trim(user.s) == "" then None else Some(Str(Trim(user.s)))
    ensures FieldOf(Pass, pass, t).Ok? <==>
            pass.Null? || (pass.Str? && '\r' !in pass.s && '\n' !in pass.s && '\0' !in pass.s)
    ensures FieldOf(Pass, pass, t).Ok? ==>
              FieldOf(Pass, pass, t).value == if pass.Null? || pass.s == "" then None else Some(pass)
    ensures FieldOf(Alias, alias, t).Ok? <==> BlankOr(alias, AliasRule)
    ensures FieldOf(Alias, alias, t).Ok? ==>
              FieldOf(Alias, alias, t).value
              == if alias.Null? || Trim(alias.s) == "" then None else Some(Str(Trim(alias.s)))
  {
    hide UserRule, AliasRule;
    NothingLeft();
  }

  lemma ListsAre(channels: Json, highlight: Json, t: Tables)
    ensures FieldOf(Channels, channels, t).Ok? <==> ListBy(channels, ChannelRule)
    ensures FieldOf(Channels, channels, t).Ok? ==>
              FieldOf(Channels, channels, t).value == Some(AsList(if channels.Null? then [] else Kept(channels.items)))
    ensures FieldOf(Highlight, highlight, t).Ok? <==> ListBy(highlight, HighlightRule)
    ensures FieldOf(Highlight, highlight, t).Ok? ==>
              FieldOf(Highlight, highlight, t).value
              == Some(AsList(if highlight.Null? then [] else Kept(highlight.items)))
  {
    hide ListOf, ListBy, Kept;
    ListReads(Channels, channels, ChannelRule);
    ListReads(Highlight, highlight, HighlightRule);
  }

  lemma FlagsAre(ssl: Json, sasl: Json, t: Tables)
    ensures FieldOf(Ssl, ssl, t)
         == if ssl.Null? then Ok(Some(Bool(false))) else if ssl.Bool? then Ok(Some(ssl)) else Err(WrongType(Ssl))
    ensures FieldOf(Sasl, sasl, t)
         == if sasl.Null? then Ok(Some(Bool(false))) else if sasl.Bool? then Ok(Some(sasl)) else Err(WrongType(Sasl))
  {}

  /** And each accepted setting becomes this: texts trimmed but for the password, blank
      optional ones left out, lists without blanks, and flags false unless they are true. */
  lemma AcceptedBecome(params: Settings, t: Tables)
    requires Cleaned(Some(Object(params)), t).Ok?
    ensures var c := Cleaned(Some(Object(params)), t).value;
            var host, port, nick := Get(params, "Host"), Get(params, "Port"), Get(params, "Nick");
            var user, pass, alias := Get(params, "User"), Get(params, "Pass"), Get(params, "Alias");
            var channels, highlight := Get(params, "Channels"), Get(params, "Highlight");
            && host.Str? && OptionAt(c, "Host") == Some(Str(Trim(host.s)))
            && port.Num? && t.float(port.n).Some? && OptionAt(c, "Port") == Some(Num(t.float(port.n).value))
            && nick.Str? && OptionAt(c, "Nick") == Some(Str(Trim(nick.s)))
            && TextLike(user) && TextLike(pass) && TextLike(alias) && Texts(channels) && Texts(highlight)
            && OptionAt(c, "User") == (if user.Null? || Trim(user.s) == "" then None else Some(Str(Trim(user.s))))
            && OptionAt(c, "Pass") == (if pass.Null? || pass.s == "" then None else Some(pass))
            && OptionAt(c, "Channels") == Some(AsList(if channels.Null? then [] else Kept(channels.items)))
            && OptionAt(c, "Highlight") == Some(AsList(if highlight.Null? then [] else Kept(highlight.items)))
            && OptionAt(c, "Alias") == (if alias.Null? || Trim(alias.s) == "" then None else Some(Str(Trim(alias.s))))
            && OptionAt(c, "Ssl") == Some(Bool(Get(params, "Ssl") == Bool(true)))
            && OptionAt(c, "SASL") == Some(Bool(Get(params, "SASL") == Bool(true)))
  {
    hide First, FieldOf, Get, Trim, NickShape, ByteLength, NickReserved, HostRule, Kept, OptionAt;
    AcceptedIff(params, t);
    FirstHolds(params, |FIELDS|, t);
    FieldsAre(Get(params, "Host"), Get(params, "Port"), Get(params, "Nick"), t);
    OptionalsAre(Get(params, "User"), Get(params, "Pass"), Get(params, "Alias"), t);
    ListsAre(Get(params, "Channels"), Get(params, "Highlight"), t);
    FlagsAre(Get(params, "Ssl"), Get(params, "SASL"), t);
    TenFields();
  }

  // ---- a host with a line break ----

  predicate Breaks(l: string) { l != "" && l[|l| - 1] == '\n' }

  lemma {:induction false} BreakIsInAPart(s: string)
    ensures '\n' in s <==> exists k :: 0 <= k < |SplitDots(s)| && '\n' in SplitDots(s)[k]
  {
    if s != "" {
      BreakIsInAPart(s[1..]);
      var rest, parts := SplitDots(s[1..]), SplitDots(s);
      assert s == [s[0]] + s[1..];
      if s[0] == '.' {
        assert forall k :: 0 <= k < |rest| ==> parts[k + 1] == rest[k];
      } else {
        assert parts[0] == [s[0]] + rest[0];
        assert forall k :: 1 <= k < |rest| ==> parts[k] == rest[k];
        if k :| 0 <= k < |rest| && '\n' in rest[k] { assert '\n' in parts[k]; }
        if s[0] == '\n' { assert '\n' in parts[0]; }
      }
    }
  }

  lemma LabelBreaks(l: string)
    requires Label(l)
    ensures '\n' in l <==> Breaks(l)
  {}

  lemma OctetBreaks(l: string)
    requires Octet(l)
    ensures '\n' !in l
  {}

  lemma {:induction false} LastPartEnds(s: string)
    ensures var parts := SplitDots(s); Breaks(parts[|parts| - 1]) ==> Breaks(s)
  {
    if s != "" { LastPartEnds(s[1..]); }
  }

  /** The rule for hosts lets a line break through exactly when a label before the
      last ends in one: each label is matched with Perl's `$`. */
  lemma HostBreaksIff(host: string, t: Tables)
    requires HostRule(host, t) && Trimmed(host)
    ensures '\n' in host <==> exists k :: 0 <= k < |SplitDots(host)| - 1 && Breaks(SplitDots(host)[k])
  {
    hide Label, Octet, SplitDots;
    var parts := SplitDots(host);
    BreakIsInAPart(host);
    LastPartEnds(host);
    assert Chop(host) == host;
    forall k | 0 <= k < |parts|
      ensures '\n' in parts[k] <==> Breaks(parts[k])
    {
      if Ipv4(host) { OctetBreaks(parts[k]); } else { LabelBreaks(parts[k]); }
    }
  }

  lemma SplitNone()
    ensures SplitDots("") == [""]
  {}

  lemma SplitStep(c: char, rest: string)
    ensures SplitDots([c] + rest) == if c == '.' then [""] + SplitDots(rest)
                                     else [[c] + SplitDots(rest)[0]] + SplitDots(rest)[1..]
  {
    assert ([c] + rest)[1..] == rest;
  }

  lemma SomeHostBreaks(t: Tables)
    requires !t.number('b')
    ensures HostRule("a\n.b", t) && Trimmed("a\n.b")
  {
    hide SplitDots;
    SplitExample();
    assert Chop("a\n") == "a" && Chop("b") == "b";
  }

  lemma SplitExample()
    ensures SplitDots("a\n.b") == ["a\n", "b"]
  {
    hide SplitDots;
    SplitNone();
    SplitStep('b', "");
    assert "b" == ['b'] + "" && ['b'] + [""][0] == "b";
    SplitStep('.', "b");
    SplitStep('\n', ".b");
    assert ".b" == ['.'] + "b" && "\n.b" == ['\n'] + ".b" && ['\n'] + "" == "\n";
    SplitStep('a', "\n.b");
    assert "a\n.b" == ['a'] + "\n.b" && ['a'] + "\n" == "a\n";
  }

  // ---- the code ----

  method Ipv4Literal(host: string) returns (ok: bool)
    ensures ok == Ipv4(host)
  {
    var parts := SplitDots(Chop(host));
    if |parts| != 4 { return false; }
    for i := 0 to 4
      invariant forall k :: 0 <= k < i ==> Octet(parts[k])
    {
      if !Octet(parts[i]) { return false; }
    }
    ok := true;
  }

  method ValidHost(host: string, t: Tables) returns (ok: bool)
    ensures ok == HostRule(host, t)
  {
    hide Ipv4, Label, Numeric, SplitDots;
    var ipv4 := Ipv4Literal(host);
    if ipv4 { return true; }
    if |host| > 253 { return false; }
    var labels := SplitDots(host);
    if Numeric(labels[|labels| - 1], t) { return false; }
    for i := 0 to |labels|
      invariant forall k :: 0 <= k < i ==> Label(labels[k])
    {
      if !Label(labels[i]) { return false; }
    }
    ok := true;
  }

  /** list: None for anything but a list of strings or null. */
  method ListItems(v: Json) returns (r: Option<seq<string>>)
    ensures r == if Texts(v) then Some(ItemsOf(v)) else None
  {
    hide Trim;
    if v.Null? { return Some([]); }
    if !v.List? { return None; }
    var out := [];
    for i := 0 to |v.items|
      invariant forall k :: 0 <= k < i ==> v.items[k].Str?
      invariant out == Kept(v.items[..i])
    {
      if !v.items[i].Str? { return None; }
      assert v.items[..i + 1][..i] == v.items[..i];
      var s := Trim(v.items[i].s);
      if s != "" { out := out + [s]; }
    }
    assert v.items[..|v.items|] == v.items;
    r := Some(out);
  }

  lemma FirstNext(params: Settings, n: nat, t: Tables)
    requires n < |FIELDS|
    ensures var f := FIELDS[n];
            First(params, n + 1, t)
            == if First(params, n, t).Err? then First(params, n, t)
            else match FieldOf(f, Get(params, Key(f)),
                               t) case Err(p) => Err(p) case Ok(w) => Ok(With(First(params, n, t).value, f, w))
  {}

  /** Clean: the settings with only the known keys, or the first problem. */
  method Clean(input: Option<Json>, t: Tables) returns (r: Result<Settings, Problem>)
    ensures r == Cleaned(input, t)
  {
    hide First, FieldOf, Get;
    if input.None? { return Err(NotJson); }
    if !input.value.Object? { return Err(Missing(Host)); }
    var params := input.value.fields;
    r := CleanHost(params, t);
    if r.Err? { FirstErr(params, 2, |FIELDS|, t); return; }
    r := CleanNames(params, r.value, t);
    if r.Err? { FirstErr(params, 5, |FIELDS|, t); return; }
    r := CleanLists(params, r.value, t);
    if r.Err? { FirstErr(params, 7, |FIELDS|, t); return; }
    r := CleanRest(params, r.value, t);
  }

  lemma {:induction false} FirstErr(params: Settings, n: nat, m: nat, t: Tables)
    requires n <= m <= |FIELDS| && First(params, n, t).Err?
    ensures First(params, m, t) == First(params, n, t)
  {
    if n < m { FirstErr(params, n, m - 1, t); }
  }

  /** Host and Port. */
  method CleanHost(params: Settings, t: Tables) returns (r: Result<Settings, Problem>)
    ensures r == First(params, 2, t)
  {
    hide First, HostRule, Get, Trim;
    FirstNone(params, t);
    FirstNext(params, 0, t);
    FirstNext(params, 1, t);
    var config: Settings := map[];
    var v := Get(params, "Host");
    if !v.Null? && !v.Str? { return Err(WrongType(Host)); }
    var host := if v.Str? then Trim(v.s) else "";
    if host == "" { NothingLeft(); return Err(Missing(Host)); }
    var valid := ValidHost(host, t);
    if !valid { return Err(Refused(Host)); }
    config := config["Host" := Str(host)];

    var p := Get(params, "Port");
    if !p.Null? && !p.Num? { return Err(WrongType(Port)); }
    var port := 0;
    if p.Num? {
      var f := t.float(p.n);
      if f.Some? && f.value == f.value.Floor as real && 1.0 <= f.value <= 65535.0 { port := f.value.Floor; }
    }
    if port == 0 { return Err(Refused(Port)); }
    r := Ok(config["Port" := Num(port as real)]);
  }

  lemma FirstNone(params: Settings, t: Tables)
    ensures First(params, 0, t) == Ok(map[])
  {}

  /** Nick, User and Pass. */
  method CleanNames(params: Settings, before: Settings, t: Tables) returns (r: Result<Settings, Problem>)
    ensures First(params, 2, t) == Ok(before) ==> r == First(params, 5, t)
  {
    hide First, NickShape, NickFits, NickReserved, UserRule, PassRule, Get, Trim;
    FirstNext(params, 2, t);
    FirstNext(params, 3, t);
    FirstNext(params, 4, t);
    NothingLeft();
    var config := before;
    var v := Get(params, "Nick");
    if !v.Null? && !v.Str? { return Err(WrongType(Nick)); }
    var nick := Trim(TextOf(v));
    if nick == "" { return Err(Missing(Nick)); }
    if !NickShape(nick, t) { return Err(Refused(Nick)); }
    if !NickFits(nick, t) { return Err(TooLong(Nick)); }
    if NickReserved(nick, t) { return Err(Reserved(Nick)); }
    config := config["Nick" := Str(nick)];

    v := Get(params, "User");
    if !v.Null? && !v.Str? { return Err(WrongType(User)); }
    var user := Trim(TextOf(v));
    if user != "" {
      if !UserRule(user) { return Err(Refused(User)); }
      config := config["User" := Str(user)];
    }

    v := Get(params, "Pass");
    if !v.Null? && !v.Str? { return Err(WrongType(Pass)); }
    var pass := TextOf(v);
    if !PassRule(pass) { return Err(Refused(Pass)); }
    if pass != "" { config := config["Pass" := Str(pass)]; }
    r := Ok(config);
  }

  /** Channels and Highlight. */
  method CleanLists(params: Settings, before: Settings, t: Tables) returns (r: Result<Settings, Problem>)
    ensures First(params, 5, t) == Ok(before) ==> r == First(params, 7, t)
  {
    hide First, ChannelRule, HighlightRule, ItemsOf, Texts, Get;
    FirstNext(params, 5, t);
    FirstNext(params, 6, t);
    var channels := ListItems(Get(params, "Channels"));
    if channels.None? { return Err(WrongType(Channels)); }
    var ok := AllKeep(channels.value, ChannelRule);
    if !ok { return Err(Refused(Channels)); }
    var config := before["Channels" := AsList(channels.value)];

    var highlight := ListItems(Get(params, "Highlight"));
    if highlight.None? { return Err(WrongType(Highlight)); }
    ok := AllKeep(highlight.value, HighlightRule);
    if !ok { return Err(Refused(Highlight)); }
    r := Ok(config["Highlight" := AsList(highlight.value)]);
  }

  method AllKeep(items: seq<string>, rule: string -> bool) returns (ok: bool)
    ensures ok <==> forall i :: 0 <= i < |items| ==> rule(items[i])
  {
    for i := 0 to |items|
      invariant forall k :: 0 <= k < i ==> rule(items[k])
    {
      if !rule(items[i]) { return false; }
    }
    ok := true;
  }

  /** Alias, Ssl and SASL. */
  method CleanRest(params: Settings, before: Settings, t: Tables) returns (r: Result<Settings, Problem>)
    ensures First(params, 7, t) == Ok(before) ==> r == First(params, 10, t)
  {
    hide First, AliasRule, Get, Trim;
    FirstNext(params, 7, t);
    FirstNext(params, 8, t);
    FirstNext(params, 9, t);
    var config := before;
    var v := Get(params, "Alias");
    if !v.Null? && !v.Str? { return Err(WrongType(Alias)); }
    var alias := Trim(TextOf(v));
    if alias != "" {
      if !AliasRule(alias) { return Err(Refused(Alias)); }
      config := config["Alias" := Str(alias)];
    }
    var ssl := Get(params, "Ssl");
    if !ssl.Null? && !ssl.Bool? { return Err(WrongType(Ssl)); }
    config := config["Ssl" := Bool(ssl.Bool? && ssl.b)];
    var sasl := Get(params, "SASL");
    if !sasl.Null? && !sasl.Bool? { return Err(WrongType(Sasl)); }
    r := Ok(config["SASL" := Bool(sasl.Bool? && sasl.b)]);
  }
}
