/** lctl fix-config-encoding: undoing strings that were stored encoded twice. */
module ConfigEncoding {
  import opened Wrappers
  import opened Utf8

  // ---- one string ----

  /** What the Perl API stored: each byte of t's encoding taken as a Latin-1 character. */
  function Doubled(t: Text): (s: Text)
    ensures |s| == |Encode(t)|
  {
    seq(|Encode(t)|, k requires 0 <= k < |Encode(t)| => Encode(t)[k])
  }

  predicate Latin1(s: Text) { forall k :: 0 <= k < |s| ==> s[k] <= 0xFF }

  function AsBytes(s: Text): (b: seq<Byte>)
    requires Latin1(s)
    ensures |b| == |s| && forall k :: 0 <= k < |s| ==> b[k] == s[k]
  {
    seq(|s|, k requires 0 <= k < |s| => s[k])
  }

  /** The text s is a double encoding of, None if there is none. */
  function Undone(s: Text): Option<Text> {
    if Latin1(s) && !Ascii(s) then Decode(AsBytes(s)) else None
  }

  /** The loop of undoDoubleUTF8: collects the bytes, then decodes them. */
  method UndoDoubleUTF8(s: Text) returns (r: Text, ok: bool)
    ensures ok == Undone(s).Some? && r == if ok then Undone(s).value else []
  {
    var b: seq<Byte> := [];
    var high := false;
    for i := 0 to |s|
      invariant Latin1(s[..i]) && b == AsBytes(s[..i])
      invariant high == !Ascii(s[..i])
    {
      assert s[..i + 1] == s[..i] + [s[i]];
      if s[i] > 0xFF { assert !Latin1(s); return [], false; }
      if s[i] >= 0x80 { high := true; }
      b := b + [s[i]];
    }
    assert s[..|s|] == s;
    var t := Decode(b);
    if !high || t.None? { return [], false; }
    return t.value, true;
  }

  /** undoDoubleUTF8 is the exact inverse of double encoding: it answers t for s
      exactly when t isn't plain ASCII and s is what double encoding t gives. */
  lemma UndoneIsInverse(s: Text, t: Text)
    ensures Undone(s) == Some(t) <==> !Ascii(t) && s == Doubled(t)
  {
    EncodeLength(t);
    if Undone(s) == Some(t) {
      DecodeIsInverse(AsBytes(s), t);
      assert !Ascii(AsBytes(s)) by {
        var k :| 0 <= k < |s| && s[k] >= 0x80;
        assert AsBytes(s)[k] == s[k];
      }
      assert s == Doubled(t);
    }
    if !Ascii(t) && s == Doubled(t) {
      assert AsBytes(s) == Encode(t);
      DecodeIsInverse(AsBytes(s), t);
      assert !Ascii(s) by {
        var k :| 0 <= k < |Encode(t)| && Encode(t)[k] >= 0x80;
        assert s[k] == Encode(t)[k];
      }
    }
  }

  /** A repaired string is shorter, so repairing again and again comes to an end. */
  lemma UndoneIsShorter(s: Text)
    requires Undone(s).Some?
    ensures |Undone(s).value| < |s| && Doubled(Undone(s).value) == s
  {
    UndoneIsInverse(s, Undone(s).value);
    EncodeLength(Undone(s).value);
  }

  // ---- a decoded config ----

  /** A JSON value. An object is its entries in the order a range visits them; a
      number, true, false or null is kept as written. */
  datatype Json = Str(text: Text) | Arr(items: seq<Json>) | Obj(fields: seq<Field>) | Other(raw: string)
  datatype Field = Field(key: Text, value: Json)

  /** repairValue's result. */
  function Repaired(v: Json): Json
    decreases v, 1
  {
    match v
    case Str(s) => if Undone(s).Some? then Str(Undone(s).value) else v
    case Arr(xs) => Arr(RepairedItems(xs))
    case Obj(fs) => Obj(RepairedFields(fs))
    case Other(_) => v
  }

  function RepairedItems(xs: seq<Json>): (ys: seq<Json>)
    ensures |ys| == |xs|
    decreases xs, 0
  {
    if xs == [] then [] else RepairedItems(xs[..|xs| - 1]) + [Repaired(xs[|xs| - 1])]
  }

  function RepairedFields(fs: seq<Field>): (gs: seq<Field>)
    ensures |gs| == |fs|
    decreases fs, 0
  {
    if fs == [] then [] else
    var last := fs[|fs| - 1];
    RepairedFields(fs[..|fs| - 1]) + [Field(last.key, Repaired(last.value))]
  }

  /** What repairValue reports: the repaired strings, in the order it meets them. */
  function Reports(v: Json): seq<Text>
    decreases v, 1
  {
    match v
    case Str(s) => if Undone(s).Some? then [Undone(s).value] else []
    case Arr(xs) => ItemReports(xs)
    case Obj(fs) => FieldReports(fs)
    case Other(_) => []
  }

  function ItemReports(xs: seq<Json>): seq<Text>
    decreases xs, 0
  {
    if xs == [] then [] else ItemReports(xs[..|xs| - 1]) + Reports(xs[|xs| - 1])
  }

  function FieldReports(fs: seq<Field>): seq<Text>
    decreases fs, 0
  {
    if fs == [] then [] else
    var last := fs[|fs| - 1];
    FieldReports(fs[..|fs| - 1]) + Reports(last.value)
  }

  method RepairValue(v: Json) returns (r: Json, fixed: seq<Text>)
    ensures r == Repaired(v) && fixed == Reports(v)
    decreases v, 1
  {
    match v
    case Str(s) =>
      var t, ok := UndoDoubleUTF8(s);
      if ok { return Str(t), [t]; }
      return v, [];
    case Arr(xs) =>
      var ys;
      ys, fixed := RepairItems(xs);
      r := Arr(ys);
    case Obj(fs) =>
      var gs;
      gs, fixed := RepairFields(fs);
      r := Obj(gs);
    case Other(_) => return v, [];
  }

  /** repairValue's loop over a list, which assigns each repaired item back into it. */
  method RepairItems(xs: seq<Json>) returns (x: seq<Json>, fixed: seq<Text>)
    ensures x == RepairedItems(xs) && fixed == ItemReports(xs)
    decreases xs, 0
  {
    hide *;
    ItemsStart(xs);
    x, fixed := xs, [];
    for i := 0 to |x|
      invariant |x| == |xs| && x == RepairedItems(xs[..i]) + xs[i..] && fixed == ItemReports(xs[..i])
    {
      var y, more := RepairValue(xs[i]);
      ItemsStep(xs, i);
      x, fixed := x[i := y], fixed + more;
    }
  }

  /** Its loop over an object. */
  method RepairFields(fs: seq<Field>) returns (x: seq<Field>, fixed: seq<Text>)
    ensures x == RepairedFields(fs) && fixed == FieldReports(fs)
    decreases fs, 0
  {
    hide *;
    FieldsStart(fs);
    x, fixed := fs, [];
    for i := 0 to |x|
      invariant |x| == |fs| && x == RepairedFields(fs[..i]) + fs[i..] && fixed == FieldReports(fs[..i])
    {
      var f := fs[i];
      var y, more := RepairValue(f.value);
      FieldsStep(fs, i);
      x, fixed := x[i := Field(f.key, y)], fixed + more;
    }
  }

  lemma ItemsStart(xs: seq<Json>)
    ensures RepairedItems(xs[..0]) == [] && ItemReports(xs[..0]) == [] && xs[..|xs|] == xs
  {}

  lemma ItemsStep(xs: seq<Json>, i: nat)
    requires i < |xs|
    ensures RepairedItems(xs[..i + 1]) == RepairedItems(xs[..i]) + [Repaired(xs[i])]
    ensures ItemReports(xs[..i + 1]) == ItemReports(xs[..i]) + Reports(xs[i])
  {
    assert xs[..i + 1][..i] == xs[..i];
  }

  lemma FieldsStart(fs: seq<Field>)
    ensures RepairedFields(fs[..0]) == [] && FieldReports(fs[..0]) == [] && fs[..|fs|] == fs
  {}

  lemma FieldsStep(fs: seq<Field>, i: nat)
    requires i < |fs|
    ensures RepairedFields(fs[..i + 1]) == RepairedFields(fs[..i]) + [Field(fs[i].key, Repaired(fs[i].value))]
    ensures FieldReports(fs[..i + 1]) == FieldReports(fs[..i]) + Reports(fs[i].value)
  {
    assert fs[..i + 1][..i] == fs[..i];
  }

  // ---- what the repair does to a tree ----

  /** The tree as it was stored when every string value was encoded twice. */
  function DoubledTree(v: Json): Json
    decreases v, 1
  {
    match v
    case Str(t) => Str(Doubled(t))
    case Arr(xs) => Arr(DoubledItems(xs))
    case Obj(fs) => Obj(DoubledFields(fs))
    case Other(_) => v
  }

  function DoubledItems(xs: seq<Json>): (ys: seq<Json>)
    ensures |ys| == |xs|
    decreases xs, 0
  {
    if xs == [] then [] else DoubledItems(xs[..|xs| - 1]) + [DoubledTree(xs[|xs| - 1])]
  }

  function DoubledFields(fs: seq<Field>): (gs: seq<Field>)
    ensures |gs| == |fs|
    decreases fs, 0
  {
    if fs == [] then [] else
    var last := fs[|fs| - 1];
    DoubledFields(fs[..|fs| - 1]) + [Field(last.key, DoubledTree(last.value))]
  }

  /** For every tree whose string values were all encoded twice, the repair gives it back. */
  lemma {:induction false} RepairUndoesDoubling(v: Json)
    ensures Repaired(DoubledTree(v)) == v
    decreases v, 1
  {
    match v
    case Str(t) =>
      UndoneIsInverse(Doubled(t), t);
      EncodeLength(t);
      if Ascii(t) {
        assert Doubled(t) == t;
        assert Undone(t).None?;
      }
    case Arr(xs) => RepairUndoesItems(xs);
    case Obj(fs) => RepairUndoesFields(fs);
    case Other(_) =>
  }

  lemma {:induction false} RepairUndoesItems(xs: seq<Json>)
    ensures RepairedItems(DoubledItems(xs)) == xs
    decreases xs, 0
  {
    if xs != [] {
      RepairUndoesItems(xs[..|xs| - 1]);
      RepairUndoesDoubling(xs[|xs| - 1]);
      assert DoubledItems(xs)[..|xs| - 1] == DoubledItems(xs[..|xs| - 1]);
    }
  }

  lemma {:induction false} RepairUndoesFields(fs: seq<Field>)
    ensures RepairedFields(DoubledFields(fs)) == fs
    decreases fs, 0
  {
    if fs != [] {
      var last := fs[|fs| - 1];
      RepairUndoesFields(fs[..|fs| - 1]);
      RepairUndoesDoubling(last.value);
      assert DoubledFields(fs)[..|fs| - 1] == DoubledFields(fs[..|fs| - 1]);
    }
  }

  /** s is the double encoding of a text that isn't plain ASCII. */
  ghost predicate IsDoubled(s: Text) {
    exists t: Text :: !Ascii(t) && s == Doubled(t)
  }

  lemma UndoneIff(s: Text)
    ensures Undone(s).Some? <==> IsDoubled(s)
  {
    if Undone(s).Some? { UndoneIsInverse(s, Undone(s).value); }
    if t: Text :| !Ascii(t) && s == Doubled(t) { UndoneIsInverse(s, t); }
  }

  /** w is v with the given texts put, in order, where v holds their double
      encodings, all of them, and nothing else changed: the same shape, keys,
      non-strings and other strings. */
  ghost predicate Replaces(v: Json, w: Json, fixed: seq<Text>)
    decreases v, 1
  {
    match (v, w)
    case (Str(s), Str(t)) =>
      if IsDoubled(s) then fixed == [t] && !Ascii(t) && s == Doubled(t) else fixed == [] && s == t
    case (Arr(xs), Arr(ys)) => ReplacesItems(xs, ys, fixed)
    case (Obj(fs), Obj(gs)) => ReplacesFields(fs, gs, fixed)
    case _ => v == w && v.Other? && fixed == []
  }

  ghost predicate ReplacesItems(xs: seq<Json>, ys: seq<Json>, fixed: seq<Text>)
    decreases xs, 0
  {
    if xs == [] then ys == [] && fixed == []
    else
      && |ys| == |xs|
      && exists n | 0 <= n <= |fixed| ::
           ReplacesItems(xs[..|xs| - 1], ys[..|ys| - 1], fixed[..n]) && Replaces(xs[|xs| - 1], ys[|ys| - 1], fixed[n..])
  }

  ghost predicate ReplacesFields(fs: seq<Field>, gs: seq<Field>, fixed: seq<Text>)
    decreases fs, 0
  {
    if fs == [] then gs == [] && fixed == []
    else
      var f, g := fs[|fs| - 1], if gs == [] then fs[|fs| - 1] else gs[|gs| - 1];
      && |gs| == |fs|
      && g.key == f.key
      && exists n | 0 <= n <= |fixed| ::
           ReplacesFields(fs[..|fs| - 1], gs[..|gs| - 1], fixed[..n]) && Replaces(f.value, g.value, fixed[n..])
  }

  /** The repair keeps shape, keys and non-strings, and reports exactly the strings it changed. */
  lemma {:induction false} RepairReplaces(v: Json)
    ensures Replaces(v, Repaired(v), Reports(v))
    decreases v, 1
  {
    match v
    case Str(s) =>
      UndoneIff(s);
      if Undone(s).Some? { UndoneIsInverse(s, Undone(s).value); }
    case Arr(xs) => RepairReplacesItems(xs);
    case Obj(fs) => RepairReplacesFields(fs);
    case Other(_) =>
  }

  lemma {:induction false} RepairReplacesItems(xs: seq<Json>)
    ensures ReplacesItems(xs, RepairedItems(xs), ItemReports(xs))
    decreases xs, 0
  {
    if xs != [] {
      var front, last := xs[..|xs| - 1], xs[|xs| - 1];
      RepairReplacesItems(front);
      RepairReplaces(last);
      var n := |ItemReports(front)|;
      assert ItemReports(xs)[..n] == ItemReports(front) && ItemReports(xs)[n..] == Reports(last);
      assert RepairedItems(xs)[..|xs| - 1] == RepairedItems(front);
    }
  }

  lemma {:induction false} RepairReplacesFields(fs: seq<Field>)
    ensures ReplacesFields(fs, RepairedFields(fs), FieldReports(fs))
    decreases fs, 0
  {
    if fs != [] {
      var front, last := fs[..|fs| - 1], fs[|fs| - 1];
      RepairReplacesFields(front);
      RepairReplaces(last.value);
      var n := |FieldReports(front)|;
      assert FieldReports(fs)[..n] == FieldReports(front) && FieldReports(fs)[n..] == Reports(last.value);
      assert RepairedFields(fs)[..|fs| - 1] == RepairedFields(front);
    }
  }

  /** That leaves no choice: a tree has one repair. */
  lemma {:induction false} ReplacesOnce(v: Json, w: Json, fixed: seq<Text>)
    requires Replaces(v, w, fixed)
    ensures w == Repaired(v) && fixed == Reports(v)
    decreases v, 1
  {
    match v
    case Str(s) =>
      UndoneIff(s);
      if IsDoubled(s) { UndoneIsInverse(s, w.text); }
    case Arr(xs) => ReplacesItemsOnce(xs, w.items, fixed);
    case Obj(fs) => ReplacesFieldsOnce(fs, w.fields, fixed);
    case Other(_) =>
  }

  lemma {:induction false} ReplacesItemsOnce(xs: seq<Json>, ys: seq<Json>, fixed: seq<Text>)
    requires ReplacesItems(xs, ys, fixed)
    ensures ys == RepairedItems(xs) && fixed == ItemReports(xs)
    decreases xs, 0
  {
    if xs != [] {
      var m := |xs| - 1;
      var n :| 0 <= n <= |fixed| && ReplacesItems(xs[..m], ys[..m], fixed[..n]) && Replaces(xs[m], ys[m], fixed[n..]);
      hide Replaces, ReplacesItems, Repaired, Reports;
      ReplacesItemsOnce(xs[..m], ys[..m], fixed[..n]);
      ReplacesOnce(xs[m], ys[m], fixed[n..]);
      assert fixed == fixed[..n] + fixed[n..] && ys == ys[..m] + [ys[m]];
    }
  }

  lemma {:induction false} ReplacesFieldsOnce(fs: seq<Field>, gs: seq<Field>, fixed: seq<Text>)
    requires ReplacesFields(fs, gs, fixed)
    ensures gs == RepairedFields(fs) && fixed == FieldReports(fs)
    decreases fs, 0
  {
    if fs != [] {
      var m := |fs| - 1;
      var n := LastReplaced(fs, gs, fixed);
      ReplacesFieldsOnce(fs[..m], gs[..m], fixed[..n]);
      ReplacesOnce(fs[m].value, gs[m].value, fixed[n..]);
      assert FieldReports(fs) == fixed[..n] + fixed[n..];
    }
  }

  lemma LastReplaced(fs: seq<Field>, gs: seq<Field>, fixed: seq<Text>) returns (n: nat)
    requires ReplacesFields(fs, gs, fixed) && fs != []
    ensures var m := |fs| - 1;
            && |gs| == |fs| && gs == gs[..m] + [Field(fs[m].key, gs[m].value)]
            && n <= |fixed| && ReplacesFields(fs[..m], gs[..m], fixed[..n])
            && Replaces(fs[m].value, gs[m].value, fixed[n..])
  {
    var m := |fs| - 1;
    n :| 0 <= n <= |fixed| && ReplacesFields(fs[..m], gs[..m], fixed[..n])
         && Replaces(fs[m].value, gs[m].value, fixed[n..]);
  }

  /** Some string value of v is the double encoding of a text that isn't plain ASCII. */
  ghost predicate HasDoubled(v: Json) {
    match v
    case Str(s) => IsDoubled(s)
    case Arr(xs) => exists i :: 0 <= i < |xs| && HasDoubled(xs[i])
    case Obj(fs) => exists i :: 0 <= i < |fs| && HasDoubled(fs[i].value)
    case Other(_) => false
  }

  /** Something is reported exactly when there is such a string. */
  lemma {:induction false} ReportsIff(v: Json)
    ensures Reports(v) != [] <==> HasDoubled(v)
    decreases v, 1
  {
    match v
    case Str(s) => UndoneIff(s);
    case Arr(xs) => ItemReportsIff(xs);
    case Obj(fs) => FieldReportsIff(fs);
    case Other(_) =>
  }

  lemma {:induction false} ItemReportsIff(xs: seq<Json>)
    ensures ItemReports(xs) != [] <==> exists i :: 0 <= i < |xs| && HasDoubled(xs[i])
    decreases xs, 0
  {
    if xs != [] {
      var m := |xs| - 1;
      ItemReportsIff(xs[..m]);
      ReportsIff(xs[m]);
      assert forall i :: 0 <= i < m ==> xs[..m][i] == xs[i];
    }
  }

  lemma {:induction false} FieldReportsIff(fs: seq<Field>)
    ensures FieldReports(fs) != [] <==> exists i :: 0 <= i < |fs| && HasDoubled(fs[i].value)
    decreases fs, 0
  {
    if fs != [] {
      var m := |fs| - 1;
      FieldReportsIff(fs[..m]);
      ReportsIff(fs[m].value);
      assert forall i :: 0 <= i < m ==> fs[..m][i] == fs[i];
    }
  }

  /** One repair undoes one encoding: what it makes of a string can be undone again
      exactly when the string was encoded three times. */
  lemma LeftUndoableIff(s: Text)
    requires IsDoubled(s)
    ensures Undone(s).Some? && (IsDoubled(Undone(s).value) <==> exists u: Text :: !Ascii(u) && s == Doubled(Doubled(u)))
  {
    UndoneIff(s);
    var t := Undone(s).value;
    UndoneIsInverse(s, t);
    forall u: Text | !Ascii(u) && s == Doubled(Doubled(u))
      ensures t == Doubled(u)
    {
      DoubledNotAscii(u);
      UndoneIsInverse(s, Doubled(u));
    }
  }

  lemma DoubledNotAscii(u: Text)
    requires !Ascii(u)
    ensures !Ascii(Doubled(u))
  {
    UndoneIsInverse(Doubled(u), u);
  }

  // ---- saving the repairs ----

  type Id = string

  /** One write to a connection's config: what it replaced, None for no row. */
  datatype Write = Write(id: Id, before: Option<string>, after: Option<string>, byFix: bool)

  function Lookup(rows: map<Id, string>, id: Id): Option<string> {
    if id in rows then Some(rows[id]) else None
  }

  function Put(rows: map<Id, string>, id: Id, text: Option<string>): map<Id, string> {
    match text case Some(t) => rows[id := t] case None => rows - {id}
  }

  /** The table after the writes. */
  function Replay(rows: map<Id, string>, writes: seq<Write>): map<Id, string> {
    if writes == [] then rows
    else
      var last := writes[|writes| - 1];
      Put(Replay(rows, writes[..|writes| - 1]), last.id, last.after)
  }

  /** Each write records what the row held just before it. */
  ghost predicate Recorded(rows: map<Id, string>, writes: seq<Write>) {
    forall k :: 0 <= k < |writes| ==> writes[k].before == Lookup(Replay(rows, writes[..k]), writes[k].id)
  }

  lemma RecordedMore(rows: map<Id, string>, writes: seq<Write>, w: Write)
    requires Recorded(rows, writes) && w.before == Lookup(Replay(rows, writes), w.id)
    ensures Recorded(rows, writes + [w])
    ensures Replay(rows, writes + [w]) == Put(Replay(rows, writes), w.id, w.after)
  {
    hide Replay;
    var all := writes + [w];
    assert all[..|writes|] == writes;
    ReplayLast(rows, writes, w);
    forall k | 0 <= k < |all|
      ensures all[k].before == Lookup(Replay(rows, all[..k]), all[k].id)
    {
      if k < |writes| { assert all[..k] == writes[..k]; }
    }
  }

  lemma ReplayLast(rows: map<Id, string>, writes: seq<Write>, w: Write)
    ensures Replay(rows, writes + [w]) == Put(Replay(rows, writes), w.id, w.after)
  {
    assert (writes + [w])[..|writes|] == writes;
  }

  /** What these edits, in order, write to a table with these rows. */
  function Edits(rows: map<Id, string>, edits: seq<(Id, Option<string>)>): seq<Write> {
    if edits == [] then []
    else
      var ws, (id, text) := Edits(rows, edits[..|edits| - 1]), edits[|edits| - 1];
      ws + [Write(id, Lookup(Replay(rows, ws), id), text, false)]
  }

  lemma NoWrites(rows: map<Id, string>)
    ensures Replay(rows, []) == rows
  {}

  lemma {:induction false} EditsAreEdits(rows: map<Id, string>, edits: seq<(Id, Option<string>)>)
    ensures |Edits(rows, edits)| == |edits|
    ensures forall k :: 0 <= k < |edits| ==>
                          var w := Edits(rows, edits)[k]; !w.byFix && (w.id, w.after) == edits[k]
  {
    if edits != [] { EditsAreEdits(rows, edits[..|edits| - 1]); }
  }

  /** The connection table, with the history of its config column. */
  class Configs {
    var rows: map<Id, string>
    ghost const first: map<Id, string>
    ghost var writes: seq<Write>

    ghost predicate Valid()
      reads this
    {
      rows == Replay(first, writes) && Recorded(first, writes)
    }

    constructor (rows: map<Id, string>)
      ensures Valid() && this.rows == rows && first == rows && writes == []
    {
      this.rows, first, writes := rows, rows, [];
    }

    method Store(id: Id, text: Option<string>, ghost byFix: bool)
      requires Valid()
      modifies this
      ensures Valid() && writes == old(writes) + [Write(id, Lookup(old(rows), id), text, byFix)]
      ensures rows == Put(old(rows), id, text)
    {
      hide Replay, Recorded;
      RecordedMore(first, writes, Write(id, Lookup(rows, id), text, byFix));
      writes := writes + [Write(id, Lookup(rows, id), text, byFix)];
      rows := Put(rows, id, text);
    }

    /** What other processes save or delete before the fixer's next statement. */
    method Meanwhile(edits: seq<(Id, Option<string>)>)
      requires Valid()
      modifies this
      ensures Valid() && writes == old(writes) + Edits(old(rows), edits)
    {
      hide Replay, Recorded;
      NoWrites(rows);
      for i := 0 to |edits|
        invariant Valid() && writes == old(writes) + Edits(old(rows), edits[..i])
        invariant rows == Replay(old(rows), Edits(old(rows), edits[..i]))
      {
        assert edits[..i + 1][..i] == edits[..i];
        var (id, text) := edits[i];
        ReplayLast(old(rows), Edits(old(rows), edits[..i]), Write(id, Lookup(rows, id), text, false));
        Store(edits[i].0, edits[i].1, false);
      }
      assert edits[..|edits|] == edits;
    }

    /** UPDATE connection SET config = $2 WHERE id = $1 AND config::text = $3. */
    method UpdateIfUnchanged(id: Id, text: string, read: string) returns (changed: bool)
      requires Valid()
      modifies this
      ensures Valid() && changed == (Lookup(old(rows), id) == Some(read))
      ensures writes == old(writes) + if changed then [Write(id, Some(read), Some(text), true)] else []
    {
      changed := id in rows && rows[id] == read;
      if changed { Store(id, Some(text), true); }
    }
  }

  /** The config is a JSON object with a string to repair. */
  ghost predicate NeedsRepair(text: string, decode: string -> Option<Json>) {
    decode(text).Some? && decode(text).value.Obj? && HasDoubled(decode(text).value)
  }

  /** saved is the encoding of the repaired object that text decodes to. */
  ghost predicate IsRepairOf(text: string, saved: string, decode: string -> Option<Json>,
                             encode: Json -> Option<string>) {
    exists fs, w, reports :: Repair(text, saved, decode, encode, fs, w, reports)
  }

  ghost predicate Repair(text: string, saved: string, decode: string -> Option<Json>, encode: Json -> Option<string>,
                         fs: seq<Field>, w: Json, reports: seq<Text>) {
    decode(text) == Some(Obj(fs)) && Replaces(Obj(fs), w, reports) && reports != [] && encode(w) == Some(saved)
  }

  /** In particular, a config whose strings were all encoded twice is saved as it was meant. */
  lemma SavedAsMeant(text: string, saved: string, decode: string -> Option<Json>, encode: Json -> Option<string>,
                     meant: Json)
    requires IsRepairOf(text, saved, decode, encode) && decode(text) == Some(DoubledTree(meant))
    ensures encode(meant) == Some(saved)
  {
    var fs, w, reports :| Repair(text, saved, decode, encode, fs, w, reports);
    ReplacesOnce(Obj(fs), w, reports);
    RepairUndoesDoubling(meant);
  }

  /** And it is one that needs repair if that is another config. */
  lemma DoubledNeedsRepair(text: string, decode: string -> Option<Json>, meant: seq<Field>)
    requires decode(text) == Some(DoubledTree(Obj(meant))) && DoubledTree(Obj(meant)) != Obj(meant)
    ensures NeedsRepair(text, decode)
  {
    var v := DoubledTree(Obj(meant));
    RepairUndoesDoubling(Obj(meant));
    ReportsIff(v);
    if Reports(v) == [] { NoReportsSame(v); }
  }

  lemma {:induction false} NoReportsSame(v: Json)
    requires Reports(v) == []
    ensures Repaired(v) == v
    decreases v, 1
  {
    match v
    case Str(_) =>
    case Arr(xs) => NoItemReportsSame(xs);
    case Obj(fs) => NoFieldReportsSame(fs);
    case Other(_) =>
  }

  lemma {:induction false} NoItemReportsSame(xs: seq<Json>)
    requires ItemReports(xs) == []
    ensures RepairedItems(xs) == xs
    decreases xs, 0
  {
    if xs != [] {
      NoItemReportsSame(xs[..|xs| - 1]);
      NoReportsSame(xs[|xs| - 1]);
    }
  }

  lemma {:induction false} NoFieldReportsSame(fs: seq<Field>)
    requires FieldReports(fs) == []
    ensures RepairedFields(fs) == fs
    decreases fs, 0
  {
    if fs != [] {
      NoFieldReportsSame(fs[..|fs| - 1]);
      NoReportsSame(fs[|fs| - 1].value);
    }
  }

  /** Every write the fixer made replaced exactly a text that it read, by the repair of that text. */
  ghost predicate OnlyRepairs(writes: seq<Write>, conns: seq<(Id, string)>, decode: string -> Option<Json>,
                              encode: Json -> Option<string>) {
    forall w :: w in writes && w.byFix ==>
                  exists k :: 0 <= k < |conns| && conns[k].0 == w.id && w.before == Some(conns[k].1)
                              && w.after.Some? && IsRepairOf(conns[k].1, w.after.value, decode, encode)
  }

  function Fixes(writes: seq<Write>): nat {
    if writes == [] then 0 else Fixes(writes[..|writes| - 1]) + if writes[|writes| - 1].byFix then 1 else 0
  }

  /** How many of the connections need a repair. */
  ghost function Needing(conns: seq<(Id, string)>, decode: string -> Option<Json>): nat {
    if conns == [] then 0
    else Needing(conns[..|conns| - 1], decode) + if NeedsRepair(conns[|conns| - 1].1, decode) then 1 else 0
  }

  lemma FixesLast(writes: seq<Write>, w: Write)
    ensures Fixes(writes + [w]) == Fixes(writes) + if w.byFix then 1 else 0
  {
    assert (writes + [w])[..|writes|] == writes;
  }

  lemma {:induction false} FixesAppend(a: seq<Write>, b: seq<Write>)
    ensures Fixes(a + b) == Fixes(a) + Fixes(b)
  {
    if b == [] {
      assert a + b == a;
    } else {
      FixesAppend(a, b[..|b| - 1]);
      assert (a + b)[..|a + b| - 1] == a + b[..|b| - 1];
    }
  }

  lemma {:induction false} NoFixes(a: seq<Write>)
    requires forall k :: 0 <= k < |a| ==> !a[k].byFix
    ensures Fixes(a) == 0
  {
    if a != [] { NoFixes(a[..|a| - 1]); }
  }

  /** A write from e on, and before f, left the row of f with this text. */
  ghost predicate LeftWith(writes: seq<Write>, e: nat, f: nat, text: string)
    requires e < f < |writes|
  {
    exists k :: e <= k < f && writes[k].id == writes[f].id && writes[k].after == Some(text)
  }

  /** No edit is overwritten by a repair computed from something else: whenever the
      fixer writes, every earlier edit of that row either left the very text the
      repair was computed from or was followed by a write that put that text back. */
  ghost predicate EditsRespected(writes: seq<Write>, conns: seq<(Id, string)>, decode: string -> Option<Json>,
                                 encode: Json -> Option<string>) {
    forall f: nat | f < |writes| && writes[f].byFix ::
      exists c :: 0 <= c < |conns| && conns[c].0 == writes[f].id
                  && writes[f].after.Some? && IsRepairOf(conns[c].1, writes[f].after.value, decode, encode)
                  && forall e: nat | e < f && writes[e].id == writes[f].id :: LeftWith(writes, e, f, conns[c].1)
  }

  lemma NoEditOverwritten(rows: map<Id, string>, writes: seq<Write>, conns: seq<(Id, string)>,
                          decode: string -> Option<Json>, encode: Json -> Option<string>)
    requires Recorded(rows, writes) && OnlyRepairs(writes, conns, decode, encode)
    ensures EditsRespected(writes, conns, decode, encode)
  {
    hide IsRepairOf, Replay, Recorded;
    forall f: nat | f < |writes| && writes[f].byFix
      ensures exists c :: 0 <= c < |conns| && conns[c].0 == writes[f].id
                          && writes[f].after.Some? && IsRepairOf(conns[c].1, writes[f].after.value, decode, encode)
                          && forall e: nat | e < f && writes[e].id == writes[f].id :: LeftWith(writes, e, f, conns[c].1)
    {
      assert writes[f] in writes;
      var c :| 0 <= c < |conns| && conns[c].0 == writes[f].id && writes[f].before == Some(conns[c].1)
               && IsRepairOf(conns[c].1, writes[f].after.value, decode, encode);
      forall e: nat | e < f && writes[e].id == writes[f].id
        ensures LeftWith(writes, e, f, conns[c].1)
      {
        LeftBefore(rows, writes, e, f, conns[c].1);
      }
    }
  }

  lemma LeftBefore(rows: map<Id, string>, writes: seq<Write>, e: nat, f: nat, text: string)
    requires Recorded(rows, writes) && e < f < |writes|
    requires writes[e].id == writes[f].id && writes[f].before == Some(text)
    ensures LeftWith(writes, e, f, text)
  {
    if writes[e].after != Some(text) {
      assert writes[..e + 1][..e] == writes[..e];
      var k := LastChange(rows, writes, writes[f].id, Some(text), e + 1, f);
    }
  }

  lemma {:induction false} LastChange(rows: map<Id, string>, writes: seq<Write>, id: Id, want: Option<string>,
                                      lo: nat, hi: nat)
    returns (k: nat)
    requires lo <= hi <= |writes|
    requires Lookup(Replay(rows, writes[..lo]), id) != want && Lookup(Replay(rows, writes[..hi]), id) == want
    ensures lo <= k < hi && writes[k].id == id && writes[k].after == want
    decreases hi
  {
    assert writes[..hi][..hi - 1] == writes[..hi - 1];
    if writes[hi - 1].id == id {
      k := hi - 1;
    } else {
      k := LastChange(rows, writes, id, want, lo, hi - 1);
    }
  }

  // ---- the command ----

  /** What the table's history gains while the fixer comes to connection c: the
      others' edits, and then the repair, if the row still holds the text read. */
  ghost predicate Saves(rows: map<Id, string>, c: (Id, string), edits: seq<(Id, Option<string>)>, gained: seq<Write>,
                        decode: string -> Option<Json>, encode: Json -> Option<string>) {
    var others := Edits(rows, edits);
    if Lookup(Replay(rows, others), c.0) != Some(c.1) then gained == others
    else exists saved :: IsRepairOf(c.1, saved, decode, encode)
                         && gained == others + [Write(c.0, Some(c.1), Some(saved), true)]
  }

  /** The history after the first n connections: for each that needs a repair, in
      order, what the fixer and the others write while it comes to it. */
  ghost predicate History(first: map<Id, string>, writes: seq<Write>, conns: seq<(Id, string)>, n: nat,
                          others: nat -> seq<(Id, Option<string>)>, decode: string -> Option<Json>,
                          encode: Json -> Option<string>)
    requires n <= |conns|
    decreases n
  {
    if n == 0 then writes == []
    else if !NeedsRepair(conns[n - 1].1, decode) then History(first, writes, conns, n - 1, others, decode, encode)
    else exists m :: 0 <= m <= |writes| && History(first, writes[..m], conns, n - 1, others, decode, encode)
                     && Saves(Replay(first, writes[..m]), conns[n - 1], others(n - 1), writes[m..], decode, encode)
  }

  /** One connection's part of fixConfigEncoding's loop: the decoded config, if it is
      an object that needs a repair. */
  method Examine(text: string, decode: string -> Option<Json>) returns (repaired: Option<Json>)
    ensures repaired.Some? <==> NeedsRepair(text, decode)
    ensures repaired.Some? ==>
              && decode(text).Some? && Reports(decode(text).value) != []
              && Replaces(decode(text).value, repaired.value, Reports(decode(text).value))
  {
    var v := decode(text);
    if v.None? || !v.value.Obj? { return None; }
    var gs, reports := RepairFields(v.value.fields);
    ReportsIff(v.value);
    RepairReplaces(v.value);
    repaired := if reports == [] then None else Some(Obj(gs));
  }

  /** Saves one repair after whatever else happened to the table since the read. */
  method Save(table: Configs, c: (Id, string), saved: string, edits: seq<(Id, Option<string>)>,
              ghost decode: string -> Option<Json>, ghost encode: Json -> Option<string>)
    returns (changed: bool)
    requires table.Valid() && IsRepairOf(c.1, saved, decode, encode)
    modifies table
    ensures table.Valid() && old(table.writes) <= table.writes
    ensures Saves(old(table.rows), c, edits, table.writes[|old(table.writes)|..], decode, encode)
    ensures Fixes(table.writes) == Fixes(old(table.writes)) + if changed then 1 else 0
    ensures forall w :: w in table.writes && w.byFix ==>
                          w in old(table.writes) || w == Write(c.0, Some(c.1), Some(saved), true)
  {
    hide IsRepairOf, Replay, Recorded;
    ghost var before, rows := table.writes, table.rows;
    table.Meanwhile(edits);
    ghost var middle := table.writes;
    ReplayFrom(table.first, before, Edits(rows, edits));
    changed := table.UpdateIfUnchanged(c.0, saved, c.1);
    ghost var gained := Edits(rows, edits) + if changed then [Write(c.0, Some(c.1), Some(saved), true)] else [];
    assert table.writes == before + gained && table.writes[|before|..] == gained;
    EditsAreEdits(rows, edits);
    NoFixes(Edits(rows, edits));
    FixesAppend(before, Edits(rows, edits));
    if changed { FixesLast(middle, Write(c.0, Some(c.1), Some(saved), true)); }
  }

  lemma {:induction false} ReplayFrom(rows: map<Id, string>, a: seq<Write>, b: seq<Write>)
    ensures Replay(rows, a + b) == Replay(Replay(rows, a), b)
  {
    if b == [] {
      assert a + b == a;
    } else {
      ReplayFrom(rows, a, b[..|b| - 1]);
      assert (a + b)[..|a + b| - 1] == a + b[..|b| - 1];
    }
  }

  /** fixConfigEncoding after its query read conns: others(i) is what happens to
      the table before connection i is saved. */
  method FixAll(table: Configs, conns: seq<(Id, string)>, fix: bool, others: nat -> seq<(Id, Option<string>)>,
                decode: string -> Option<Json>, encode: Json -> Option<string>)
    returns (fixed: nat, skipped: nat, failed: bool, ghost n: nat)
    requires table.Valid() && table.writes == []
    modifies table
    ensures table.Valid() && n <= |conns| && (!failed ==> n == |conns|)
    ensures failed ==> fix && n < |conns| && NeedsRepair(conns[n].1, decode)
                       && forall w, reports :: Replaces(decode(conns[n].1).value, w, reports) ==> encode(w).None?
    ensures if fix then History(table.first, table.writes, conns, n, others, decode, encode) else table.writes == []
    ensures OnlyRepairs(table.writes, conns, decode, encode) && EditsRespected(table.writes, conns, decode, encode)
    ensures Fixes(table.writes) == if fix then fixed else 0
    ensures fixed + skipped == Needing(conns[..n], decode) && (!fix ==> skipped == 0)
  {
    hide EditsRespected, History, IsRepairOf, Replaces, Saves, NeedsRepair, Replay, Recorded;
    fixed, skipped, failed, n := 0, 0, false, 0;
    NothingSaved(table.first, conns, others, decode, encode);
    for i := 0 to |conns|
      invariant table.Valid() && n == i && OnlyRepairs(table.writes, conns, decode, encode)
      invariant if fix then History(table.first, table.writes, conns, n, others, decode, encode) else table.writes == []
      invariant Fixes(table.writes) == if fix then fixed else 0
      invariant fixed + skipped == Needing(conns[..n], decode) && (!fix ==> skipped == 0)
    {
      assert conns[..i + 1][..i] == conns[..i];
      ghost var before := table.writes;
      var repaired := Examine(conns[i].1, decode);
      if repaired.None? {
        NextPlain(table.first, table.writes, conns, i, others, decode, encode);
        n := i + 1;
        continue;
      }
      if fix {
        var text := encode(repaired.value);
        if text.None? {
          failed := true;
          OnlyThatRepair(conns[i].1, decode, encode, repaired.value);
          NoEditOverwritten(table.first, table.writes, conns, decode, encode);
          return;
        }
        RepairedHere(conns[i].1, text.value, decode, encode, repaired.value);
        var changed := Save(table, conns[i], text.value, others(i), decode, encode);
        NextSaved(table.first, before, table.writes, conns, i, others, decode, encode);
        n := i + 1;
        if !changed {
          skipped := skipped + 1;
          continue;
        }
      }
      fixed, n := fixed + 1, i + 1;
    }
    assert conns[..|conns|] == conns;
    NoEditOverwritten(table.first, table.writes, conns, decode, encode);
  }

  lemma NothingSaved(first: map<Id, string>, conns: seq<(Id, string)>, others: nat -> seq<(Id, Option<string>)>,
                     decode: string -> Option<Json>, encode: Json -> Option<string>)
    ensures History(first, [], conns, 0, others, decode, encode)
  {}

  lemma NextPlain(first: map<Id, string>, writes: seq<Write>, conns: seq<(Id, string)>, i: nat,
                  others: nat -> seq<(Id, Option<string>)>, decode: string -> Option<Json>,
                  encode: Json -> Option<string>)
    requires i < |conns| && !NeedsRepair(conns[i].1, decode)
    ensures History(first, writes, conns, i, others, decode, encode) ==>
              History(first, writes, conns, i + 1, others, decode, encode)
  {}

  lemma NextSaved(first: map<Id, string>, before: seq<Write>, writes: seq<Write>, conns: seq<(Id, string)>, i: nat,
                  others: nat -> seq<(Id, Option<string>)>, decode: string -> Option<Json>,
                  encode: Json -> Option<string>)
    requires i < |conns| && NeedsRepair(conns[i].1, decode) && before <= writes
    requires History(first, before, conns, i, others, decode, encode)
    requires Saves(Replay(first, before), conns[i], others(i), writes[|before|..], decode, encode)
    ensures History(first, writes, conns, i + 1, others, decode, encode)
  {
    hide Saves, NeedsRepair, Replay;
    assert writes[..|before|] == before;
  }

  lemma RepairedHere(text: string, saved: string, decode: string -> Option<Json>, encode: Json -> Option<string>,
                     w: Json)
    requires NeedsRepair(text, decode) && encode(w) == Some(saved)
    requires Replaces(decode(text).value, w, Reports(decode(text).value)) && Reports(decode(text).value) != []
    ensures IsRepairOf(text, saved, decode, encode)
  {
    assert Repair(text, saved, decode, encode, decode(text).value.fields, w, Reports(decode(text).value));
  }

  lemma OnlyThatRepair(text: string, decode: string -> Option<Json>, encode: Json -> Option<string>, w: Json)
    requires decode(text).Some? && encode(w).None? && Replaces(decode(text).value, w, Reports(decode(text).value))
    ensures forall w', reports :: Replaces(decode(text).value, w', reports) ==> encode(w').None?
  {
    ReplacesOnce(decode(text).value, w, Reports(decode(text).value));
    forall w', reports | Replaces(decode(text).value, w', reports)
      ensures encode(w').None?
    {
      ReplacesOnce(decode(text).value, w', reports);
    }
  }
}
