/** Reading the flat hash of strings that Perl's Storable writes in network order. */
module Storable {
  import opened Wrappers

  type Byte = b: int | 0 <= b < 0x100
  type Bytes = seq<Byte>

  // Storable's opcodes.
  const SX_LSCALAR := 1
  const SX_HASH := 3
  const SX_SCALAR := 10
  const SX_UTF8STR := 23
  const SX_LUTF8STR := 24

  /** The first header byte: major version 2, network order. */
  const MAGIC := 5

  const UINT32 := 0x1_0000_0000

  // ---- big-endian numbers ----

  function Uint32(b: Bytes): (n: nat)
    requires |b| >= 4
    ensures n < UINT32
  {
    ((b[0] as int * 256 + b[1]) * 256 + b[2]) * 256 + b[3]
  }

  function PutUint32(n: nat): (b: Bytes)
    requires n < UINT32
    ensures |b| == 4 && Uint32(b) == n
  {
    [n / 256 / 256 / 256, n / 256 / 256 % 256, n / 256 % 256, n % 256]
  }

  lemma Uint32Injective(b: Bytes)
    requires |b| >= 4
    ensures PutUint32(Uint32(b)) == b[..4]
  {
    var x: int, y: int, z: int, w: int := b[0], b[1], b[2], b[3];
    assert ((x * 256 + y) * 256 + z) * 256 + w == Uint32(b);
    assert (((x * 256 + y) * 256 + z) * 256 + w) / 256 == (x * 256 + y) * 256 + z;
    assert ((x * 256 + y) * 256 + z) / 256 == x * 256 + y;
    assert (x * 256 + y) / 256 == x;
  }

  // ---- the format ----

  /** How a value is written: a short form with a one-byte length or a long one
      with four, as bytes or as UTF-8. */
  datatype Form = Short(utf8: bool) | Long(utf8: bool)

  datatype Entry = Entry(key: Bytes, value: Bytes, form: Form)

  predicate Writable(e: Entry) {
    |e.key| < UINT32 && |e.value| < if e.form.Short? then 256 else UINT32
  }

  predicate AllWritable(es: seq<Entry>) { |es| < UINT32 && forall e :: e in es ==> Writable(e) }

  function Opcode(f: Form): Byte {
    match f
    case Short(utf8) => if utf8 then SX_UTF8STR else SX_SCALAR
    case Long(utf8) => if utf8 then SX_LUTF8STR else SX_LSCALAR
  }

  function EncodeValue(e: Entry): Bytes
    requires Writable(e)
  {
    [Opcode(e.form)] + (if e.form.Short? then [|e.value|] else PutUint32(|e.value|)) + e.value
  }

  function EncodeEntry(e: Entry): Bytes
    requires Writable(e)
  {
    EncodeValue(e) + (PutUint32(|e.key|) + e.key)
  }

  function EncodeEntries(es: seq<Entry>): Bytes
    requires forall e :: e in es ==> Writable(e)
  {
    if es == [] then [] else EncodeEntry(es[0]) + EncodeEntries(es[1..])
  }

  /** nfreeze's output for a hash, visiting its entries in this order. */
  function Encode(minor: Byte, es: seq<Entry>): Bytes
    requires AllWritable(es)
  {
    [MAGIC, minor, SX_HASH] + PutUint32(|es|) + EncodeEntries(es)
  }

  /** The session cookie of a logged-in user, byte for byte: the nfreeze header with
      Perl's minor version 11, one entry, a short value, and the key "user". */
  lemma CookieLayout(user: Bytes)
    requires |user| <= 255
    ensures var e := Entry([117, 115, 101, 114], user, Short(false));
            && AllWritable([e])
            && Encode(0x0B, [e])
               == [0x05, 0x0B, 0x03, 0, 0, 0, 1] + [0x0A, |user|] + user + [0, 0, 0, 4, 117, 115, 101, 114]
  {
    var e := Entry([117, 115, 101, 114], user, Short(false));
    assert [e][1..] == [];
    assert EncodeEntries([e]) == EncodeEntry(e);
  }

  /** Each form of a value: its opcode, its length in one byte or four, and its bytes. */
  lemma ValueLayout(e: Entry)
    requires Writable(e)
    ensures var n := |e.value|;
            EncodeValue(e) == match e.form
                              case Short(utf8) => [if utf8 then 23 else 10, n] + e.value
                              case Long(utf8) =>
                                [if utf8 then 24 else 1]
                                + [n / 0x100_0000, n / 0x1_0000 % 0x100, n / 0x100 % 0x100, n % 0x100]
                                + e.value
  {}

  /** The hash: a later entry for a key replaces an earlier one. */
  function Hash(es: seq<Entry>): map<Bytes, Bytes> {
    if es == [] then map[] else Hash(es[..|es| - 1])[es[|es| - 1].key := es[|es| - 1].value]
  }

  // ---- reading ----

  /** readString: the form and the value b starts with, and what follows. */
  function ReadString(b: Bytes): (r: Option<(Form, Bytes, Bytes)>)
    ensures r.Some? ==> |r.value.2| + |r.value.1| + 2 <= |b|
  {
    if |b| < 1 then None
    else
      var op, rest := b[0], b[1..];
      if op == SX_SCALAR || op == SX_UTF8STR then
        if |rest| < 1 || rest[0] > |rest| - 1 then None
        else Some((Short(op == SX_UTF8STR), rest[1..1 + rest[0]], rest[1 + rest[0]..]))
      else if op == SX_LSCALAR || op == SX_LUTF8STR then
        if |rest| < 4 || Uint32(rest) > |rest| - 4 then None
        else Some((Long(op == SX_LUTF8STR), rest[4..4 + Uint32(rest)], rest[4 + Uint32(rest)..]))
      else None
  }

  /** One turn of DecodeHash's loop. */
  function ReadEntry(b: Bytes): (r: Option<(Entry, Bytes)>)
    ensures r.Some? ==> |r.value.1| + 6 <= |b|
  {
    match ReadString(b)
    case None => None
    case Some((form, value, rest)) =>
      if |rest| < 4 || Uint32(rest) > |rest| - 4 then None
      else Some((Entry(rest[4..4 + Uint32(rest)], value, form), rest[4 + Uint32(rest)..]))
  }

  /** The whole loop: n entries that use up b exactly. */
  function ReadEntries(n: nat, b: Bytes): Option<seq<Entry>> {
    if n == 0 then (if b == [] then Some([]) else None)
    else match ReadEntry(b)
         case None => None
         case Some((e, rest)) =>
           match ReadEntries(n - 1, rest)
           case None => None
           case Some(es) => Some([e] + es)
  }

  /** The entries a cookie's data holds, with its minor version. */
  function Parse(b: Bytes): Option<(Byte, seq<Entry>)> {
    if |b| < 7 || b[0] != MAGIC || b[2] != SX_HASH then None
    else match ReadEntries(Uint32(b[3..7]), b[7..])
         case None => None
         case Some(es) => Some((b[1], es))
  }

  // ---- the code ----

  method ReadStringAt(b: Bytes) returns (v: Bytes, rest: Bytes, ok: bool)
    ensures ok == ReadString(b).Some?
    ensures ok ==> ReadString(b).value.1 == v && ReadString(b).value.2 == rest
  {
    if |b| < 1 { return [], [], false; }
    var op, c := b[0], b[1..];
    var l := 0;
    if op == SX_SCALAR || op == SX_UTF8STR {
      if |c| < 1 { return [], [], false; }
      l, c := c[0], c[1..];
    } else if op == SX_LSCALAR || op == SX_LUTF8STR {
      if |c| < 4 { return [], [], false; }
      l, c := Uint32(c), c[4..];
    } else {
      return [], [], false;
    }
    if l > |c| { return [], [], false; }
    return c[..l], c[l..], true;
  }

  /** The entries read so far with those still to be read. */
  function Joined(read: seq<Entry>, more: Option<seq<Entry>>): Option<seq<Entry>> {
    match more case None => None case Some(es) => Some(read + es)
  }

  lemma JoinNothing(more: Option<seq<Entry>>)
    ensures Joined([], more) == more
  {
    if more.Some? { assert [] + more.value == more.value; }
  }

  lemma JoinedStep(read: seq<Entry>, n: nat, b: Bytes)
    requires n > 0 && ReadEntry(b).Some?
    ensures var (e, rest) := ReadEntry(b).value;
            Joined(read, ReadEntries(n, b)) == Joined(read + [e], ReadEntries(n - 1, rest))
  {
    var (e, rest) := ReadEntry(b).value;
    if ReadEntries(n - 1, rest).Some? {
      assert read + ([e] + ReadEntries(n - 1, rest).value) == (read + [e]) + ReadEntries(n - 1, rest).value;
    }
  }

  /** The body of DecodeHash's loop: a value, then its key. */
  method ReadEntryAt(data: Bytes) returns (key: Bytes, value: Bytes, rest: Bytes, ok: bool)
    ensures ok == ReadEntry(data).Some?
    ensures ok ==> var (e, after) := ReadEntry(data).value; key == e.key && value == e.value && rest == after
  {
    var b;
    value, b, ok := ReadStringAt(data);
    if !ok { return [], [], [], false; }
    if |b| < 4 { return [], [], [], false; }
    var kl := Uint32(b);
    b := b[4..];
    if kl > |b| { return [], [], [], false; }
    key, rest := b[..kl], b[kl..];
  }

  /** DecodeHash's loop. */
  method ReadAll(n: nat, data: Bytes) returns (r: Option<map<Bytes, Bytes>>)
    ensures r == match ReadEntries(n, data) case None => None case Some(es) => Some(Hash(es))
  {
    hide ReadEntry, ReadEntries, Joined, Hash;
    var b, out: map<Bytes, Bytes> := data, map[];
    ghost var read: seq<Entry> := [];
    LoopStart(n, b);
    for i := 0 to n
      invariant out == Hash(read)
      invariant ReadEntries(n, data) == Joined(read, ReadEntries(n - i, b))
    {
      LoopFails(read, n - i, b);
      ghost var was := b;
      var key, value, rest, ok := ReadEntryAt(b);
      if !ok { return None; }
      JoinedStep(read, n - i, was);
      HashStep(read, ReadEntry(was).value.0);
      b, out, read := rest, out[key := value], read + [ReadEntry(was).value.0];
    }
    LoopEnd(read, b);
    r := if |b| != 0 then None else Some(out);
  }

  lemma LoopStart(n: nat, b: Bytes)
    ensures Hash([]) == map[] && ReadEntries(n, b) == Joined([], ReadEntries(n, b))
  {
    JoinNothing(ReadEntries(n, b));
  }

  lemma LoopFails(read: seq<Entry>, n: nat, b: Bytes)
    requires n > 0
    ensures ReadEntry(b).None? ==> Joined(read, ReadEntries(n, b)).None?
  {}

  lemma HashStep(read: seq<Entry>, e: Entry)
    ensures Hash(read + [e]) == Hash(read)[e.key := e.value]
  {
    assert (read + [e])[..|read|] == read;
  }

  lemma LoopEnd(read: seq<Entry>, b: Bytes)
    ensures Joined(read, ReadEntries(0, b)) == if b == [] then Some(read) else None
  {
    assert read + [] == read;
  }

  /** DecodeHash: its result is the hash of the entries Parse finds, and it fails
      exactly when Parse does. */
  method DecodeHash(data: Bytes) returns (r: Option<map<Bytes, Bytes>>)
    ensures r == match Parse(data) case None => None case Some((_, es)) => Some(Hash(es))
  {
    var b := data;
    if |b| < 2 || b[0] != MAGIC { return None; }
    b := b[2..];
    if |b| < 5 || b[0] != SX_HASH { return None; }
    var n := Uint32(b[1..5]);
    b := b[5..];
    assert b == data[7..] && data[3..7] == data[2..][1..5];
    if n * 6 > |b| {
      GuardIsSafe(n, b);
      return None;
    }
    r := ReadAll(n, b);
  }

  /** Each entry takes six bytes at least, so the size check refuses nothing the loop accepts. */
  lemma {:induction false} GuardIsSafe(n: nat, b: Bytes)
    ensures ReadEntries(n, b).Some? ==> n * 6 <= |b|
  {
    if n > 0 && ReadEntry(b).Some? { GuardIsSafe(n - 1, ReadEntry(b).value.1); }
  }

  // ---- reading undoes writing ----

  lemma ReadEncodedEntry(e: Entry, rest: Bytes)
    requires Writable(e)
    ensures ReadEntry(EncodeEntry(e) + rest) == Some((e, rest))
  {
    var b := EncodeEntry(e) + rest;
    var tail := PutUint32(|e.key|) + e.key + rest;
    assert b == EncodeValue(e) + tail;
    ReadEncodedString(e, tail);
    assert tail[..4] == PutUint32(|e.key|);
    assert tail[4..4 + |e.key|] == e.key && tail[4 + |e.key|..] == rest;
  }

  lemma ReadEncodedString(e: Entry, tail: Bytes)
    requires Writable(e)
    ensures ReadString(EncodeValue(e) + tail) == Some((e.form, e.value, tail))
  {
    var b := EncodeValue(e) + tail;
    assert b[1..] == (if e.form.Short? then [|e.value|] else PutUint32(|e.value|)) + e.value + tail;
    if e.form.Long? { assert b[1..][..4] == PutUint32(|e.value|); }
  }

  lemma {:induction false} ReadEncodedEntries(es: seq<Entry>)
    requires forall e :: e in es ==> Writable(e)
    ensures ReadEntries(|es|, EncodeEntries(es)) == Some(es)
  {
    hide ReadEntry, EncodeEntry;
    if es != [] {
      ReadEncodedEntry(es[0], EncodeEntries(es[1..]));
      ReadEncodedEntries(es[1..]);
      assert [es[0]] + es[1..] == es;
    }
  }

  lemma EncodeReadEntry(b: Bytes)
    requires ReadEntry(b).Some?
    ensures Writable(ReadEntry(b).value.0) && EncodeEntry(ReadEntry(b).value.0) + ReadEntry(b).value.1 == b
  {
    var (e, rest) := ReadEntry(b).value;
    var (form, value, tail) := ReadString(b).value;
    EncodeReadString(b, e);
    Uint32Injective(tail);
    assert tail == PutUint32(|e.key|) + e.key + rest;
  }

  lemma EncodeReadString(b: Bytes, e: Entry)
    requires ReadString(b).Some? && ReadString(b).value.0 == e.form && ReadString(b).value.1 == e.value
             && |e.key| < UINT32
    ensures Writable(e) && EncodeValue(e) + ReadString(b).value.2 == b
  {
    if e.form.Long? { Uint32Injective(b[1..]); }
  }

  lemma EncodeNone()
    ensures EncodeEntries([]) == []
  {}

  lemma EncodeOneMore(e: Entry, es: seq<Entry>)
    requires Writable(e) && forall f :: f in es ==> Writable(f)
    ensures forall f :: f in [e] + es ==> Writable(f)
    ensures EncodeEntries([e] + es) == EncodeEntry(e) + EncodeEntries(es)
  {
    assert ([e] + es)[1..] == es;
  }

  lemma {:induction false} EncodeReadEntries(n: nat, b: Bytes)
    requires ReadEntries(n, b).Some?
    ensures var es := ReadEntries(n, b).value;
            |es| == n && (forall e :: e in es ==> Writable(e)) && EncodeEntries(es) == b
  {
    hide ReadEntry, EncodeEntry, EncodeEntries, Writable;
    if n == 0 {
      EncodeNone();
    } else {
      var (e, rest) := ReadEntry(b).value;
      EncodeReadEntry(b);
      EncodeReadEntries(n - 1, rest);
      EncodeOneMore(e, ReadEntries(n - 1, rest).value);
    }
  }

  /** Reading is the exact inverse of writing: the data holds these entries, in
      these forms, under this minor version exactly when it is their encoding. So
      every accepted input is the encoding of one entry list only. */
  lemma ParseIsInverse(b: Bytes, minor: Byte, es: seq<Entry>)
    ensures Parse(b) == Some((minor, es)) <==> AllWritable(es) && b == Encode(minor, es)
  {
    if AllWritable(es) && b == Encode(minor, es) { ParseEncoded(minor, es); }
    if Parse(b) == Some((minor, es)) { EncodeParsed(b); }
  }

  lemma ParseEncoded(minor: Byte, es: seq<Entry>)
    requires AllWritable(es)
    ensures Parse(Encode(minor, es)) == Some((minor, es))
  {
    var b := Encode(minor, es);
    assert b[3..7] == PutUint32(|es|) && b[7..] == EncodeEntries(es);
    ReadEncodedEntries(es);
    assert Uint32(b[3..7]) == |es|;
  }

  lemma EncodeParsed(b: Bytes)
    requires Parse(b).Some?
    ensures AllWritable(Parse(b).value.1) && Encode(Parse(b).value.0, Parse(b).value.1) == b
  {
    var n := Uint32(b[3..7]);
    EncodeReadEntries(n, b[7..]);
    Uint32Injective(b[3..7]);
    assert b == [b[0], b[1], b[2]] + b[3..7] + b[7..];
  }

  /** A key's value is that of its last entry. */
  lemma {:induction false} LastEntryWins(es: seq<Entry>, k: nat)
    requires k < |es| && forall m :: k < m < |es| ==> es[m].key != es[k].key
    ensures es[k].key in Hash(es) && Hash(es)[es[k].key] == es[k].value
  {
    if k < |es| - 1 { LastEntryWins(es[..|es| - 1], k); }
  }

  lemma {:induction false} HashHasOnlyEntries(es: seq<Entry>)
    ensures Hash(es).Keys == set e | e in es :: e.key
  {
    if es != [] {
      var front, last := es[..|es| - 1], es[|es| - 1];
      HashHasOnlyEntries(front);
      assert es == front + [last];
    }
  }
}
