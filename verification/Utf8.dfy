/** UTF-8 as section 3 of RFC 3629 defines it, and text that was encoded twice. */
module Utf8 {
  import opened Wrappers

  /** A Unicode scalar value: a code point that isn't a surrogate. */
  type Scalar = c: int | 0 <= c < 0xD800 || 0xE000 <= c <= 0x10FFFF
  type Byte = b: int | 0 <= b < 0x100
  type Text = seq<Scalar>

  // ---- one character ----

  function EncodeOne(c: Scalar): (b: seq<Byte>)
    ensures 1 <= |b| <= 4 && (|b| == 1 <==> c < 0x80)
  {
    if c < 0x80 then [c]
    else if c < 0x800 then [0xC0 + c / 64, 0x80 + c % 64]
    else if c < 0x10000 then [0xE0 + c / 64 / 64, 0x80 + c / 64 % 64, 0x80 + c % 64]
    else [0xF0 + c / 64 / 64 / 64, 0x80 + c / 64 / 64 % 64, 0x80 + c / 64 % 64, 0x80 + c % 64]
  }

  predicate Tail(b: Byte) { 0x80 <= b <= 0xBF }

  predicate Starts2(b: seq<Byte>) { |b| >= 2 && 0xC2 <= b[0] <= 0xDF && Tail(b[1]) }

  predicate Starts3(b: seq<Byte>) {
    && |b| >= 3 && 0xE0 <= b[0] <= 0xEF
    && (if b[0] == 0xE0 then 0xA0 else 0x80) <= b[1] <= (if b[0] == 0xED then 0x9F else 0xBF)
    && Tail(b[2])
  }

  predicate Starts4(b: seq<Byte>) {
    && |b| >= 4 && 0xF0 <= b[0] <= 0xF4
    && (if b[0] == 0xF0 then 0x90 else 0x80) <= b[1] <= (if b[0] == 0xF4 then 0x8F else 0xBF)
    && Tail(b[2]) && Tail(b[3])
  }

  function Two(a: int, b: int): int { (a - 0xC0) * 64 + (b - 0x80) }
  function Three(a: int, b: int, c: int): int { ((a - 0xE0) * 64 + (b - 0x80)) * 64 + (c - 0x80) }
  function Four(a: int, b: int, c: int,
                d: int): int { (((a - 0xF0) * 64 + (b - 0x80)) * 64 + (c - 0x80)) * 64 + (d - 0x80) }

  /** The character b starts with, and its length in bytes; None if b doesn't start
      with the encoding of one. Overlong forms and surrogates are refused by the
      range of the second byte. */
  function DecodeOne(b: seq<Byte>): Option<(Scalar, nat)> {
    if |b| == 0 then None
    else if b[0] < 0x80 then Some((b[0], 1))
    else if Starts2(b) then Some((Two(b[0], b[1]), 2))
    else if Starts3(b) then Some((Three(b[0], b[1], b[2]), 3))
    else if Starts4(b) then Some((Four(b[0], b[1], b[2], b[3]), 4))
    else None
  }

  lemma Sixes(q: int, r: int)
    requires 0 <= r < 64
    ensures (q * 64 + r) / 64 == q && (q * 64 + r) % 64 == r
  {}

  lemma DecodeEncodedOne(c: Scalar, rest: seq<Byte>)
    ensures DecodeOne(EncodeOne(c) + rest) == Some((c, |EncodeOne(c)|))
  {
    var b, q, p := EncodeOne(c) + rest, c / 64, c / 64 / 64;
    assert c == q * 64 + c % 64 && q == p * 64 + q % 64 && p == p / 64 * 64 + p % 64;
    if c >= 0x80 {
      assert b[0] == EncodeOne(c)[0] && b[1] == EncodeOne(c)[1];
      if c >= 0x800 { assert b[2] == EncodeOne(c)[2]; }
      if c >= 0x10000 { assert b[3] == EncodeOne(c)[3]; }
    }
  }

  lemma EncodeDecodedOne(b: seq<Byte>)
    requires DecodeOne(b).Some?
    ensures DecodeOne(b).value.1 <= |b| && EncodeOne(DecodeOne(b).value.0) == b[..DecodeOne(b).value.1]
  {
    var x: int, y: int := b[0], if |b| > 1 then b[1] else 0;
    if x < 0x80 {
    } else if Starts2(b) {
      Sixes(x - 0xC0, y - 0x80);
    } else if Starts3(b) {
      Sixes(x - 0xE0, y - 0x80);
      Sixes((x - 0xE0) * 64 + (y - 0x80), b[2] - 0x80);
    } else {
      var q := (x - 0xF0) * 64 + (y - 0x80);
      Sixes(x - 0xF0, y - 0x80);
      Sixes(q, b[2] - 0x80);
      Sixes(q * 64 + (b[2] - 0x80), b[3] - 0x80);
    }
  }

  // ---- text ----

  function Encode(t: Text): seq<Byte> {
    if t == [] then [] else EncodeOne(t[0]) + Encode(t[1..])
  }

  /** The text whose encoding is b, None if b isn't valid UTF-8. */
  function Decode(b: seq<Byte>): Option<Text>
    decreases |b|
  {
    if b == [] then Some([])
    else match DecodeOne(b)
         case None => None
         case Some((c, n)) =>
           EncodeDecodedOne(b);
           match Decode(b[n..])
           case None => None
           case Some(t) => Some([c] + t)
  }

  lemma {:induction false} DecodeEncoded(t: Text)
    ensures Decode(Encode(t)) == Some(t)
  {
    hide EncodeOne, DecodeOne;
    if t != [] {
      DecodeEncodedOne(t[0], Encode(t[1..]));
      DecodeEncoded(t[1..]);
      assert Encode(t)[|EncodeOne(t[0])|..] == Encode(t[1..]);
      assert [t[0]] + t[1..] == t;
    }
  }

  lemma {:induction false} EncodeDecoded(b: seq<Byte>)
    requires Decode(b).Some?
    ensures Encode(Decode(b).value) == b
    decreases |b|
  {
    hide EncodeOne, DecodeOne;
    if b != [] {
      var (c, n) := DecodeOne(b).value;
      EncodeDecodedOne(b);
      EncodeDecoded(b[n..]);
      assert b == b[..n] + b[n..];
      assert ([c] + Decode(b[n..]).value)[1..] == Decode(b[n..]).value;
    }
  }

  /** Valid UTF-8 is exactly what encoding some text gives, and gives it for one text only. */
  lemma DecodeIsInverse(b: seq<Byte>, t: Text)
    ensures Decode(b) == Some(t) <==> b == Encode(t)
  {
    DecodeEncoded(t);
    if Decode(b) == Some(t) { EncodeDecoded(b); }
  }

  predicate Ascii(t: seq<int>) { forall k :: 0 <= k < |t| ==> t[k] < 0x80 }

  lemma {:induction false} EncodeLength(t: Text)
    ensures |Encode(t)| >= |t|
    ensures |Encode(t)| == |t| <==> Ascii(t)
    ensures Ascii(t) <==> Ascii(Encode(t))
    ensures Ascii(t) ==> Encode(t) == t
  {
    if t != [] {
      EncodeLength(t[1..]);
      assert t == [t[0]] + t[1..];
      assert Encode(t) == EncodeOne(t[0]) + Encode(t[1..]);
      if t[0] < 0x80 {
        assert Ascii(t) <==> Ascii(t[1..]);
        assert Ascii(Encode(t)) <==> Ascii(Encode(t[1..])) by {
          assert Encode(t)[1..] == Encode(t[1..]);
          if Ascii(Encode(t)) {
            assert forall k :: 0 <= k < |Encode(t[1..])| ==> Encode(t[1..])[k] == Encode(t)[k + 1];
          }
        }
      } else {
        assert Encode(t)[0] == EncodeOne(t[0])[0] >= 0x80;
      }
    }
  }
}
