/** Which addresses liercd must not connect to, by bytes and mask as the API
    checks them, and as the intervals of addresses they amount to. */
module Cidr {
  import opened Wrappers
  import opened Arithmetic

  type Byte = b: int | 0 <= b < 0x100
  type Bytes = seq<Byte>

  datatype Family = Inet | Inet6

  /** A prefix: its family, its packed address, and how many leading bits count. */
  datatype Prefix = Prefix(family: Family, net: Bytes, bits: nat)

  // ---- the code ----

  /** The bitwise and of two numbers. */
  function And(x: nat, y: nat): nat {
    if x == 0 || y == 0 then 0 else (x % 2) * (y % 2) + 2 * And(x / 2, y / 2)
  }

  function Pow2(e: nat): (p: nat)
    ensures p >= 1
  {
    if e == 0 then 1 else 2 * Pow2(e - 1)
  }

  /** in_prefix: whole bytes first, then the remaining bits under a mask. */
  function InPrefix(packed: Bytes, net: Bytes, bits: nat): bool
    requires |packed| == |net| && bits <= 8 * |net|
  {
    var bytes, rest := bits / 8, bits % 8;
    if packed[..bytes] != net[..bytes] then false
    else if rest == 0 then true
    else
      var mask := And(0xFF * Pow2(8 - rest), 0xFF);
      And(packed[bytes], mask) == And(net[bytes], mask)
  }

  const ZEROS_10: Bytes := [0, 0, 0, 0, 0, 0, 0, 0, 0, 0]
  const ZEROS_12: Bytes := ZEROS_10 + [0, 0]

  const BLOCKED: seq<Prefix> := [
    Prefix(Inet, [0, 0, 0, 0], 8), Prefix(Inet, [10, 0, 0, 0], 8), Prefix(Inet, [100, 64, 0, 0], 10),
    Prefix(Inet, [127, 0, 0, 0], 8), Prefix(Inet, [169, 254, 0, 0], 16), Prefix(Inet, [172, 16, 0, 0], 12),
    Prefix(Inet, [192, 0, 0, 0], 24), Prefix(Inet, [192, 168, 0, 0], 16), Prefix(Inet, [198, 18, 0, 0], 15),
    Prefix(Inet, [224, 0, 0, 0], 4), Prefix(Inet, [240, 0, 0, 0], 4),
    Prefix(Inet6, ZEROS_12 + [0, 0, 0, 0], 128), Prefix(Inet6, ZEROS_12 + [0, 0, 0, 1], 128),
    Prefix(Inet6, [0xFC, 0, 0, 0] + ZEROS_12, 7), Prefix(Inet6, [0xFE, 0x80, 0, 0] + ZEROS_12, 10),
    Prefix(Inet6, [0xFF, 0, 0, 0] + ZEROS_12, 8), Prefix(Inet6, [0, 0x64, 0xFF, 0x9B] + ZEROS_12, 96)]

  function Length(f: Family): nat { if f == Inet then 4 else 16 }

  // ---- addresses as numbers ----

  function Number(b: Bytes): nat {
    if b == [] then 0 else Number(b[..|b| - 1]) * 256 + b[|b| - 1]
  }

  function Shift(n: nat, e: nat): int {
    var p := Pow2(e);
    n / p
  }

  /** The network an address is in: its number without the low bits. */
  function Network(b: Bytes, bits: nat): int
    requires bits <= 8 * |b|
  {
    Shift(Number(b), 8 * |b| - bits)
  }

  // ---- masking ----

  lemma {:induction false} AndLow(x: nat, w: nat, k: nat)
    requires k <= w && x < Pow2(w)
    ensures Pow2(w) >= Pow2(k) && And(x, Pow2(w) - Pow2(k)) == x - x % Pow2(k)
  {
    Pow2Grows(k, w);
    if w == 0 {
    } else if k == 0 {
      AndOnes(x, w);
    } else {
      AndLow(x / 2, w - 1, k - 1);
      var m := Pow2(w) - Pow2(k);
      assert m == 2 * (Pow2(w - 1) - Pow2(k - 1));
      HalfMod(x, Pow2(k - 1));
    }
  }

  lemma HalfMod(x: nat, p: nat)
    requires p >= 1
    ensures x - x % (2 * p) == 2 * (x / 2 - x / 2 % p)
  {
    var q, r := x / 2 / p, x / 2 % p;
    assert x == 2 * (q * p + r) + x % 2;
    assert x == q * (2 * p) + (2 * r + x % 2);
    DivUnique(x, 2 * p, q, 2 * r + x % 2);
  }

  lemma {:induction false} AndOnes(x: nat, w: nat)
    requires x < Pow2(w)
    ensures And(x, Pow2(w) - 1) == x
  {
    if w > 0 && x > 0 {
      AndOnes(x / 2, w - 1);
      assert (Pow2(w) - 1) % 2 == 1 && (Pow2(w) - 1) / 2 == Pow2(w - 1) - 1;
    }
  }

  lemma {:induction false} Pow2Grows(d: nat, e: nat)
    requires d <= e
    ensures Pow2(d) <= Pow2(e)
  {
    if d < e { Pow2Grows(d, e - 1); }
  }

  lemma {:induction false} Pow2Add(d: nat, e: nat)
    ensures Pow2(d + e) == Pow2(d) * Pow2(e)
  {
    if d > 0 {
      Pow2Add(d - 1, e);
      assert Pow2(d + e) == 2 * (Pow2(d - 1) * Pow2(e));
    }
  }

  /** The mask in_prefix computes keeps a byte's leading bits: 256 - 2^(8 - rest). */
  lemma MaskIs(rest: nat)
    requires 1 <= rest <= 7
    ensures And(0xFF * Pow2(8 - rest), 0xFF) == 0x100 - Pow2(8 - rest)
  {
    assert Pow2(8) == 0x100;
    AndByte(0xFF * Pow2(8 - rest), 8);
    Pow2Grows(8 - rest, 7);
    DivUnique(0xFF * Pow2(8 - rest), 0x100, Pow2(8 - rest) - 1, 0x100 - Pow2(8 - rest));
  }

  lemma {:induction false} AndByte(x: nat, w: nat)
    ensures And(x, Pow2(w) - 1) == x % Pow2(w)
  {
    hide And;
    if w == 0 {
      AndZero(x);
      DivUnique(x, 1, x, 0);
    } else {
      AndByte(x / 2, w - 1);
      AndOdd(x, Pow2(w - 1) - 1);
      HalfMod(x, Pow2(w - 1));
    }
  }

  lemma AndZero(x: nat)
    ensures And(x, 0) == 0
  {}

  lemma AndOdd(x: nat, m: nat)
    ensures And(x, 2 * m + 1) == x % 2 + 2 * And(x / 2, m)
  {
    assert (2 * m + 1) / 2 == m && (2 * m + 1) % 2 == 1;
  }

  lemma SameQuotient(c: nat, d: nat, p: nat)
    requires p >= 1
    ensures c - c % p == d - d % p <==> c / p == d / p
  {
    assert c == c / p * p + c % p && d == d / p * p + d % p;
    if c - c % p == d - d % p {
      DivUnique(c / p * p, p, c / p, 0);
      DivUnique(d / p * p, p, d / p, 0);
    }
  }

  /** Two bytes agree under the mask exactly when they agree after the shift. */
  lemma MaskedByte(c: Byte, d: Byte, rest: nat)
    requires 1 <= rest <= 7
    ensures var mask := And(0xFF * Pow2(8 - rest), 0xFF);
            And(c, mask) == And(d, mask) <==> c / Pow2(8 - rest) == d / Pow2(8 - rest)
  {
    hide And;
    MaskIs(rest);
    ByteRange();
    AndLow(c, 8, 8 - rest);
    AndLow(d, 8, 8 - rest);
    SameQuotient(c, d, Pow2(8 - rest));
  }

  lemma ByteRange()
    ensures Pow2(8) == 0x100
  {}

  // ---- the meaning of in_prefix ----

  lemma AppendByte(hi: nat, p: nat, lo: nat, c: Byte)
    requires lo < p
    ensures (hi * p + lo) * 256 + c == hi * (256 * p) + (lo * 256 + c)
    ensures lo * 256 + c < 256 * p
  {
    assert (hi * p) * 256 == hi * (256 * p);
  }

  lemma {:induction false} NumberAppend(a: Bytes, b: Bytes)
    ensures Number(a + b) == Number(a) * Pow2(8 * |b|) + Number(b)
    ensures Number(b) < Pow2(8 * |b|)
  {
    if b == [] {
      assert a + b == a;
    } else {
      var front := b[..|b| - 1];
      NumberAppend(a, front);
      assert (a + b)[..|a + b| - 1] == a + front;
      AppendByte(Number(a), Pow2(8 * |front|), Number(front), b[|b| - 1]);
      ByteRange();
      Pow2Add(8, 8 * |front|);
    }
  }

  lemma {:induction false} NumberInjective(a: Bytes, b: Bytes)
    requires |a| == |b| && Number(a) == Number(b)
    ensures a == b
  {
    if a != [] {
      NumberInjective(a[..|a| - 1], b[..|b| - 1]);
      assert a == a[..|a| - 1] + [a[|a| - 1]] && b == b[..|b| - 1] + [b[|b| - 1]];
    }
  }

  /** Dropping whole bytes is dividing by their weight. */
  lemma WholeBytes(b: Bytes, n: nat)
    requires n <= |b|
    ensures Network(b, 8 * n) == Number(b[..n])
  {
    NumberAppend(b[..n], b[n..]);
    assert b[..n] + b[n..] == b;
    DivUnique(Number(b), Pow2(8 * (|b| - n)), Number(b[..n]), Number(b[n..]));
  }

  /** Dropping part of a byte divides that byte. */
  lemma PartByte(b: Bytes, n: nat, rest: nat)
    requires n < |b| && 1 <= rest <= 7
    ensures Network(b, 8 * n + rest) == Number(b[..n]) * Pow2(rest) + b[n] / Pow2(8 - rest)
  {
    hide Pow2;
    WholeBytes(b, n + 1);
    assert b[..n + 1][..n] == b[..n];
    Pow2Add(rest, 8 - rest);
    Pow2Add(8 - rest, 8 * (|b| - n - 1));
    ByteRange();
    DivTwice(Number(b), Pow2(8 * (|b| - n - 1)), Pow2(8 - rest));
    SplitByte(Number(b[..n]), b[n], Pow2(rest), Pow2(8 - rest));
  }

  lemma SplitByte(hi: nat, c: nat, q: nat, p: nat)
    requires p >= 1 && q * p == 0x100
    ensures (hi * 0x100 + c) / p == hi * q + c / p
  {
    assert hi * 0x100 == hi * (q * p) == hi * q * p;
    assert c == c / p * p + c % p;
    assert (hi * q + c / p) * p == hi * q * p + c / p * p;
    DivUnique(hi * 0x100 + c, p, hi * q + c / p, c % p);
  }

  lemma TwoDigits(x: nat, y: nat, r: nat, q: nat, s: nat, m: nat, n: nat)
    requires x == y * m + r && y == q * n + s && r < m && s < n
    ensures x == q * (n * m) + (s * m + r) && s * m + r < n * m
  {
    assert y * m == (q * n) * m + s * m;
    assert (q * n) * m == q * (n * m);
    MulLe(s + 1, n, m);
  }

  lemma DivTwice(x: nat, m: nat, n: nat)
    requires m >= 1 && n >= 1
    ensures n * m >= 1 && x / (n * m) == x / m / n
  {
    var y := x / m;
    MulLe(1, n, m);
    TwoDigits(x, y, x % m, y / n, y % n, m, n);
    DivUnique(x, n * m, y / n, y % n * m + x % m);
  }

  /** in_prefix holds exactly when the two addresses are the same number once
      their low bits are dropped, for every length and every prefix length. */
  lemma InPrefixIffSameNetwork(packed: Bytes, net: Bytes, bits: nat)
    requires |packed| == |net| && bits <= 8 * |net|
    ensures InPrefix(packed, net, bits) <==> Network(packed, bits) == Network(net, bits)
  {
    hide And, Pow2, Number;
    var n, rest := bits / 8, bits % 8;
    assert bits == 8 * n + rest;
    if rest == 0 {
      WholeBytes(packed, n);
      WholeBytes(net, n);
      if Number(packed[..n]) == Number(net[..n]) { NumberInjective(packed[..n], net[..n]); }
    } else {
      PartByte(packed, n, rest);
      PartByte(net, n, rest);
      MaskedByte(packed[n], net[n], rest);
      if Network(packed, bits) == Network(net, bits) { PartsAgree(packed, net, n, rest); }
    }
  }

  lemma PartsAgree(a: Bytes, b: Bytes, n: nat, rest: nat)
    requires |a| == |b| && n < |a| && 1 <= rest <= 7
    requires Number(a[..n]) * Pow2(rest) + a[n] / Pow2(8 - rest) == Number(b[..n]) * Pow2(rest) + b[n] / Pow2(8 - rest)
    ensures a[..n] == b[..n] && a[n] / Pow2(8 - rest) == b[n] / Pow2(8 - rest)
  {
    var q, p := Pow2(rest), Pow2(8 - rest);
    ByteQuotient(a[n], rest);
    ByteQuotient(b[n], rest);
    DivUnique(Number(a[..n]) * q + a[n] / p, q, Number(a[..n]), a[n] / p);
    DivUnique(Number(b[..n]) * q + b[n] / p, q, Number(b[..n]), b[n] / p);
    NumberInjective(a[..n], b[..n]);
  }

  lemma ByteQuotient(c: Byte, rest: nat)
    requires 1 <= rest <= 7
    ensures 0 <= c / Pow2(8 - rest) < Pow2(rest)
  {
    Pow2Add(rest, 8 - rest);
    ByteRange();
    BoundQuotient(c, Pow2(rest), Pow2(8 - rest));
  }

  lemma BoundQuotient(c: nat, q: nat, p: nat)
    requires p >= 1 && c < q * p
    ensures 0 <= c / p < q
  {
    if c / p >= q { MulLe(q, c / p, p); }
  }

  // ---- blocked_ip ----

  const MAPPED: Bytes := ZEROS_10 + [0xFF, 0xFF]

  predicate Catches(p: Prefix, f: Family, packed: Bytes)
    requires |packed| == Length(f) && |p.net| == Length(p.family) && p.bits <= 8 * |p.net|
  {
    p.family == f && InPrefix(packed, p.net, p.bits)
  }

  /** The IPv4 addresses liercd must not reach, as ranges of 32-bit numbers. */
  predicate RefusedV4(n: nat) {
    || n < 0x0100_0000                            // 0/8
    || 0x0A00_0000 <= n < 0x0B00_0000             // 10/8
    || 0x6440_0000 <= n < 0x6480_0000             // 100.64/10
    || 0x7F00_0000 <= n < 0x8000_0000             // 127/8
    || 0xA9FE_0000 <= n < 0xA9FF_0000             // 169.254/16
    || 0xAC10_0000 <= n < 0xAC20_0000             // 172.16/12
    || 0xC000_0000 <= n < 0xC000_0100             // 192.0.0/24
    || 0xC0A8_0000 <= n < 0xC0A9_0000             // 192.168/16
    || 0xC612_0000 <= n < 0xC614_0000             // 198.18/15
    || 0xE000_0000 <= n < 0x1_0000_0000           // 224/4 and 240/4 together
  }

  /** The IPv6 addresses it must not reach, as ranges of 128-bit numbers. */
  predicate RefusedV6(n: nat) {
    || n <= 1
    || 0xFC00_0000_0000_0000_0000_0000_0000_0000 <= n < 0xFE00_0000_0000_0000_0000_0000_0000_0000
    || 0xFE80_0000_0000_0000_0000_0000_0000_0000 <= n < 0xFEC0_0000_0000_0000_0000_0000_0000_0000
    || 0xFF00_0000_0000_0000_0000_0000_0000_0000 <= n < 0x1_0000_0000_0000_0000_0000_0000_0000_0000
    || 0x0064_FF9B_0000_0000_0000_0000_0000_0000 <= n < 0x0064_FF9B_0000_0000_0000_0001_0000_0000
  }

  /** blocked_ip, given what inet_pton makes of an address: it refuses what is not
      an address, and otherwise exactly the addresses in the ranges of its family,
      an IPv4-mapped one being the IPv4 address it carries. */
  method BlockedIp(ip: string, pton: (Family, string) -> Option<Bytes>) returns (blocked: bool)
    requires forall f, s :: pton(f, s).Some? ==> |pton(f, s).value| == if f == Inet then 4 else 16
    ensures ':' !in ip ==> (blocked <==> pton(Inet, ip).None? || RefusedV4(Number(pton(Inet, ip).value)))
    ensures ':' in ip ==>
              var packed := pton(Inet6, ip);
              blocked <==>
              || packed.None?
              || if packed.value[..12] == [0, 0, 0, 0, 0, 0, 0, 0, 0, 0, 0xFF, 0xFF]
                 then RefusedV4(Number(packed.value[12..]))
                 else RefusedV6(Number(packed.value))
  {
    hide InPrefix, RefusedV4, RefusedV6, Number;
    var family := if ':' in ip then Inet6 else Inet;
    var found := pton(family, ip);
    if found.None? { return true; }
    var packed := found.value;
    if family == Inet6 && packed[..12] == MAPPED {
      family := Inet;
      packed := packed[12..];
    }
    ListIsRanges(family, packed);
    BlockedFits();
    for i := 0 to |BLOCKED|
      invariant forall j :: 0 <= j < i ==> !Catches(BLOCKED[j], family, packed)
    {
      if Catches(BLOCKED[i], family, packed) { return true; }
    }
    return false;
  }

  lemma BlockedFits()
    ensures forall j :: 0 <= j < |BLOCKED| ==> |BLOCKED[j].net| == Length(BLOCKED[j].family)
                                               && BLOCKED[j].bits <= 8 * |BLOCKED[j].net|
  {}

  function Quad(a: nat, b: nat, c: nat, d: nat): nat {
    ((a * 0x100 + b) * 0x100 + c) * 0x100 + d
  }

  lemma NumberOf4(b: Bytes)
    requires |b| == 4
    ensures Number(b) == Quad(b[0], b[1], b[2], b[3]) < 0x1_0000_0000
  {
    assert b[..3][..2] == b[..2] && b[..2][..1] == b[..1] && b[..1][..0] == [];
    assert Number(b[..1]) == Quad(0, 0, 0, b[0]) && Number(b[..2]) == Quad(0, 0, b[0], b[1]);
    assert Number(b[..3]) == Quad(0, b[0], b[1], b[2]);
  }

  lemma {:induction false} NumberOfZeros(b: Bytes)
    requires forall i :: 0 <= i < |b| ==> b[i] == 0
    ensures Number(b) == 0
  {
    if b != [] { NumberOfZeros(b[..|b| - 1]); }
  }

  lemma Weights()
    ensures Pow2(96) == 0x1_0000_0000_0000_0000_0000_0000 && Pow2(32) == 0x1_0000_0000
  {
    hide Pow2;
    Masks();
    Pow2Add(16, 16);
    Pow2Add(32, 32);
    Pow2Add(32, 64);
  }

  /** Sixteen bytes: the first four lead, the other twelve are below 2^96. */
  lemma NumberOf16(b: Bytes)
    requires |b| == 16
    ensures Number(b) == Number(b[..4]) * 0x1_0000_0000_0000_0000_0000_0000 + Number(b[4..])
    ensures Number(b[4..]) < 0x1_0000_0000_0000_0000_0000_0000 && Number(b[..4]) < 0x1_0000_0000
  {
    hide Number, Pow2;
    Weights();
    NumberAppend(b[..4], b[4..]);
    NumberOf4(b[..4]);
    assert b[..4] + b[4..] == b;
  }

  /** A mapped address is one in ::ffff:0:0/96, and carries its low 32 bits. */
  lemma MappedIff(b: Bytes)
    requires |b| == 16
    ensures b[..12] == MAPPED <==> 0xFFFF_0000_0000 <= Number(b) < 0x1_0000_0000_0000
    ensures b[..12] == MAPPED ==> Number(b[12..]) == Number(b) - 0xFFFF_0000_0000
  {
    hide Number, Pow2;
    Weights();
    NumberAppend(b[..12], b[12..]);
    assert b[..12] + b[12..] == b;
    NumberOfMapped();
    if Number(b[..12]) == 0xFFFF { NumberInjective(b[..12], MAPPED); }
  }

  lemma NumberOfMapped()
    ensures Number(MAPPED) == 0xFFFF
  {
    NumberOfZeros(ZEROS_10);
    assert MAPPED[..11] == ZEROS_10 + [0xFF] && MAPPED[..11][..10] == ZEROS_10;
    assert Number(MAPPED[..11]) == 0xFF;
  }

  /** A prefix whose low bits are clear is the interval starting at its address. */
  lemma PrefixIsInterval(packed: Bytes, net: Bytes, bits: nat, lo: nat, p: nat)
    requires |packed| == |net| && bits <= 8 * |net|
    requires lo == Number(net) && p == Pow2(8 * |net| - bits) && lo % p == 0
    ensures InPrefix(packed, net, bits) <==> lo <= Number(packed) < lo + p
  {
    hide InPrefix, Number, Pow2;
    InPrefixIffSameNetwork(packed, net, bits);
    SameBlock(Number(packed), lo, p);
  }

  lemma SameBlock(x: nat, lo: nat, p: nat)
    requires p >= 1 && lo % p == 0
    ensures x / p == lo / p <==> lo <= x < lo + p
  {
    assert lo == lo / p * p && x == x / p * p + x % p;
    if lo <= x < lo + p { DivUnique(x, p, lo / p, x - lo); }
  }

  /** An IPv4 entry of the list. */
  lemma EntryV4(packed: Bytes, a: Byte, b: Byte, bits: nat, p: nat)
    requires |packed| == 4 && bits <= 32 && p == Pow2(32 - bits)
    requires Quad(a, b, 0, 0) % p == 0
    ensures var lo := Quad(a, b, 0, 0);
            InPrefix(packed, [a, b, 0, 0], bits) <==> lo <= Number(packed) < lo + p
  {
    hide InPrefix, Number, Pow2;
    NumberOf4([a, b, 0, 0]);
    PrefixIsInterval(packed, [a, b, 0, 0], bits, Quad(a, b, 0, 0), p);
  }

  lemma Masks()
    ensures Pow2(0) == 1 && Pow2(8) == 0x100 && Pow2(16) == 0x1_0000 && Pow2(17) == 0x2_0000 && Pow2(20) == 0x10_0000
    ensures Pow2(22) == 0x40_0000 && Pow2(24) == 0x100_0000 && Pow2(25) == 0x200_0000 && Pow2(28) == 0x1000_0000
  {
    Pow2Add(8, 8);
    Pow2Add(4, 16);
    Pow2Add(2, 20);
    Pow2Add(8, 16);
    Pow2Add(4, 24);
  }

  lemma RangesV4(packed: Bytes)
    requires |packed| == 4
    ensures InPrefix(packed, [0, 0, 0, 0], 8) <==> Number(packed) < 0x0100_0000
    ensures InPrefix(packed, [10, 0, 0, 0], 8) <==> 0x0A00_0000 <= Number(packed) < 0x0B00_0000
    ensures InPrefix(packed, [100, 64, 0, 0], 10) <==> 0x6440_0000 <= Number(packed) < 0x6480_0000
    ensures InPrefix(packed, [127, 0, 0, 0], 8) <==> 0x7F00_0000 <= Number(packed) < 0x8000_0000
    ensures InPrefix(packed, [169, 254, 0, 0], 16) <==> 0xA9FE_0000 <= Number(packed) < 0xA9FF_0000
    ensures InPrefix(packed, [172, 16, 0, 0], 12) <==> 0xAC10_0000 <= Number(packed) < 0xAC20_0000
    ensures InPrefix(packed, [192, 0, 0, 0], 24) <==> 0xC000_0000 <= Number(packed) < 0xC000_0100
    ensures InPrefix(packed, [192, 168, 0, 0], 16) <==> 0xC0A8_0000 <= Number(packed) < 0xC0A9_0000
    ensures InPrefix(packed, [198, 18, 0, 0], 15) <==> 0xC612_0000 <= Number(packed) < 0xC614_0000
    ensures InPrefix(packed, [224, 0, 0, 0], 4) <==> 0xE000_0000 <= Number(packed) < 0xF000_0000
    ensures InPrefix(packed, [240, 0, 0, 0], 4) <==> 0xF000_0000 <= Number(packed) < 0x1_0000_0000
  {
    hide InPrefix, Number, Pow2;
    Masks();
    EntryV4(packed, 0, 0, 8, 0x100_0000);
    EntryV4(packed, 10, 0, 8, 0x100_0000);
    EntryV4(packed, 100, 64, 10, 0x40_0000);
    EntryV4(packed, 127, 0, 8, 0x100_0000);
    EntryV4(packed, 169, 254, 16, 0x1_0000);
    EntryV4(packed, 172, 16, 12, 0x10_0000);
    EntryV4(packed, 192, 0, 24, 0x100);
    EntryV4(packed, 192, 168, 16, 0x1_0000);
    EntryV4(packed, 198, 18, 15, 0x2_0000);
    EntryV4(packed, 224, 0, 4, 0x1000_0000);
    EntryV4(packed, 240, 0, 4, 0x1000_0000);
  }

  /** An IPv6 entry whose last twelve bytes are zero is a matter of the first four. */
  lemma EntryV6(packed: Bytes, head: Bytes, bits: nat)
    requires |packed| == 16 && |head| == 4 && bits <= 32
    ensures InPrefix(packed, head + ZEROS_12, bits) <==> InPrefix(packed[..4], head, bits)
  {
    var net := head + ZEROS_12;
    var n := bits / 8;
    assert packed[..n] == packed[..4][..n] && net[..n] == head[..n];
  }

  lemma WholeEntryV6(packed: Bytes, net: Bytes)
    requires |packed| == |net| == 16
    ensures InPrefix(packed, net, 128) <==> Number(packed) == Number(net)
  {
    hide Number;
    assert packed[..16] == packed && net[..16] == net;
    if Number(packed) == Number(net) { NumberInjective(packed, net); }
  }

  lemma Nat64Entry(packed: Bytes)
    requires |packed| == 16
    ensures InPrefix(packed, [0, 0x64, 0xFF, 0x9B] + ZEROS_12, 96)
       <==> 0x0064_FF9B_0000_0000_0000_0000_0000_0000 <= Number(packed) < 0x0064_FF9B_0000_0000_0000_0001_0000_0000
  {
    hide Number, Pow2, InPrefix;
    var head := [0, 0x64, 0xFF, 0x9B];
    NumberOf16(head + ZEROS_12);
    assert (head + ZEROS_12)[..4] == head && (head + ZEROS_12)[4..] == ZEROS_12;
    NumberOf4(head);
    NumberOfZeros(ZEROS_12);
    Weights();
    PrefixIsInterval(packed, head + ZEROS_12, 96, 0x0064_FF9B_0000_0000_0000_0000_0000_0000, 0x1_0000_0000);
  }

  lemma RangesV6(packed: Bytes)
    requires |packed| == 16
    ensures InPrefix(packed, ZEROS_12 + [0, 0, 0, 0], 128) <==> Number(packed) == 0
    ensures InPrefix(packed, ZEROS_12 + [0, 0, 0, 1], 128) <==> Number(packed) == 1
    ensures InPrefix(packed, [0xFC, 0, 0, 0] + ZEROS_12, 7)
       <==> 0xFC00_0000_0000_0000_0000_0000_0000_0000 <= Number(packed) < 0xFE00_0000_0000_0000_0000_0000_0000_0000
    ensures InPrefix(packed, [0xFE, 0x80, 0, 0] + ZEROS_12, 10)
       <==> 0xFE80_0000_0000_0000_0000_0000_0000_0000 <= Number(packed) < 0xFEC0_0000_0000_0000_0000_0000_0000_0000
    ensures InPrefix(packed, [0xFF, 0, 0, 0] + ZEROS_12, 8)
       <==> 0xFF00_0000_0000_0000_0000_0000_0000_0000 <= Number(packed) < 0x1_0000_0000_0000_0000_0000_0000_0000_0000
  {
    hide Number, Pow2, InPrefix;
    SmallNumbers();
    WholeEntryV6(packed, ZEROS_12 + [0, 0, 0, 0]);
    WholeEntryV6(packed, ZEROS_12 + [0, 0, 0, 1]);
    NumberOf16(packed);
    EntryV6(packed, [0xFC, 0, 0, 0], 7);
    EntryV6(packed, [0xFE, 0x80, 0, 0], 10);
    EntryV6(packed, [0xFF, 0, 0, 0], 8);
    Masks();
    EntryV4(packed[..4], 0xFC, 0, 7, 0x200_0000);
    EntryV4(packed[..4], 0xFE, 0x80, 10, 0x40_0000);
    EntryV4(packed[..4], 0xFF, 0, 8, 0x100_0000);
  }

  lemma SmallNumbers()
    ensures Number(ZEROS_12 + [0, 0, 0, 0]) == 0 && Number(ZEROS_12 + [0, 0, 0, 1]) == 1
  {
    NumberOfZeros(ZEROS_12 + [0, 0, 0, 0]);
    var one := ZEROS_12 + [0, 0, 0, 1];
    NumberOfZeros(one[..15]);
  }

  lemma ListV4(packed: Bytes)
    requires |packed| == 4 && RefusedV4(Number(packed))
    ensures exists j :: 0 <= j < |BLOCKED| && BLOCKED[j].family == Inet
                        && InPrefix(packed, BLOCKED[j].net, BLOCKED[j].bits)
  {
    hide InPrefix, Number;
    RangesV4(packed);
    assert BLOCKED[0].family == BLOCKED[1].family == BLOCKED[2].family == BLOCKED[3].family == Inet;
    assert BLOCKED[4].family == BLOCKED[5].family == BLOCKED[6].family == BLOCKED[7].family == Inet;
    assert BLOCKED[8].family == BLOCKED[9].family == BLOCKED[10].family == Inet;
  }

  lemma ListV6(packed: Bytes)
    requires |packed| == 16 && RefusedV6(Number(packed))
    ensures exists j :: 0 <= j < |BLOCKED| && BLOCKED[j].family == Inet6
                        && InPrefix(packed, BLOCKED[j].net, BLOCKED[j].bits)
  {
    hide InPrefix, Number;
    RangesV6(packed);
    Nat64Entry(packed);
    assert BLOCKED[11].family == BLOCKED[12].family == BLOCKED[13].family == Inet6;
    assert BLOCKED[14].family == BLOCKED[15].family == BLOCKED[16].family == Inet6;
  }

  /** Some entry of the list catches an address exactly when its number is in
      one of the ranges for its family. */
  lemma ListIsRanges(f: Family, packed: Bytes)
    requires |packed| == Length(f)
    ensures forall j :: 0 <= j < |BLOCKED| ==> |BLOCKED[j].net| == Length(BLOCKED[j].family)
                                               && BLOCKED[j].bits <= 8 * |BLOCKED[j].net|
    ensures (exists j :: 0 <= j < |BLOCKED| && Catches(BLOCKED[j], f, packed))
       <==> if f == Inet then RefusedV4(Number(packed)) else RefusedV6(Number(packed))
  {
    hide InPrefix, Number;
    BlockedFits();
    if f == Inet {
      RangesV4(packed);
      if RefusedV4(Number(packed)) { ListV4(packed); }
    } else {
      RangesV6(packed);
      Nat64Entry(packed);
      if RefusedV6(Number(packed)) { ListV6(packed); }
    }
    forall j | 0 <= j < |BLOCKED| && Catches(BLOCKED[j], f, packed)
      ensures if f == Inet then RefusedV4(Number(packed)) else RefusedV6(Number(packed))
    {
    }
  }

  // ---- the ranges, in dotted form ----

  /** What the IPv4 rule refuses, by the bytes of an address. */
  lemma RefusedDotted(a: Byte, b: Byte, c: Byte, d: Byte)
    ensures RefusedV4(Number([a, b, c, d])) <==>
            || a == 0 || a == 10 || a == 127 || a >= 224
            || (a == 100 && 64 <= b < 128)
            || (a == 169 && b == 254)
            || (a == 172 && 16 <= b < 32)
            || (a == 192 && b == 0 && c == 0)
            || (a == 192 && b == 168)
            || (a == 198 && (b == 18 || b == 19))
  {
    hide Number;
    NumberOf4([a, b, c, d]);
  }

  /** What the IPv6 rule refuses: :: and ::1, fc00::/7, fe80::/10, ff00::/8 and 64:ff9b::/96. */
  lemma RefusedByBytes(b: Bytes)
    requires |b| == 16
    ensures RefusedV6(Number(b)) <==>
            || (b[..12] == ZEROS_12 && b[12] == b[13] == b[14] == 0 && b[15] <= 1)
            || b[0] == 0xFC || b[0] == 0xFD
            || (b[0] == 0xFE && 0x80 <= b[1] < 0xC0)
            || b[0] == 0xFF
            || b[..12] == [0, 0x64, 0xFF, 0x9B, 0, 0, 0, 0, 0, 0, 0, 0]
  {
    hide Number;
    NumberOf16(b);
    NumberOf4(b[..4]);
    NumberOf4(b[12..]);
    LowBytes(b);
  }

  /** The last twelve bytes are below 2^32 when the first eight of them are zero. */
  lemma LowBytes(b: Bytes)
    requires |b| == 16
    ensures Number(b[4..]) < 0x1_0000_0000 <==> b[4..12] == [0, 0, 0, 0, 0, 0, 0, 0]
    ensures b[4..12] == [0, 0, 0, 0, 0, 0, 0, 0] ==> Number(b[4..]) == Number(b[12..])
    ensures b[..12] == b[..4] + b[4..12]
  {
    hide Number, Pow2;
    Weights();
    NumberAppend(b[4..12], b[12..]);
    assert b[4..12] + b[12..] == b[4..];
    NumberOf4(b[12..]);
    var zeros: Bytes := [0, 0, 0, 0, 0, 0, 0, 0];
    NumberOfZeros(zeros);
    if Number(b[4..12]) == 0 { NumberInjective(b[4..12], zeros); }
  }
}
