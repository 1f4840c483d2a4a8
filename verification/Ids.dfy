/** ids.FromHex: hexadecimal to base 62, by repeated division and a reversal in place. */
module Ids {
  import opened Wrappers
  import opened Arithmetic

  // ---- digits ----

  const NUMERALS := "0123456789"
  const CAPITALS := "ABCDEFGHIJKLMNOPQRSTUVWXYZ"
  const SMALL_LETTERS := "abcdefghijklmnopqrstuvwxyz"
  const DIGITS := NUMERALS + CAPITALS + SMALL_LETTERS

  /** A base-62 digit's value, 62 for any other character. */
  function Value(c: char): nat {
    if '0' <= c <= '9' then c as int - '0' as int
    else if 'A' <= c <= 'Z' then c as int - 'A' as int + 10
    else if 'a' <= c <= 'z' then c as int - 'a' as int + 36
    else 62
  }

  lemma DigitsAreInOrder(d: nat)
    requires d < 62
    ensures |DIGITS| == 62 && Value(DIGITS[d]) == d
  {
    hide NUMERALS, CAPITALS, SMALL_LETTERS, DIGITS;
    DigitsAre(d);
    if d < 10 { NumeralsInOrder(d); } else if d < 36 { CapitalsInOrder(d - 10); } else { SmallLettersInOrder(d - 36); }
  }

  lemma DigitsAre(d: nat)
    requires d < 62
    ensures |NUMERALS| == 10 && |CAPITALS| == 26 && |SMALL_LETTERS| == 26 && |DIGITS| == 62
    ensures DIGITS[d] == if d < 10 then NUMERALS[d] else if d < 36 then CAPITALS[d - 10] else SMALL_LETTERS[d - 36]
  {}

  lemma NumeralsInOrder(k: nat)
    requires k < 10
    ensures |NUMERALS| == 10 && NUMERALS[k] as int == '0' as int + k
  {}

  lemma CapitalsInOrder(k: nat)
    requires k < 26
    ensures |CAPITALS| == 26 && CAPITALS[k] as int == 'A' as int + k
  {}

  lemma SmallLettersInOrder(k: nat)
    requires k < 26
    ensures |SMALL_LETTERS| == 26 && SMALL_LETTERS[k] as int == 'a' as int + k
  {}

  predicate Base62(s: string) { forall k :: 0 <= k < |s| ==> Value(s[k]) < 62 }

  /** The number a base-62 string is, most significant digit first. */
  function Number(s: string): nat {
    if s == "" then 0 else Number(s[..|s| - 1]) * 62 + Value(s[|s| - 1])
  }

  function HexDigit(c: char): nat {
    if '0' <= c <= '9' then c as int - '0' as int
    else if 'a' <= c <= 'f' then c as int - 'a' as int + 10
    else if 'A' <= c <= 'F' then c as int - 'A' as int + 10
    else 16
  }

  predicate IsHex(s: string) { forall k :: 0 <= k < |s| ==> HexDigit(s[k]) < 16 }

  function HexNumber(s: string): nat {
    if s == "" then 0 else HexNumber(s[..|s| - 1]) * 16 + HexDigit(s[|s| - 1])
  }

  /** big.Int's SetString in base 16: digits after an optional sign. */
  function SetString(s: string): Option<int> {
    if s != "" && (s[0] == '+' || s[0] == '-') then
      var n: int := HexNumber(s[1..]);
      if s[1..] != "" && IsHex(s[1..]) then Some(if s[0] == '-' then -n else n) else None
    else if s != "" && IsHex(s) then Some(HexNumber(s)) else None
  }

  function TrimPrefix(s: string, prefix: string): string {
    if prefix <= s then s[|prefix|..] else s
  }

  /** The digits are those of the source, in its order. */
  lemma Alphabet()
    ensures DIGITS == "0123456789" + "ABCDEFGHIJKLMNOPQRSTUVWXYZ" + "abcdefghijklmnopqrstuvwxyz"
  {}

  /** A hexadecimal digit is its place in the alphabet, in either case, and nothing else is one. */
  lemma HexDigitsAre(c: char)
    ensures HexDigit(c) < 16 <==> c in "0123456789abcdefABCDEF"
    ensures forall d: nat :: d < 16 && (c == "0123456789abcdef"[d] || c == "0123456789ABCDEF"[d]) ==> HexDigit(c) == d
  {}

  /** Hexadecimal is a place notation: what stands before n digits weighs 16^n. */
  lemma {:induction false} HexPlaces(h: string, g: string)
    ensures HexNumber(h + g) == HexNumber(h) * Pow(16, |g|) + HexNumber(g)
    ensures |g| == 1 ==> HexNumber(g) == HexDigit(g[0])
  {
    if g == "" {
      assert h + g == h;
    } else {
      var front, last := g[..|g| - 1], g[|g| - 1];
      HexPlaces(h, front);
      assert (h + g)[..|h + g| - 1] == h + front;
      Regroup(HexNumber(h), Pow(16, |front|), 16);
      if |g| == 1 { assert HexNumber(front) == 0; }
    }
  }

  /** What SetString reads: hexadecimal digits, at least one, after an optional sign. */
  lemma SignedHex(h: string)
    ensures h != "" && IsHex(h) ==>
              var n: int := HexNumber(h);
              SetString(h) == SetString("+" + h) == Some(n) && SetString("-" + h) == Some(-n)
    ensures h == "" || !IsHex(h) ==> SetString("+" + h) == SetString("-" + h) == None
    ensures SetString(h).Some? ==>
              h != "" && (IsHex(h) || ((h[0] == '+' || h[0] == '-') && h[1..] != "" && IsHex(h[1..])))
  {
    Signed("+", h);
    Signed("-", h);
    if SetString(h).Some? { OnlyHex(h); }
    hide IsHex, HexNumber, SetString;
    if h != "" && IsHex(h) { Unsigned(h); }
  }

  lemma Signed(sign: string, h: string)
    requires sign == "+" || sign == "-"
    ensures SetString(sign + h) == if h == "" || !IsHex(h) then None
                                   else var n: int := HexNumber(h); Some(if sign == "-" then -n else n)
  {
    hide IsHex, HexNumber;
    assert (sign + h)[0] == sign[0] && (sign + h)[1..] == h;
  }

  lemma Unsigned(h: string)
    requires h != "" && IsHex(h)
    ensures var n: int := HexNumber(h); SetString(h) == Some(n)
  {
    NoSign(h);
    hide IsHex, HexNumber;
  }

  lemma OnlyHex(h: string)
    requires SetString(h).Some?
    ensures h != "" && (IsHex(h) || ((h[0] == '+' || h[0] == '-') && h[1..] != "" && IsHex(h[1..])))
  {
    hide IsHex, HexNumber;
  }

  lemma NoSign(h: string)
    requires h != ""
    ensures IsHex(h) ==> h[0] != '+' && h[0] != '-'
  {
    if IsHex(h) { assert HexDigit(h[0]) < 16; }
  }

  /** An optional 0x or 0X before the number changes nothing. */
  lemma PrefixedHex(h: string)
    requires h != "" && IsHex(h)
    ensures forall r ::
              && (Converts("0x" + h, r) <==> Converts(h, r))
              && (Converts("0X" + h, r) <==> Converts(h, r))
  {
    assert ("0x" + h)[2..] == h && ("0X" + h)[2..] == h;
    assert !("0x" <= "0X" + h) by { assert ("0X" + h)[1] == 'X'; }
    NoPrefix(h);
    if "0X" <= h { PrefixIsNotHex(h); }
  }

  // ---- the conversion ----

  /** What FromHex promises: "0" for zero and for what isn't a number, otherwise the
      number in base 62 without leading zeros. (A negative number gives "".) */
  ghost predicate Converts(h: string, r: string) {
    match SetString(TrimPrefix(TrimPrefix(h, "0x"), "0X"))
    case None => r == "0"
    case Some(n) =>
      if n == 0 then r == "0"
      else if n < 0 then r == ""
      else Base62(r) && r != "" && r[0] != '0' && Number(r) == n
  }

  /** Zero, and whatever isn't a number, becomes "0". */
  lemma ZeroConverts(h: string, r: string)
    requires SetString(TrimPrefix(TrimPrefix(h, "0x"), "0X")) in {None, Some(0)}
    ensures Converts(h, r) <==> r == "0"
  {}

  /** Any other number keeps its value, in base-62 digits without a leading zero; of
      a negative one nothing is left. */
  lemma NumberConverts(h: string, r: string, n: int)
    requires SetString(TrimPrefix(TrimPrefix(h, "0x"), "0X")) == Some(n) && n != 0
    ensures n > 0 ==>
              (Converts(h, r) <==>
               Number(r) == n && r != "" && r[0] != '0' && forall i :: 0 <= i < |r| ==> r[i] in DIGITS)
    ensures n < 0 ==> (Converts(h, r) <==> r == "")
  {
    forall c: char
      ensures Value(c) < 62 <==> c in DIGITS
    {
      DigitsAreInOrder(0);
      if Value(c) < 62 { DigitsAreInOrder(Value(c)); OneValue(c, DIGITS[Value(c)]); }
      if c in DIGITS { var d: nat :| d < |DIGITS| && DIGITS[d] == c; DigitsAreInOrder(d); }
    }
  }

  lemma OneValue(c: char, d: char)
    requires Value(c) == Value(d) < 62
    ensures c == d
  {}

  function Pow(b: nat, e: nat): nat { if e == 0 then 1 else b * Pow(b, e - 1) }

  /** The number of a base-62 string written least significant digit first. */
  function Backwards(s: string): nat {
    if s == "" then 0 else Value(s[0]) + 62 * Backwards(s[1..])
  }

  lemma {:induction false} BackwardsAppend(s: string, c: char)
    ensures Backwards(s + [c]) == Backwards(s) + Pow(62, |s|) * Value(c)
  {
    if s == "" {
      assert s + [c] == [c];
      assert [c][1..] == "";
    } else {
      BackwardsAppend(s[1..], c);
      assert (s + [c])[1..] == s[1..] + [c];
      Regroup(62, Pow(62, |s| - 1), Value(c));
    }
  }

  function Reversed(s: string): (r: string)
    ensures |r| == |s|
  {
    if s == "" then "" else Reversed(s[1..]) + [s[0]]
  }

  lemma {:induction false} ReversedNumber(s: string)
    ensures Number(Reversed(s)) == Backwards(s)
  {
    if s != "" { ReversedNumber(s[1..]); }
  }

  lemma {:induction false} ReversedDigit(s: string, k: nat)
    requires k < |s|
    ensures Reversed(s)[k] == s[|s| - 1 - k]
  {
    if k < |s| - 1 { ReversedDigit(s[1..], k); }
  }

  /** The swapping loop. */
  method ReverseInPlace(a: array<char>)
    modifies a
    ensures a[..] == Reversed(old(a[..]))
  {
    var i, j := 0, a.Length - 1;
    while i < j
      invariant 0 <= i && i + j == a.Length - 1 && i <= j + 1
      invariant forall k :: 0 <= k < a.Length && (k < i || j < k) ==> a[k] == old(a[a.Length - 1 - k])
      invariant forall k :: i <= k <= j ==> a[k] == old(a[k])
    {
      a[i], a[j] := a[j], a[i];
      i, j := i + 1, j - 1;
    }
    ghost var was := old(a[..]);
    forall k | 0 <= k < a.Length ensures a[k] == Reversed(was)[k] {
      ReversedDigit(was, k);
    }
  }

  method FromHex(hex: string) returns (r: string)
    ensures Converts(hex, r)
  {
    var h := TrimPrefix(TrimPrefix(hex, "0x"), "0X");
    var parsed := SetString(h);
    if parsed.None? || parsed.value == 0 { return "0"; }
    var n := parsed.value;
    var out := "";
    while n > 0
      invariant parsed.value > 0 ==> n >= 0 && parsed.value == n * Pow(62, |out|) + Backwards(out)
      invariant parsed.value < 0 ==> n == parsed.value && out == ""
      invariant Base62(out)
      invariant n == 0 ==> out != "" && out[|out| - 1] != '0'
      decreases n
    {
      var mod := n % 62;
      DigitsAreInOrder(mod);
      BackwardsAppend(out, DIGITS[mod]);
      DivideStep(n, |out|);
      n, out := n / 62, out + [DIGITS[mod]];
    }
    var a := new char[|out|](k requires 0 <= k < |out| => out[k]);
    assert a[..] == out;
    ReverseInPlace(a);
    r := a[..];
    ReversedNumber(out);
    forall k | 0 <= k < |r| ensures Value(r[k]) < 62 { ReversedDigit(out, k); }
    if r != "" { ReversedDigit(out, 0); }
  }

  lemma DivideStep(n: nat, e: nat)
    ensures n * Pow(62, e) == n / 62 * Pow(62, e + 1) + Pow(62, e) * (n % 62)
  {
    var p := Pow(62, e);
    calc {
      n * p;
      (n / 62 * 62 + n % 62) * p;
      n / 62 * 62 * p + n % 62 * p;
      n / 62 * (62 * p) + p * (n % 62);
    }
  }

  // ---- what the conversion means ----

  lemma {:induction false} NumberBounds(s: string)
    requires Base62(s)
    ensures Number(s) < Pow(62, |s|)
    ensures s != "" && s[0] != '0' ==> Number(s) >= Pow(62, |s| - 1)
  {
    if |s| == 1 {
      assert s[..0] == "";
      assert Pow(62, 1) == 62;
    } else if |s| > 1 {
      NumberBounds(s[..|s| - 1]);
      assert Pow(62, |s|) == 62 * Pow(62, |s| - 1);
    }
  }

  lemma {:induction false} PowGrows(b: nat, d: nat, e: nat)
    requires b >= 1 && d <= e
    ensures Pow(b, d) <= Pow(b, e)
  {
    if d < e {
      PowGrows(b, d, e - 1);
      assert b * Pow(b, e - 1) >= 1 * Pow(b, e - 1);
    }
  }

  /** A number has one base-62 form without leading zeros. */
  lemma {:induction false} OneForm(s: string, t: string)
    requires Base62(s) && Base62(t) && s != "" && t != "" && s[0] != '0' && t[0] != '0'
    requires Number(s) == Number(t)
    ensures s == t
    decreases |s|
  {
    NumberBounds(s);
    NumberBounds(t);
    if |s| < |t| { PowGrows(62, |s|, |t| - 1); }
    if |t| < |s| { PowGrows(62, |t|, |s| - 1); }
    SameNumber(s, t);
  }

  lemma SameParts(a: int, x: int, b: int, y: int)
    requires 0 <= x < 62 && 0 <= y < 62 && a * 62 + x == b * 62 + y
    ensures a == b && x == y
  {}

  lemma {:induction false} SameNumber(s: string, t: string)
    requires Base62(s) && Base62(t) && |s| == |t| && Number(s) == Number(t)
    ensures s == t
  {
    if s != "" {
      var a, b, c, d := s[..|s| - 1], t[..|t| - 1], s[|s| - 1], t[|t| - 1];
      SameParts(Number(a), Value(c), Number(b), Value(d));
      SameNumber(a, b);
      assert c == d;
      assert s == a + [c] && t == b + [d];
    }
  }

  /** Two strings of hex digits get the same id exactly when they are the same
      number, that is when they differ in leading zeros and letter case only. */
  lemma SameIdIffSameNumber(h: string, g: string, r: string, q: string)
    requires IsHex(h) && IsHex(g) && h != "" && g != ""
    requires Converts(h, r) && Converts(g, q)
    ensures r == q <==> HexNumber(h) == HexNumber(g)
  {
    NoPrefix(h);
    NoPrefix(g);
    if HexNumber(h) == HexNumber(g) && HexNumber(h) > 0 { OneForm(r, q); }
  }

  lemma NoPrefix(h: string)
    requires IsHex(h)
    ensures TrimPrefix(TrimPrefix(h, "0x"), "0X") == h
    ensures h != "" ==> SetString(h) == Some(HexNumber(h))
  {
    if "0x" <= h || "0X" <= h { PrefixIsNotHex(h); }
  }

  lemma PrefixIsNotHex(h: string)
    requires "0x" <= h || "0X" <= h
    ensures !IsHex(h)
  {
    assert h[1] == "0x"[1] || h[1] == "0X"[1];
  }

  lemma {:induction false} HexBound(h: string)
    requires IsHex(h)
    ensures HexNumber(h) < Pow(16, |h|)
  {
    if h != "" { HexBound(h[..|h| - 1]); }
  }

  /** A 128-bit id is at most 22 characters, which the 24-character columns hold. */
  lemma IdsAreShort(h: string, r: string)
    requires IsHex(h) && h != "" && |h| <= 32 && Converts(h, r)
    ensures 1 <= |r| <= 22
  {
    NoPrefix(h);
    HexBound(h);
    PowGrows(16, |h|, 32);
    HexFits();
    if HexNumber(h) > 0 && |r| > 22 {
      NumberBounds(r);
      PowGrows(62, 22, |r| - 1);
    }
  }

  lemma {:induction false} PowAdd(b: nat, d: nat, e: nat)
    ensures Pow(b, d + e) == Pow(b, d) * Pow(b, e)
  {
    if d > 0 {
      PowAdd(b, d - 1, e);
      Regroup(b, Pow(b, d - 1), Pow(b, e));
    }
  }

  lemma HexFits()
    ensures Pow(16, 32) < Pow(62, 22)
  {
    PowAdd(16, 4, 4);
    PowAdd(16, 8, 8);
    PowAdd(16, 16, 16);
    assert Pow(16, 4) == 65536;
    PowAdd(62, 2, 3);
    PowAdd(62, 5, 6);
    PowAdd(62, 3, 3);
    PowAdd(62, 11, 11);
    assert Pow(62, 2) == 3844 && Pow(62, 3) == 238328;
    assert Pow(62, 11) == 52036560683837093888;
  }
}
