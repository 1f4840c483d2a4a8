/** Regular expressions without alternatives, as the source writes its rules: a
    sequence of character classes, each with how often it may occur. */
module Patterns {
  import opened Wrappers

  /** A class of characters and its least and most occurrences, None for no limit. */
  datatype Piece = Piece(chars: char -> bool, least: nat, most: Option<nat>)

  predicate Fits(p: Piece, s: string) {
    p.least <= |s| && (p.most.Some? ==> |s| <= p.most.value) && forall i :: 0 <= i < |s| ==> p.chars(s[i])
  }

  /** The whole of s is made of the pieces, in order. */
  predicate Matches(ps: seq<Piece>, s: string) {
    if ps == [] then s == ""
    else exists n :: 0 <= n <= |s| && Fits(ps[0], s[..n]) && Matches(ps[1..], s[n..])
  }

  /** One character of a class. */
  function One(chars: char -> bool): Piece { Piece(chars, 1, Some(1)) }

  /** Perl's `$`: the end, or before a final newline. */
  const END: Piece := Piece(c => c == '\n', 0, Some(1))

  lemma MatchesOne(p: Piece, s: string)
    ensures Matches([p], s) <==> Fits(p, s)
  {
    if Fits(p, s) { assert s[..|s|] == s && s[|s|..] == ""; }
    if n :| 0 <= n <= |s| && Fits(p, s[..n]) && Matches([p][1..], s[n..]) { assert s[..n] == s; }
  }

  lemma MatchesHead(chars: char -> bool, ps: seq<Piece>, s: string)
    ensures Matches([One(chars)] + ps, s) <==> s != "" && chars(s[0]) && Matches(ps, s[1..])
  {
    var all := [One(chars)] + ps;
    assert all[1..] == ps;
    if s != "" && chars(s[0]) && Matches(ps, s[1..]) { assert Fits(all[0], s[..1]); }
    if n :| 0 <= n <= |s| && Fits(all[0], s[..n]) && Matches(all[1..], s[n..]) { assert n == 1 && s[..1][0] == s[0]; }
  }

  lemma {:induction false} MatchesTail(ps: seq<Piece>, p: Piece, s: string)
    ensures Matches(ps + [p], s) <==> exists n :: 0 <= n <= |s| && Matches(ps, s[..n]) && Fits(p, s[n..])
  {
    if ps == [] {
      assert ps + [p] == [p];
      MatchesOne(p, s);
      assert s[..0] == "" && s[0..] == s;
    } else {
      var all := ps + [p];
      assert all[0] == ps[0] && all[1..] == ps[1..] + [p];
      if n :| 0 <= n <= |s| && Fits(all[0], s[..n]) && Matches(all[1..], s[n..]) {
        MatchesTail(ps[1..], p, s[n..]);
        var m :| 0 <= m <= |s[n..]| && Matches(ps[1..], s[n..][..m]) && Fits(p, s[n..][m..]);
        assert s[..n + m][..n] == s[..n] && s[..n + m][n..] == s[n..][..m] && s[n + m..] == s[n..][m..];
      }
      if k :| 0 <= k <= |s| && Matches(ps, s[..k]) && Fits(p, s[k..]) {
        var n :| 0 <= n <= |s[..k]| && Fits(ps[0], s[..k][..n]) && Matches(ps[1..], s[..k][n..]);
        MatchesTail(ps[1..], p, s[n..]);
        assert s[..k][..n] == s[..n] && s[..k][n..] == s[n..][..k - n] && s[k..] == s[n..][k - n..];
      }
    }
  }

  /** With Perl's `$` at the end: s itself matches, or s before its final newline. */
  lemma MatchesEnd(ps: seq<Piece>, s: string)
    ensures Matches(ps + [END], s) <==>
            Matches(ps, s) || (s != "" && s[|s| - 1] == '\n' && Matches(ps, s[..|s| - 1]))
  {
    hide Matches, Fits;
    MatchesTail(ps, END, s);
    assert s[..|s|] == s && s[|s|..] == "";
    FitsEnd("");
    forall n | 0 <= n < |s|
      ensures Fits(END, s[n..]) <==> n == |s| - 1 && s[n] == '\n'
    {
      FitsEnd(s[n..]);
    }
  }

  lemma FitsEnd(s: string)
    ensures Fits(END, s) <==> s == "" || (|s| == 1 && s[0] == '\n')
  {}
}
