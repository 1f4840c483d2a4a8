/** DB.LatestMessageID: a user's newest log row from two index probes. */
module LogTable {
  import opened Wrappers

  datatype Row = Row(id: int, user: string, highlight: bool)

  datatype Which = Highlighted | NotHighlighted | All

  predicate Selects(w: Which, u: string, r: Row) {
    r.user == u && match w case Highlighted => r.highlight case NotHighlighted => !r.highlight case All => true
  }

  /** SELECT max(id) over the rows selected; None stands for NULL. */
  function MaxId(rows: seq<Row>, w: Which, u: string): Option<int> {
    if rows == [] then None
    else
      var last, rest := rows[|rows| - 1], MaxId(rows[..|rows| - 1], w, u);
      if !Selects(w, u, last) || (rest.Some? && rest.value >= last.id) then rest else Some(last.id)
  }

  function Coalesce(v: Option<int>): int { if v.None? then 0 else v.value }

  function Greatest(a: int, b: int): int { if a < b then b else a }

  function LatestMessageID(rows: seq<Row>, u: string): int {
    Greatest(Coalesce(MaxId(rows, Highlighted, u)), Coalesce(MaxId(rows, NotHighlighted, u)))
  }

  /** With ids from a serial column, the two probes give the plain max(id) of the user. */
  lemma {:induction false} ProbesCoverUser(rows: seq<Row>, u: string)
    requires forall k :: 0 <= k < |rows| ==> rows[k].id > 0
    ensures LatestMessageID(rows, u) == Coalesce(MaxId(rows, All, u))
    ensures forall w :: MaxId(rows, w, u).Some? ==> MaxId(rows, w, u).value > 0
    ensures MaxId(rows, All, u) == match (MaxId(rows, Highlighted, u), MaxId(rows, NotHighlighted, u))
                                   case (None, b) => b
                                   case (a, None) => a
                                   case (Some(a), Some(b)) => Some(Greatest(a, b))
  {
    if rows != [] { ProbesCoverUser(rows[..|rows| - 1], u); }
  }

  /** The two probes find a bound on every row of the user, which is one of their
      ids, or 0 when none is positive: ids come from a serial column, so that is
      when they have no rows. */
  lemma {:induction false} LatestIsMaximum(rows: seq<Row>, u: string)
    requires forall k :: 0 <= k < |rows| ==> rows[k].id > 0
    ensures var m := LatestMessageID(rows, u);
            && (forall k :: 0 <= k < |rows| && rows[k].user == u ==> rows[k].id <= m)
            && (m == 0 <==> forall k :: 0 <= k < |rows| ==> rows[k].user != u)
            && (m == 0 || exists k :: 0 <= k < |rows| && rows[k].user == u && rows[k].id == m)
  {
    if rows != [] {
      var rest := rows[..|rows| - 1];
      LatestIsMaximum(rest, u);
      ProbesCoverUser(rows, u);
      ProbesCoverUser(rest, u);
      var m := LatestMessageID(rows, u);
      if m == LatestMessageID(rest, u) && m != 0 {
        var k :| 0 <= k < |rest| && rest[k].user == u && rest[k].id == m;
        assert rows[k].id == m;
      }
      assert rows[|rows| - 1].user == u ==> m != 0;
      assert forall k :: 0 <= k < |rest| ==> rows[k] == rest[k];
    }
  }
}
