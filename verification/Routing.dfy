/** liercd.Client: which instance a request goes to. */
module Routing {
  import opened Wrappers
  import MoveProtocol

  type Instance = MoveProtocol.Instance

  /** The connection id that starts a path: everything before the first slash. */
  function IdOf(path: string): (id: string)
    ensures id <= path && '/' !in id
    ensures id == path || path[|id|] == '/'
  {
    if path == "" || path[0] == '/' then "" else [path[0]] + IdOf(path[1..])
  }

  /** The path without its leading slashes. */
  function Trimmed(path: string): string {
    if path != "" && path[0] == '/' then Trimmed(path[1..]) else path
  }

  method TrimSlash(path: string) returns (p: string)
    ensures p == Trimmed(path)
  {
    p := path;
    while |p| > 0 && p[0] == '/'
      invariant Trimmed(p) == Trimmed(path)
      decreases |p|
    {
      p := p[1..];
    }
  }

  /** Client.base, given the instance column of every connection (Err for a
      database error). A path without an id, and a client without routing, go to main. */
  function Base(path: string, routed: bool, hasNext: bool, instanceOf: string -> Result<string, ()>): Option<Instance> {
    if !routed || IdOf(path) == "" then Some(MoveProtocol.Main)
    else match instanceOf(IdOf(path))
         case Err(_) => None
         case Ok(column) => MoveProtocol.Route(column, hasNext)
  }

  /** Where Do sends a request, None when it fails before sending. */
  method Destination(path: string, routed: bool, hasNext: bool, instanceOf: string -> Result<string, ()>)
    returns (to: Option<Instance>)
    ensures to == Base(Trimmed(path), routed, hasNext, instanceOf)
  {
    var p := TrimSlash(path);
    to := Base(p, routed, hasNext, instanceOf);
  }

  function Slashes(n: nat): string { seq(n, i => '/') }

  lemma {:induction false} TrimmedSlashes(n: nat, rest: string)
    requires rest == "" || rest[0] != '/'
    ensures Trimmed(Slashes(n) + rest) == rest
  {
    if n == 0 {
      assert Slashes(0) + rest == rest;
    } else {
      assert (Slashes(n) + rest)[1..] == Slashes(n - 1) + rest;
      TrimmedSlashes(n - 1, rest);
    }
  }

  lemma {:induction false} IdOfPath(id: string, rest: string)
    requires '/' !in id && (rest == "" || rest[0] == '/')
    ensures IdOf(id + rest) == id
  {
    if id == "" {
      assert id + rest == rest;
    } else {
      assert (id + rest)[1..] == id[1..] + rest;
      IdOfPath(id[1..], rest);
      assert [id[0]] + id[1..] == id;
    }
  }

  /** A client without routing, and a path without an id, go to main. */
  lemma OtherwiseToMain(path: string, routed: bool, hasNext: bool, instanceOf: string -> Result<string, ()>)
    requires !routed || path == "" || path[0] == '/'
    ensures Base(path, routed, hasNext, instanceOf) == Some(MoveProtocol.Main)
  {}

  /** However many slashes a path starts with, a call for a connection goes to
      the instance its column names and to no other, or fails: to main exactly
      for an empty column, to next exactly for "next" with a host configured. */
  lemma RoutedByColumn(n: nat, id: string, verb: string, hasNext: bool, instanceOf: string -> Result<string, ()>)
    requires id != "" && '/' !in id
    ensures var to := Base(Trimmed(Slashes(n) + id + "/" + verb), true, hasNext, instanceOf);
            && (to == Some(MoveProtocol.Main) <==> instanceOf(id) == Ok(""))
            && (to == Some(MoveProtocol.Next) <==> instanceOf(id) == Ok("next") && hasNext)
  {
    assert Slashes(n) + id + "/" + verb == Slashes(n) + (id + ("/" + verb));
    TrimmedSlashes(n, id + ("/" + verb));
    IdOfPath(id, "/" + verb);
  }
}
