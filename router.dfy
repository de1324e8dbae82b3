/**
 * The router object: the trie arena, the middleware list, registration,
 * matching, path existence and dispatch.
 */
module Router {
  import opened Wrappers
  import opened GoStrings
  import opened Trie
  import TrieFacts

  /** An opaque identity of a registered middleware. */
  type MiddlewareId = nat

  /** What running a wrapped handler does, as a trace: each middleware runs its code
      before calling next (Enter), then next, then its code after next returns (Exit). */
  datatype Event = Enter(middleware: MiddlewareId) | Run(handler: HandlerId) | Exit(middleware: MiddlewareId)

  /** The outcome of ServeHTTP. */
  datatype Outcome = Handled(trace: seq<Event>, params: Params) | NotFound | MethodNotAllowed

  /** The trace of handler h wrapped by mws, mws[0] outermost. */
  function Chain(mws: seq<MiddlewareId>, h: HandlerId): seq<Event>
    decreases |mws|
  {
    if mws == [] then [Run(h)] else [Enter(mws[0])] + Chain(mws[1..], h) + [Exit(mws[0])]
  }

  /** The wrapped handler enters the middlewares in registration order, runs the handler,
      and leaves them in reverse order. */
  lemma {:induction false} ChainOrder(mws: seq<MiddlewareId>, h: HandlerId)
    ensures |Chain(mws, h)| == 2 * |mws| + 1
    ensures forall k :: 0 <= k < |mws| ==> Chain(mws, h)[k] == Enter(mws[k])
    ensures Chain(mws, h)[|mws|] == Run(h)
    ensures forall k :: |mws| < k <= 2 * |mws| ==> Chain(mws, h)[k] == Exit(mws[2 * |mws| - k])
    decreases |mws|
  {
    if mws != [] {
      ChainOrder(mws[1..], h);
      var inner := Chain(mws[1..], h);
      var c := Chain(mws, h);
      assert c == [Enter(mws[0])] + inner + [Exit(mws[0])];
      forall k | 0 <= k < |mws| ensures c[k] == Enter(mws[k]) {
        if k > 0 { assert c[k] == inner[k - 1]; }
      }
      forall k | |mws| < k <= 2 * |mws| ensures c[k] == Exit(mws[2 * |mws| - k]) {
        if k < 2 * |mws| { assert c[k] == inner[k - 1]; }
      }
    }
  }

  /** The dispatch decision of ServeHTTP: the wrapped handler when match succeeds,
      otherwise 405 when the path exists for some method and 404 when it does not. */
  function Dispatch(nodes: seq<Node>, mws: seq<MiddlewareId>, verb: string, path: string): Outcome
    requires WellFormed(nodes)
  {
    match MatchOf(nodes, verb, path)
    case Matched(h, params) => Handled(Chain(mws, h), params)
    case NoMatch => if PathExistsIn(nodes, path) then MethodNotAllowed else NotFound
  }

  /** 404 exactly when no method matches the path, 405 exactly when the path is matched for
      some other method but not for this one, and a handler runs exactly when match succeeds. */
  lemma DispatchOutcomes(nodes: seq<Node>, mws: seq<MiddlewareId>, verb: string, path: string)
    requires WellFormed(nodes)
    ensures Dispatch(nodes, mws, verb, path) == NotFound <==> forall m :: MatchOf(nodes, m, path) == NoMatch
    ensures Dispatch(nodes, mws, verb, path) == MethodNotAllowed
            <==> MatchOf(nodes, verb, path) == NoMatch && exists m :: MatchOf(nodes, m, path).Matched?
    ensures Dispatch(nodes, mws, verb, path).Handled? <==> MatchOf(nodes, verb, path).Matched?
  {
    TrieFacts.PathExistsIffSomeMethodMatches(nodes, path);
  }

  class Router {
    /** The trie; nodes[0] is the root. */
    var nodes: seq<Node>
    /** Middlewares in the order of Use. */
    var middlewares: seq<MiddlewareId>

    ghost predicate Valid()
      reads this
    {
      WellFormed(nodes)
    }

    /** New: a root "/" and no middleware. */
    constructor ()
      ensures Valid() && nodes == [Root] && middlewares == []
    {
      nodes := [Root];
      middlewares := [];
    }

    /** Use appends a middleware. */
    method Use(m: MiddlewareId)
      requires Valid()
      modifies this
      ensures Valid() && middlewares == old(middlewares) + [m] && nodes == old(nodes)
    {
      middlewares := middlewares + [m];
    }

    /** The static-child search: the first child whose segment equals seg. */
    method FindChild(children: seq<nat>, seg: string) returns (r: Option<nat>)
      requires Valid() && forall c :: c in children ==> c < |nodes|
      ensures r == FindLiteral(nodes, children, seg)
    {
      var j := 0;
      while j < |children|
        invariant 0 <= j <= |children|
        invariant forall c :: c in children[j..] ==> c in children
        invariant FindLiteral(nodes, children, seg) == FindLiteral(nodes, children[j..], seg)
      {
        assert children[j] in children;
        assert children[j..][1..] == children[j + 1..];
        if nodes[children[j]].segment == seg {
          return Some(children[j]);
        }
        j := j + 1;
      }
      return None;
    }

    /** Handle(method, path, h); ok == false where the Go code panics. */
    method Handle(verb: string, path: string, h: HandlerId) returns (ok: bool)
      requires Valid()
      modifies this
      ensures Valid() && middlewares == old(middlewares)
      ensures Registered(nodes, ok) == Register(old(nodes), verb, path, h)
    {
      if path == "" || path[0] != '/' {
        return false;
      }
      var segments := SplitPath(path);
      var cur: nat := 0;
      var i := 0;
      while i < |segments|
        invariant 0 <= i <= |segments| && WellFormed(nodes) && cur < |nodes|
        invariant Insert(nodes, cur, segments, i, verb, h) == Register(old(nodes), verb, path, h)
        invariant middlewares == old(middlewares)
      {
        var seg := segments[i];
        var n := nodes[cur];
        assert LinksWithin(n, |nodes|);
        var next: nat;
        if IsCatchAll(seg) {
          if i != |segments| - 1 {
            return false;
          }
          if n.catchAll.None? {
            next := |nodes|;
            nodes := Attach(nodes, cur, n.(catchAll := Some(next)), seg);
          } else {
            next := n.catchAll.value;
          }
        } else if IsParam(seg) {
          if n.paramChild.None? {
            next := |nodes|;
            nodes := Attach(nodes, cur, n.(paramChild := Some(next)), seg);
          } else {
            next := n.paramChild.value;
          }
        } else {
          var found := FindChild(n.children, seg);
          if found.None? {
            next := |nodes|;
            nodes := Attach(nodes, cur, n.(children := n.children + [next]), seg);
          } else {
            next := found.value;
          }
        }
        cur := next;
        i := i + 1;
      }
      var n := nodes[cur];
      ToUpperIdempotent(verb);
      nodes := nodes[cur := n.(handlers := n.handlers[ToUpper(verb) := h])];
      ok := true;
    }

    method GET(path: string, h: HandlerId) returns (ok: bool)
      requires Valid()
      modifies this
      ensures Valid() && middlewares == old(middlewares)
      ensures Registered(nodes, ok) == Register(old(nodes), "GET", path, h)
    {
      ok := Handle("GET", path, h);
    }

    method POST(path: string, h: HandlerId) returns (ok: bool)
      requires Valid()
      modifies this
      ensures Valid() && middlewares == old(middlewares)
      ensures Registered(nodes, ok) == Register(old(nodes), "POST", path, h)
    {
      ok := Handle("POST", path, h);
    }

    /** match(method, path). */
    method Match(verb: string, path: string) returns (r: MatchResult)
      requires Valid()
      ensures r == MatchOf(nodes, verb, path)
    {
      var segments := SplitPath(path);
      var cur: nat := 0;
      var params: Params := map[];
      var i := 0;
      while i < |segments|
        invariant 0 <= i <= |segments| && cur < |nodes|
        invariant Walk(nodes, cur, segments, i, params, verb) == MatchOf(nodes, verb, path)
      {
        var seg := segments[i];
        var n := nodes[cur];
        assert LinksWithin(n, |nodes|);
        var matched := FindChild(n.children, seg);
        if matched.Some? {
          cur := matched.value;
          i := i + 1;
          continue;
        }
        if n.paramChild.Some? {
          var p := n.paramChild.value;
          params := params[TrimPrefix(nodes[p].segment, ":") := seg];
          cur := p;
          i := i + 1;
          continue;
        }
        if n.catchAll.Some? {
          var c := n.catchAll.value;
          params := params[TrimPrefix(nodes[c].segment, "*") := Join(segments[i..])];
          cur := c;
          return Lookup(nodes[cur], verb, params);
        }
        return NoMatch;
      }
      var m := ToUpper(verb);
      if m in nodes[cur].handlers {
        return Matched(nodes[cur].handlers[m], params);
      }
      return NoMatch;
    }

    /** pathExists(path). */
    method PathExists(path: string) returns (b: bool)
      requires Valid()
      ensures b == PathExistsIn(nodes, path)
    {
      var segments := SplitPath(path);
      var cur: nat := 0;
      var i := 0;
      while i < |segments|
        invariant 0 <= i <= |segments| && cur < |nodes|
        invariant Reaches(nodes, cur, segments, i) == PathExistsIn(nodes, path)
      {
        var n := nodes[cur];
        assert LinksWithin(n, |nodes|);
        var matched := FindChild(n.children, segments[i]);
        if matched.Some? {
          cur := matched.value;
          i := i + 1;
          continue;
        }
        if n.paramChild.Some? {
          cur := n.paramChild.value;
          i := i + 1;
          continue;
        }
        if n.catchAll.Some? {
          cur := n.catchAll.value;
          return |nodes[cur].handlers| > 0;
        }
        return false;
      }
      return |nodes[cur].handlers| > 0;
    }

    /** ServeHTTP: 405 or 404 when match fails, otherwise the handler wrapped from the
        last middleware to the first. */
    method ServeHTTP(verb: string, path: string) returns (o: Outcome)
      requires Valid()
      ensures o == Dispatch(nodes, middlewares, verb, path)
    {
      var r := Match(verb, path);
      if r.NoMatch? {
        var found := PathExists(path);
        if found {
          return MethodNotAllowed;
        }
        return NotFound;
      }
      var final := [Run(r.handler)];
      var i := |middlewares|;
      while i > 0
        invariant 0 <= i <= |middlewares|
        invariant final == Chain(middlewares[i..], r.handler)
      {
        i := i - 1;
        assert middlewares[i..][1..] == middlewares[i + 1..];
        final := [Enter(middlewares[i])] + final + [Exit(middlewares[i])];
      }
      o := Handled(final, r.params);
    }
  }
}
