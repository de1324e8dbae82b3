/**
 * The segment trie of the HTTP router, as values.
 *
 * A Go `*node` is an index into an arena `seq<Node>`; index 0 is the root.
 * The functions below are the reference definitions of registration
 * (Insert, Register), matching (Walk, MatchOf) and path existence
 * (Reaches, PathExistsIn); the Router class executes them in place.
 */
module Trie {
  import opened Wrappers
  import opened GoStrings

  /** An opaque identity of a registered handler function. */
  type HandlerId = nat

  /** Path parameters bound by a match (Go `Params`). */
  type Params = map<string, string>

  /** One trie node: its registered segment text, literal children (searched in order),
      an optional parameter child, an optional catch-all child and a handler per method. */
  datatype Node = Node(
    segment: string,
    children: seq<nat>,
    paramChild: Option<nat>,
    catchAll: Option<nat>,
    handlers: map<string, HandlerId>)

  /** A freshly allocated node with no children and no handlers. */
  function Leaf(segment: string): Node
  {
    Node(segment, [], None, None, map[])
  }

  /** The root of a new router has segment "/". */
  const Root: Node := Leaf("/")

  predicate IsParam(seg: string)
  {
    |seg| > 0 && seg[0] == ':'
  }

  predicate IsCatchAll(seg: string)
  {
    |seg| > 0 && seg[0] == '*'
  }

  /** splitPath: "/" and "" give no segments; otherwise the text between the end
      slashes, split at every '/', so interior empty segments survive. */
  function SplitPath(p: string): (segs: seq<string>)
    ensures forall k :: 0 <= k < |segs| ==> '/' !in segs[k]
    ensures Join(segs) == TrimSlashes(p)
    ensures segs == [] <==> TrimSlashes(p) == ""
  {
    if p == "/" || p == "" then []
    else
      var t := TrimSlashes(p);
      if t == "" then [] else JoinSplit(t); Split(t)
  }

  /** Every link of a node points into an arena of the given size, and the
      methods it serves are stored upper-cased. */
  predicate LinksWithin(n: Node, size: nat)
  {
    && (forall c :: c in n.children ==> c < size)
    && (n.paramChild.Some? ==> n.paramChild.value < size)
    && (n.catchAll.Some? ==> n.catchAll.value < size)
    && (forall m :: m in n.handlers ==> ToUpper(m) == m)
  }

  /** The arena invariant: a root exists and no link dangles. */
  predicate WellFormed(nodes: seq<Node>)
  {
    |nodes| > 0 && forall k :: 0 <= k < |nodes| ==> LinksWithin(nodes[k], |nodes|)
  }

  /** The first literal child (in registration order) whose segment equals seg. */
  function FindLiteral(nodes: seq<Node>, children: seq<nat>, seg: string): (r: Option<nat>)
    requires forall c :: c in children ==> c < |nodes|
    ensures r.Some? ==> r.value in children && nodes[r.value].segment == seg
    ensures r.None? <==> forall c :: c in children ==> nodes[c].segment != seg
    decreases |children|
  {
    if |children| == 0 then None
    else
      assert children[0] in children;
      assert forall c :: c in children[1..] ==> c in children;
      if nodes[children[0]].segment == seg then Some(children[0])
    else FindLiteral(nodes, children[1..], seg)
  }

  /** b grows a: nodes keep their segment and their children list only grows at
      the end; parameter and catch-all children, once set, stay; no method loses its handler. */
  predicate NodeExtends(a: Node, b: Node)
  {
    && b.segment == a.segment
    && a.children <= b.children
    && (a.paramChild.Some? ==> b.paramChild == a.paramChild)
    && (a.catchAll.Some? ==> b.catchAll == a.catchAll)
    && a.handlers.Keys <= b.handlers.Keys
  }

  predicate Extends(a: seq<Node>, b: seq<Node>)
  {
    |a| <= |b| && forall k :: 0 <= k < |a| ==> NodeExtends(a[k], b[k])
  }

  lemma ExtendsTransitive(a: seq<Node>, b: seq<Node>, c: seq<Node>)
    requires Extends(a, b) && Extends(b, c)
    ensures Extends(a, c)
  {
    forall k | 0 <= k < |a| ensures NodeExtends(a[k], c[k]) {
      assert NodeExtends(a[k], b[k]) && NodeExtends(b[k], c[k]);
    }
  }

  /** Apart from method m, every node of b serves exactly the handlers it served in a,
      and the nodes b adds serve none. */
  predicate HandlersKeptExcept(a: seq<Node>, b: seq<Node>, m: string)
  {
    |a| <= |b| && forall k :: 0 <= k < |b| ==> b[k].handlers - {m} == (if k < |a| then a[k].handlers - {m} else map[])
  }

  lemma HandlersKeptTransitive(a: seq<Node>, b: seq<Node>, c: seq<Node>, m: string)
    requires HandlersKeptExcept(a, b, m) && HandlersKeptExcept(b, c, m)
    ensures HandlersKeptExcept(a, c, m)
  {
    forall k | 0 <= k < |c|
      ensures c[k].handlers - {m} == (if k < |a| then a[k].handlers - {m} else map[])
    {
      if k < |b| {
        assert c[k].handlers - {m} == b[k].handlers - {m};
      }
    }
  }

  /** Storing the handler of method m at node cur changes no other method's handler. */
  lemma HandlersKeptBySet(nodes: seq<Node>, cur: nat, m: string, h: HandlerId)
    requires cur < |nodes|
    ensures HandlersKeptExcept(nodes, nodes[cur := nodes[cur].(handlers := nodes[cur].handlers[m := h])], m)
  {
    var hs := nodes[cur].handlers;
    assert hs[m := h] - {m} == hs - {m};
  }

  /** A registration attempt: the arena afterwards and whether Handle returned normally. */
  datatype Registered = Registered(nodes: seq<Node>, ok: bool)

  /** An arena with node cur replaced and one new leaf appended. */
  function Attach(nodes: seq<Node>, cur: nat, updated: Node, seg: string): (r: seq<Node>)
    requires WellFormed(nodes) && cur < |nodes| && LinksWithin(updated, |nodes| + 1)
    requires NodeExtends(nodes[cur], updated)
    ensures WellFormed(r) && Extends(nodes, r) && |r| == |nodes| + 1
    ensures r[|nodes|] == Leaf(seg) && r[cur] == updated
    ensures forall k :: 0 <= k < |nodes| && k != cur ==> r[k] == nodes[k]
  {
    var r := nodes[cur := updated] + [Leaf(seg)];
    assert forall k :: 0 <= k < |nodes| ==> LinksWithin(nodes[k], |nodes| + 1);
    r
  }

  /** Attaching a leaf below a node whose handlers stay the same keeps every handler. */
  lemma HandlersKeptByAttach(nodes: seq<Node>, cur: nat, updated: Node, seg: string, m: string)
    requires WellFormed(nodes) && cur < |nodes| && LinksWithin(updated, |nodes| + 1)
    requires NodeExtends(nodes[cur], updated) && updated.handlers == nodes[cur].handlers
    ensures HandlersKeptExcept(nodes, Attach(nodes, cur, updated, seg), m)
  {
    var r := Attach(nodes, cur, updated, seg);
    assert r[|nodes|].handlers - {m} == map[];
  }

  /** The walk of Handle from node cur over segs[i..]: catch-all, then parameter,
      then literal segments, creating missing nodes; a catch-all that is not the
      last segment stops the walk with ok == false, keeping the nodes created so far. */
  function Insert(nodes: seq<Node>, cur: nat, segs: seq<string>, i: nat, verb: string, h: HandlerId): (r: Registered)
    requires WellFormed(nodes) && cur < |nodes| && i <= |segs|
    ensures WellFormed(r.nodes) && Extends(nodes, r.nodes)
    ensures HandlersKeptExcept(nodes, r.nodes, ToUpper(verb))
    ensures r.ok <==> forall k :: i <= k < |segs| - 1 ==> !IsCatchAll(segs[k])
    decreases |segs| - i
  {
    var n := nodes[cur];
    if i == |segs| then
      ToUpperIdempotent(verb);
      HandlersKeptBySet(nodes, cur, ToUpper(verb), h);
      Registered(nodes[cur := n.(handlers := n.handlers[ToUpper(verb) := h])], true)
    else
      var seg := segs[i];
      if IsCatchAll(seg) then
        if i != |segs| - 1 then Registered(nodes, false)
        else if n.catchAll.Some? then
          Insert(nodes, n.catchAll.value, segs, i + 1, verb, h)
        else
          var a := Attach(nodes, cur, n.(catchAll := Some(|nodes|)), seg);
          HandlersKeptByAttach(nodes, cur, n.(catchAll := Some(|nodes|)), seg, ToUpper(verb));
          var r := Insert(a, |nodes|, segs, i + 1, verb, h);
          ExtendsTransitive(nodes, a, r.nodes);
          HandlersKeptTransitive(nodes, a, r.nodes, ToUpper(verb));
          r
      else if IsParam(seg) then
        if n.paramChild.Some? then
          Insert(nodes, n.paramChild.value, segs, i + 1, verb, h)
        else
          var a := Attach(nodes, cur, n.(paramChild := Some(|nodes|)), seg);
          HandlersKeptByAttach(nodes, cur, n.(paramChild := Some(|nodes|)), seg, ToUpper(verb));
          var r := Insert(a, |nodes|, segs, i + 1, verb, h);
          ExtendsTransitive(nodes, a, r.nodes);
          HandlersKeptTransitive(nodes, a, r.nodes, ToUpper(verb));
          r
      else
        match FindLiteral(nodes, n.children, seg)
        case Some(c) => Insert(nodes, c, segs, i + 1, verb, h)
        case None =>
          var a := Attach(nodes, cur, n.(children := n.children + [|nodes|]), seg);
          HandlersKeptByAttach(nodes, cur, n.(children := n.children + [|nodes|]), seg, ToUpper(verb));
          var r := Insert(a, |nodes|, segs, i + 1, verb, h);
          ExtendsTransitive(nodes, a, r.nodes);
          HandlersKeptTransitive(nodes, a, r.nodes, ToUpper(verb));
          r
  }

  /** Handle(method, path, h): a path that is empty or does not start with '/'
      fails before touching the trie. */
  function Register(nodes: seq<Node>, verb: string, path: string, h: HandlerId): (r: Registered)
    requires WellFormed(nodes)
    ensures WellFormed(r.nodes) && Extends(nodes, r.nodes)
    ensures HandlersKeptExcept(nodes, r.nodes, ToUpper(verb))
    ensures r.ok <==> path != "" && path[0] == '/' && CatchAllOnlyLast(SplitPath(path))
    ensures (path == "" || path[0] != '/') ==> r.nodes == nodes
  {
    if path == "" || path[0] != '/' then Registered(nodes, false)
    else Insert(nodes, 0, SplitPath(path), 0, verb, h)
  }

  /** No catch-all segment before the last one. */
  predicate CatchAllOnlyLast(segs: seq<string>)
  {
    forall k :: 0 <= k < |segs| - 1 ==> !IsCatchAll(segs[k])
  }

  /** The result of match: a handler and its parameters, or (nil, nil). */
  datatype MatchResult = NoMatch | Matched(handler: HandlerId, params: Params)

  /** The handler lookup at the node where the walk ends. */
  function Lookup(n: Node, verb: string, params: Params): MatchResult
  {
    var m := ToUpper(verb);
    if m in n.handlers then Matched(n.handlers[m], params) else NoMatch
  }

  /** The walk of match from node cur over segs[i..]: a literal child first, else the
      parameter child (binding its name), else the catch-all child (binding the rest
      joined with '/', and stopping); no backtracking. */
  function Walk(nodes: seq<Node>, cur: nat, segs: seq<string>, i: nat, params: Params, verb: string): MatchResult
    requires WellFormed(nodes) && cur < |nodes| && i <= |segs|
    decreases |segs| - i
  {
    var n := nodes[cur];
    if i == |segs| then Lookup(n, verb, params)
    else
      var seg := segs[i];
      match FindLiteral(nodes, n.children, seg)
      case Some(c) => Walk(nodes, c, segs, i + 1, params, verb)
      case None =>
        if n.paramChild.Some? then
          var p := n.paramChild.value;
          Walk(nodes, p, segs, i + 1, params[TrimPrefix(nodes[p].segment, ":") := seg], verb)
        else if n.catchAll.Some? then
          var c := n.catchAll.value;
          Lookup(nodes[c], verb, params[TrimPrefix(nodes[c].segment, "*") := Join(segs[i..])])
        else NoMatch
  }

  /** match(method, path) on the whole trie, starting with empty Params. */
  function MatchOf(nodes: seq<Node>, verb: string, path: string): MatchResult
    requires WellFormed(nodes)
  {
    Walk(nodes, 0, SplitPath(path), 0, map[], verb)
  }

  /** The walk of pathExists: the same choices as Walk, ignoring the method; true
      when the node reached serves at least one method. */
  function Reaches(nodes: seq<Node>, cur: nat, segs: seq<string>, i: nat): bool
    requires WellFormed(nodes) && cur < |nodes| && i <= |segs|
    decreases |segs| - i
  {
    var n := nodes[cur];
    if i == |segs| then |n.handlers| > 0
    else
      match FindLiteral(nodes, n.children, segs[i])
      case Some(c) => Reaches(nodes, c, segs, i + 1)
      case None =>
        if n.paramChild.Some? then Reaches(nodes, n.paramChild.value, segs, i + 1)
        else if n.catchAll.Some? then |nodes[n.catchAll.value].handlers| > 0
        else false
  }

  /** pathExists(path) on the whole trie. */
  function PathExistsIn(nodes: seq<Node>, path: string): bool
    requires WellFormed(nodes)
  {
    Reaches(nodes, 0, SplitPath(path), 0)
  }
}
