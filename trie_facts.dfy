/** Properties of the router trie's reference definitions. */
module TrieFacts {
  import opened Wrappers
  import opened GoStrings
  import opened Trie

  /** A walk of match that finds a handler also ends, in pathExists, on a node with handlers. */
  lemma {:induction false} WalkImpliesReaches(nodes: seq<Node>, cur: nat, segs: seq<string>, i: nat, params: Params, verb: string)
    requires WellFormed(nodes) && cur < |nodes| && i <= |segs|
    requires Walk(nodes, cur, segs, i, params, verb).Matched?
    ensures Reaches(nodes, cur, segs, i)
    decreases |segs| - i
  {
    var n := nodes[cur];
    if i < |segs| {
      match FindLiteral(nodes, n.children, segs[i])
      case Some(c) => WalkImpliesReaches(nodes, c, segs, i + 1, params, verb);
      case None =>
        if n.paramChild.Some? {
          var p := n.paramChild.value;
          WalkImpliesReaches(nodes, p, segs, i + 1, params[TrimPrefix(nodes[p].segment, ":") := segs[i]], verb);
        }
    }
  }

  /** Where pathExists succeeds, some method (one the node serves) makes match succeed,
      whatever parameters were bound before. */
  lemma {:induction false} ReachesGivesMethod(nodes: seq<Node>, cur: nat, segs: seq<string>, i: nat, params: Params)
    returns (verb: string)
    requires WellFormed(nodes) && cur < |nodes| && i <= |segs|
    requires Reaches(nodes, cur, segs, i)
    ensures Walk(nodes, cur, segs, i, params, verb).Matched?
    decreases |segs| - i
  {
    var n := nodes[cur];
    if i == |segs| {
      verb :| verb in n.handlers;
      assert LinksWithin(n, |nodes|);
    } else {
      match FindLiteral(nodes, n.children, segs[i])
      case Some(c) => verb := ReachesGivesMethod(nodes, c, segs, i + 1, params);
      case None =>
        if n.paramChild.Some? {
          var p := n.paramChild.value;
          verb := ReachesGivesMethod(nodes, p, segs, i + 1, params[TrimPrefix(nodes[p].segment, ":") := segs[i]]);
        } else {
          var c := n.catchAll.value;
          verb :| verb in nodes[c].handlers;
          assert LinksWithin(nodes[c], |nodes|);
        }
    }
  }

  /** pathExists(path) holds exactly when match(m, path) finds a handler for some method m. */
  lemma PathExistsIffSomeMethodMatches(nodes: seq<Node>, path: string)
    requires WellFormed(nodes)
    ensures PathExistsIn(nodes, path) <==> exists verb :: MatchOf(nodes, verb, path).Matched?
  {
    if PathExistsIn(nodes, path) {
      var verb := ReachesGivesMethod(nodes, 0, SplitPath(path), 0, map[]);
      assert MatchOf(nodes, verb, path).Matched?;
    }
    forall verb | MatchOf(nodes, verb, path).Matched? ensures PathExistsIn(nodes, path) {
      WalkImpliesReaches(nodes, 0, SplitPath(path), 0, map[], verb);
    }
  }

  /** A literal child found before the trie grew is still the one found afterwards. */
  lemma {:induction false} FindLiteralExtends(a: seq<Node>, b: seq<Node>, ch: seq<nat>, ch': seq<nat>, seg: string, c: nat)
    requires Extends(a, b) && ch <= ch'
    requires forall x :: x in ch ==> x < |a|
    requires forall x :: x in ch' ==> x < |b|
    requires FindLiteral(a, ch, seg) == Some(c)
    ensures FindLiteral(b, ch', seg) == Some(c)
    decreases |ch|
  {
    assert ch[0] in ch && ch'[0] == ch[0];
    assert NodeExtends(a[ch[0]], b[ch[0]]);
    if a[ch[0]].segment != seg {
      assert forall x :: x in ch[1..] ==> x in ch;
      assert forall x :: x in ch'[1..] ==> x in ch';
      FindLiteralExtends(a, b, ch[1..], ch'[1..], seg, c);
    }
  }

  /** A node appended after an unsuccessful search is the one the search finds next time. */
  lemma {:induction false} FindLiteralAppended(a: seq<Node>, b: seq<Node>, ch: seq<nat>, seg: string, n: nat)
    requires Extends(a, b) && n < |b| && b[n].segment == seg
    requires forall x :: x in ch ==> x < |a|
    requires FindLiteral(a, ch, seg) == None
    ensures FindLiteral(b, ch + [n], seg) == Some(n)
    decreases |ch|
  {
    if |ch| > 0 {
      assert ch[0] in ch && NodeExtends(a[ch[0]], b[ch[0]]);
      assert forall x :: x in ch[1..] ==> x in ch;
      FindLiteralAppended(a, b, ch[1..], seg, n);
      assert (ch + [n])[1..] == ch[1..] + [n];
    }
  }

  /** No segment is a parameter or a catch-all. */
  predicate LiteralOnly(segs: seq<string>)
  {
    forall k :: 0 <= k < |segs| ==> !IsParam(segs[k]) && !IsCatchAll(segs[k])
  }

  /** Registering a literal-only route from node cur, on any trie, makes the walk of the same
      segments from cur end at the new handler, binding nothing. */
  lemma {:induction false} InsertThenWalkLiteral(nodes: seq<Node>, cur: nat, segs: seq<string>, i: nat,
                                                  verb: string, verb': string, h: HandlerId, params: Params)
    requires WellFormed(nodes) && cur < |nodes| && i <= |segs|
    requires forall k :: i <= k < |segs| ==> !IsParam(segs[k]) && !IsCatchAll(segs[k])
    requires ToUpper(verb') == ToUpper(verb)
    ensures Insert(nodes, cur, segs, i, verb, h).ok
    ensures Walk(Insert(nodes, cur, segs, i, verb, h).nodes, cur, segs, i, params, verb') == Matched(h, params)
    decreases |segs| - i
  {
    if i < |segs| {
      var n := nodes[cur];
      var seg := segs[i];
      match FindLiteral(nodes, n.children, seg)
      case Some(c) =>
        InsertThenWalkLiteral(nodes, c, segs, i + 1, verb, verb', h, params);
        OldLiteralThenWalk(nodes, cur, segs, i, verb, verb', h, params, c);
      case None =>
        var a := Attach(nodes, cur, n.(children := n.children + [|nodes|]), seg);
        InsertThenWalkLiteral(a, |nodes|, segs, i + 1, verb, verb', h, params);
        NewLiteralThenWalk(nodes, cur, segs, i, verb, verb', h, params);
    }
  }

  /** The segment already has a literal child c: registration and the walk both go on from c. */
  lemma OldLiteralThenWalk(nodes: seq<Node>, cur: nat, segs: seq<string>, i: nat,
                           verb: string, verb': string, h: HandlerId, params: Params, c: nat)
    requires WellFormed(nodes) && cur < |nodes| && i < |segs|
    requires !IsParam(segs[i]) && !IsCatchAll(segs[i])
    requires FindLiteral(nodes, nodes[cur].children, segs[i]) == Some(c)
    requires Insert(nodes, c, segs, i + 1, verb, h).ok
    requires Walk(Insert(nodes, c, segs, i + 1, verb, h).nodes, c, segs, i + 1, params, verb') == Matched(h, params)
    ensures Insert(nodes, cur, segs, i, verb, h).ok
    ensures Walk(Insert(nodes, cur, segs, i, verb, h).nodes, cur, segs, i, params, verb') == Matched(h, params)
  {
    var n := nodes[cur];
    var r := Insert(nodes, cur, segs, i, verb, h).nodes;
    assert LinksWithin(n, |nodes|) && LinksWithin(r[cur], |r|);
    assert NodeExtends(n, r[cur]);
    FindLiteralExtends(nodes, r, n.children, r[cur].children, segs[i], c);
  }

  /** The segment has no literal child: registration appends one, and the walk finds it. */
  lemma NewLiteralThenWalk(nodes: seq<Node>, cur: nat, segs: seq<string>, i: nat,
                           verb: string, verb': string, h: HandlerId, params: Params)
    requires WellFormed(nodes) && cur < |nodes| && i < |segs|
    requires !IsParam(segs[i]) && !IsCatchAll(segs[i])
    requires FindLiteral(nodes, nodes[cur].children, segs[i]).None?
    requires var a := Attach(nodes, cur, nodes[cur].(children := nodes[cur].children + [|nodes|]), segs[i]);
             && Insert(a, |nodes|, segs, i + 1, verb, h).ok
             && Walk(Insert(a, |nodes|, segs, i + 1, verb, h).nodes, |nodes|, segs, i + 1, params, verb') == Matched(h, params)
    ensures Insert(nodes, cur, segs, i, verb, h).ok
    ensures Walk(Insert(nodes, cur, segs, i, verb, h).nodes, cur, segs, i, params, verb') == Matched(h, params)
  {
    var n := nodes[cur];
    var seg := segs[i];
    var r := Insert(nodes, cur, segs, i, verb, h).nodes;
    var a := Attach(nodes, cur, n.(children := n.children + [|nodes|]), seg);
    assert r == Insert(a, |nodes|, segs, i + 1, verb, h).nodes;
    assert LinksWithin(r[cur], |r|);
    assert Extends(a, r);
    ExtendsTransitive(nodes, a, r);
    assert NodeExtends(a[|nodes|], r[|nodes|]);
    FindLiteralAppended(nodes, r, n.children, seg, |nodes|);
    assert NodeExtends(a[cur], r[cur]);
    FindLiteralExtends(r, r, n.children + [|nodes|], r[cur].children, seg, |nodes|);
  }

  /** After Handle(m, p, h) for a literal-only path p, match(m', p) returns h with empty
      Params whenever m' upper-cases like m, whatever was registered before; so a
      re-registration of the same method and path wins. */
  lemma MatchAfterRegisterLiteral(nodes: seq<Node>, verb: string, path: string, h: HandlerId, verb': string)
    requires WellFormed(nodes)
    requires path != "" && path[0] == '/' && LiteralOnly(SplitPath(path))
    requires ToUpper(verb') == ToUpper(verb)
    ensures Register(nodes, verb, path, h).ok
    ensures MatchOf(Register(nodes, verb, path, h).nodes, verb', path) == Matched(h, map[])
  {
    InsertThenWalkLiteral(nodes, 0, SplitPath(path), 0, verb, verb', h, map[]);
  }

  /** Request segments segs[i..] fit route template segments t[i..]: literals equal,
      a parameter takes any one segment, a final catch-all takes one or more. */
  predicate Fits(t: seq<string>, segs: seq<string>, i: nat)
    decreases |t| - i
  {
    if i >= |t| then i == |t| && |segs| == i
    else if IsCatchAll(t[i]) then i == |t| - 1 && i < |segs|
    else i < |segs| && (IsParam(t[i]) || t[i] == segs[i]) && Fits(t, segs, i + 1)
  }

  /** The parameters a fitting request binds: each ':name' to its segment, a final
      '*name' to the remaining segments joined with '/'. */
  function Bindings(t: seq<string>, segs: seq<string>, i: nat, params: Params): Params
    requires Fits(t, segs, i)
    decreases |t| - i
  {
    if i == |t| then params
    else if IsCatchAll(t[i]) then params[t[i][1..] := Join(segs[i..])]
    else if IsParam(t[i]) then Bindings(t, segs, i + 1, params[t[i][1..] := segs[i]])
    else Bindings(t, segs, i + 1, params)
  }

  predicate IsLeaf(n: Node)
  {
    n.children == [] && n.paramChild.None? && n.catchAll.None?
  }

  /** Registering from a childless node touches only that node and the nodes it creates. */
  lemma {:induction false} InsertFromLeafFrame(nodes: seq<Node>, cur: nat, segs: seq<string>, i: nat, verb: string, h: HandlerId)
    requires WellFormed(nodes) && cur < |nodes| && i <= |segs| && IsLeaf(nodes[cur])
    ensures forall k :: 0 <= k < |nodes| && k != cur ==> Insert(nodes, cur, segs, i, verb, h).nodes[k] == nodes[k]
    decreases |segs| - i
  {
    var n := nodes[cur];
    if i < |segs| {
      var seg := segs[i];
      if IsCatchAll(seg) {
        if i == |segs| - 1 {
          var a := Attach(nodes, cur, n.(catchAll := Some(|nodes|)), seg);
          InsertFromLeafFrame(a, |nodes|, segs, i + 1, verb, h);
        }
      } else if IsParam(seg) {
        var a := Attach(nodes, cur, n.(paramChild := Some(|nodes|)), seg);
        InsertFromLeafFrame(a, |nodes|, segs, i + 1, verb, h);
      } else {
        var a := Attach(nodes, cur, n.(children := n.children + [|nodes|]), seg);
        InsertFromLeafFrame(a, |nodes|, segs, i + 1, verb, h);
      }
    }
  }

  /** Registering template t below a childless node cur and then matching a request that fits t
      finds the handler with exactly the template's bindings. */
  lemma {:induction false} InsertFromLeafThenWalk(nodes: seq<Node>, cur: nat, t: seq<string>, segs: seq<string>, i: nat,
                                                   verb: string, verb': string, h: HandlerId, params: Params)
    requires WellFormed(nodes) && cur < |nodes| && IsLeaf(nodes[cur])
    requires i <= |t| && Fits(t, segs, i)
    requires ToUpper(verb') == ToUpper(verb)
    ensures Insert(nodes, cur, t, i, verb, h).ok
    ensures Walk(Insert(nodes, cur, t, i, verb, h).nodes, cur, segs, i, params, verb') == Matched(h, Bindings(t, segs, i, params))
    decreases |t| - i
  {
    if i < |t| {
      var n := nodes[cur];
      var seg := t[i];
      var m := |nodes|;
      if IsCatchAll(seg) {
        CatchAllBelowLeaf(nodes, cur, t, segs, verb, verb', h, params);
      } else if IsParam(seg) {
        var a := Attach(nodes, cur, n.(paramChild := Some(m)), seg);
        InsertFromLeafThenWalk(a, m, t, segs, i + 1, verb, verb', h, params[seg[1..] := segs[i]]);
        ParamBelowLeaf(nodes, cur, t, segs, i, verb, verb', h, params);
      } else {
        var a := Attach(nodes, cur, n.(children := n.children + [m]), seg);
        InsertFromLeafThenWalk(a, m, t, segs, i + 1, verb, verb', h, params);
        LiteralBelowLeaf(nodes, cur, t, segs, i, verb, verb', h, params);
      }
    }
  }

  /** The last template segment is a catch-all: the new catch-all node serves the request. */
  lemma CatchAllBelowLeaf(nodes: seq<Node>, cur: nat, t: seq<string>, segs: seq<string>,
                          verb: string, verb': string, h: HandlerId, params: Params)
    requires WellFormed(nodes) && cur < |nodes| && IsLeaf(nodes[cur])
    requires |t| > 0 && IsCatchAll(t[|t| - 1]) && Fits(t, segs, |t| - 1)
    requires ToUpper(verb') == ToUpper(verb)
    ensures Insert(nodes, cur, t, |t| - 1, verb, h).ok
    ensures Walk(Insert(nodes, cur, t, |t| - 1, verb, h).nodes, cur, segs, |t| - 1, params, verb')
            == Matched(h, Bindings(t, segs, |t| - 1, params))
  {
    var i := |t| - 1;
    var n := nodes[cur];
    var seg := t[i];
    var m := |nodes|;
    var r := Insert(nodes, cur, t, i, verb, h).nodes;
    var a := Attach(nodes, cur, n.(catchAll := Some(m)), seg);
    InsertFromLeafFrame(a, m, t, i + 1, verb, h);
    assert r[cur] == a[cur];
    assert "*" <= seg;
  }

  /** A parameter segment: the walk takes the new parameter child, binding its name, and the
      rest of the walk is the one below that child. */
  lemma ParamBelowLeaf(nodes: seq<Node>, cur: nat, t: seq<string>, segs: seq<string>, i: nat,
                       verb: string, verb': string, h: HandlerId, params: Params)
    requires WellFormed(nodes) && cur < |nodes| && IsLeaf(nodes[cur])
    requires i < |t| && Fits(t, segs, i) && IsParam(t[i]) && !IsCatchAll(t[i])
    requires ToUpper(verb') == ToUpper(verb)
    requires var a := Attach(nodes, cur, nodes[cur].(paramChild := Some(|nodes|)), t[i]);
             && Insert(a, |nodes|, t, i + 1, verb, h).ok
             && Walk(Insert(a, |nodes|, t, i + 1, verb, h).nodes, |nodes|, segs, i + 1, params[t[i][1..] := segs[i]], verb')
                == Matched(h, Bindings(t, segs, i + 1, params[t[i][1..] := segs[i]]))
    ensures Insert(nodes, cur, t, i, verb, h).ok
    ensures Walk(Insert(nodes, cur, t, i, verb, h).nodes, cur, segs, i, params, verb') == Matched(h, Bindings(t, segs, i, params))
  {
    var n := nodes[cur];
    var seg := t[i];
    var m := |nodes|;
    var r := Insert(nodes, cur, t, i, verb, h).nodes;
    var a := Attach(nodes, cur, n.(paramChild := Some(m)), seg);
    InsertFromLeafFrame(a, m, t, i + 1, verb, h);
    assert r[cur] == a[cur];
    assert NodeExtends(a[m], r[m]);
    assert ":" <= seg;
  }

  /** A literal segment: the walk takes the new (only) literal child, and the rest of the
      walk is the one below that child. */
  lemma LiteralBelowLeaf(nodes: seq<Node>, cur: nat, t: seq<string>, segs: seq<string>, i: nat,
                         verb: string, verb': string, h: HandlerId, params: Params)
    requires WellFormed(nodes) && cur < |nodes| && IsLeaf(nodes[cur])
    requires i < |t| && Fits(t, segs, i) && !IsParam(t[i]) && !IsCatchAll(t[i])
    requires ToUpper(verb') == ToUpper(verb)
    requires var a := Attach(nodes, cur, nodes[cur].(children := nodes[cur].children + [|nodes|]), t[i]);
             && Insert(a, |nodes|, t, i + 1, verb, h).ok
             && Walk(Insert(a, |nodes|, t, i + 1, verb, h).nodes, |nodes|, segs, i + 1, params, verb')
                == Matched(h, Bindings(t, segs, i + 1, params))
    ensures Insert(nodes, cur, t, i, verb, h).ok
    ensures Walk(Insert(nodes, cur, t, i, verb, h).nodes, cur, segs, i, params, verb') == Matched(h, Bindings(t, segs, i, params))
  {
    var n := nodes[cur];
    var seg := t[i];
    var m := |nodes|;
    var r := Insert(nodes, cur, t, i, verb, h).nodes;
    var a := Attach(nodes, cur, n.(children := n.children + [m]), seg);
    InsertFromLeafFrame(a, m, t, i + 1, verb, h);
    assert r[cur] == a[cur];
    assert NodeExtends(a[m], r[m]);
    assert r[cur].children == [m];
    assert FindLiteral(r, [m], segs[i]) == Some(m);
  }

  /** On a new router, Handle(m, template, h) followed by match(m', request) for a request
      that fits the template returns h with the template's bindings: one value per ':name'
      and the joined remainder for '*name'. */
  lemma MatchOnFreshRouter(template: string, request: string, verb: string, verb': string, h: HandlerId)
    requires template != "" && template[0] == '/'
    requires Fits(SplitPath(template), SplitPath(request), 0)
    requires ToUpper(verb') == ToUpper(verb)
    ensures Register([Root], verb, template, h).ok
    ensures MatchOf(Register([Root], verb, template, h).nodes, verb', request)
            == Matched(h, Bindings(SplitPath(template), SplitPath(request), 0, map[]))
  {
    assert WellFormed([Root]);
    InsertFromLeafThenWalk([Root], 0, SplitPath(template), SplitPath(request), 0, verb, verb', h, map[]);
  }

  /** The first and last characters of a join of non-empty end pieces are not '/'. */
  lemma JoinUnslashedEnds(parts: seq<string>)
    requires |parts| >= 1 && parts[0] != "" && parts[|parts| - 1] != ""
    requires forall k :: 0 <= k < |parts| ==> '/' !in parts[k]
    ensures var j := Join(parts); |j| > 0 && j[0] != '/' && j[|j| - 1] != '/'
  {
    var j := Join(parts);
    var l := parts[|parts| - 1];
    JoinStartsWithFirst(parts);
    JoinEndsWithLast(parts);
    assert parts[0][0] in parts[0];
    assert l[|l| - 1] in l;
    assert j[|j| - 1] == l[|l| - 1];
  }

  lemma TrimOneLeadingSlash(j: string)
    requires |j| > 0 && j[0] != '/' && j[|j| - 1] != '/'
    ensures TrimSlashes("/" + j) == j
  {
    assert ("/" + j)[1..] == j;
  }

  /** For a route of slash-free segments whose first and last are non-empty, writing it as
      "/" + segments joined by "/" and splitting it gives the segments back; interior empty
      segments survive. */
  lemma SplitPathRoundTrip(parts: seq<string>)
    requires |parts| >= 1 && parts[0] != "" && parts[|parts| - 1] != ""
    requires forall k :: 0 <= k < |parts| ==> '/' !in parts[k]
    ensures SplitPath("/" + Join(parts)) == parts
  {
    JoinUnslashedEnds(parts);
    TrimOneLeadingSlash(Join(parts));
    SplitJoin(parts);
  }

  /** A trailing slash is ignored: appending '/' to any path leaves its segments unchanged. */
  lemma SplitPathIgnoresTrailingSlash(p: string)
    ensures SplitPath(p + "/") == SplitPath(p)
  {
    TrimLeftSlashesSnoc(p);
    if TrimLeftSlashes(p) != "" {
      TrimRightSlashesSnoc(TrimLeftSlashes(p));
    }
    assert TrimSlashes(p + "/") == TrimSlashes(p);
  }

  /** "/" and "" have no segments. */
  lemma SplitPathOfRoot()
    ensures SplitPath("/") == [] && SplitPath("") == []
  {
  }
}
