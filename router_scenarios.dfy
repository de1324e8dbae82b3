/** Concrete routing situations from the router's tests, checked on the reference definitions. */
module RouterScenarios {
  import opened Wrappers
  import opened GoStrings
  import opened Trie
  import opened TrieFacts
  import opened Router

  // One step of Insert or Walk at a time, each step naming the arena it produces, so
  // that concrete tries unfold cheaply.

  lemma InsertNewLiteral(nodes: seq<Node>, cur: nat, segs: seq<string>, i: nat, verb: string, h: HandlerId, next: seq<Node>)
    requires WellFormed(nodes) && cur < |nodes| && i < |segs|
    requires !IsCatchAll(segs[i]) && !IsParam(segs[i])
    requires forall c :: c in nodes[cur].children ==> nodes[c].segment != segs[i]
    requires next == nodes[cur := nodes[cur].(children := nodes[cur].children + [|nodes|])] + [Leaf(segs[i])]
    ensures WellFormed(next) && |next| == |nodes| + 1
    ensures Insert(nodes, cur, segs, i, verb, h) == Insert(next, |nodes|, segs, i + 1, verb, h)
  {
  }

  lemma InsertOldLiteral(nodes: seq<Node>, cur: nat, segs: seq<string>, i: nat, verb: string, h: HandlerId, c: nat)
    requires WellFormed(nodes) && cur < |nodes| && i < |segs|
    requires !IsCatchAll(segs[i]) && !IsParam(segs[i])
    requires FindLiteral(nodes, nodes[cur].children, segs[i]) == Some(c)
    ensures c < |nodes|
    ensures Insert(nodes, cur, segs, i, verb, h) == Insert(nodes, c, segs, i + 1, verb, h)
  {
  }

  lemma InsertNewParam(nodes: seq<Node>, cur: nat, segs: seq<string>, i: nat, verb: string, h: HandlerId, next: seq<Node>)
    requires WellFormed(nodes) && cur < |nodes| && i < |segs|
    requires !IsCatchAll(segs[i]) && IsParam(segs[i]) && nodes[cur].paramChild.None?
    requires next == nodes[cur := nodes[cur].(paramChild := Some(|nodes|))] + [Leaf(segs[i])]
    ensures WellFormed(next) && |next| == |nodes| + 1
    ensures Insert(nodes, cur, segs, i, verb, h) == Insert(next, |nodes|, segs, i + 1, verb, h)
  {
  }

  lemma InsertOldParam(nodes: seq<Node>, cur: nat, segs: seq<string>, i: nat, verb: string, h: HandlerId, p: nat)
    requires WellFormed(nodes) && cur < |nodes| && i < |segs|
    requires !IsCatchAll(segs[i]) && IsParam(segs[i]) && nodes[cur].paramChild == Some(p)
    ensures p < |nodes|
    ensures Insert(nodes, cur, segs, i, verb, h) == Insert(nodes, p, segs, i + 1, verb, h)
  {
  }

  lemma InsertNewCatchAll(nodes: seq<Node>, cur: nat, segs: seq<string>, verb: string, h: HandlerId, next: seq<Node>)
    requires WellFormed(nodes) && cur < |nodes| && |segs| > 0
    requires IsCatchAll(segs[|segs| - 1]) && nodes[cur].catchAll.None?
    requires next == nodes[cur := nodes[cur].(catchAll := Some(|nodes|))] + [Leaf(segs[|segs| - 1])]
    ensures WellFormed(next) && |next| == |nodes| + 1
    ensures Insert(nodes, cur, segs, |segs| - 1, verb, h) == Insert(next, |nodes|, segs, |segs|, verb, h)
  {
  }

  lemma InsertEnd(nodes: seq<Node>, cur: nat, segs: seq<string>, verb: string, h: HandlerId, final: seq<Node>)
    requires WellFormed(nodes) && cur < |nodes|
    requires final == nodes[cur := nodes[cur].(handlers := nodes[cur].handlers[ToUpper(verb) := h])]
    ensures Insert(nodes, cur, segs, |segs|, verb, h) == Registered(final, true)
  {
  }

  lemma WalkLiteral(nodes: seq<Node>, cur: nat, segs: seq<string>, i: nat, params: Params, verb: string, c: nat)
    requires WellFormed(nodes) && cur < |nodes| && i < |segs|
    requires FindLiteral(nodes, nodes[cur].children, segs[i]) == Some(c)
    ensures c < |nodes|
    ensures Walk(nodes, cur, segs, i, params, verb) == Walk(nodes, c, segs, i + 1, params, verb)
    ensures Reaches(nodes, cur, segs, i) == Reaches(nodes, c, segs, i + 1)
  {
  }

  lemma WalkParam(nodes: seq<Node>, cur: nat, segs: seq<string>, i: nat, params: Params, verb: string, p: nat, name: string)
    requires WellFormed(nodes) && cur < |nodes| && i < |segs|
    requires forall c :: c in nodes[cur].children ==> nodes[c].segment != segs[i]
    requires nodes[cur].paramChild == Some(p) && TrimPrefix(nodes[p].segment, ":") == name
    ensures p < |nodes|
    ensures Walk(nodes, cur, segs, i, params, verb) == Walk(nodes, p, segs, i + 1, params[name := segs[i]], verb)
  {
  }

  lemma WalkCatchAll(nodes: seq<Node>, cur: nat, segs: seq<string>, i: nat, params: Params, verb: string, c: nat, name: string, rest: string)
    requires WellFormed(nodes) && cur < |nodes| && i < |segs|
    requires forall k :: k in nodes[cur].children ==> nodes[k].segment != segs[i]
    requires nodes[cur].paramChild.None? && nodes[cur].catchAll == Some(c)
    requires TrimPrefix(nodes[c].segment, "*") == name && Join(segs[i..]) == rest
    ensures c < |nodes|
    ensures Walk(nodes, cur, segs, i, params, verb) == Lookup(nodes[c], verb, params[name := rest])
  {
  }

  /** The walk from cur stops at a segment no child of cur accepts. */
  lemma WalkStuck(nodes: seq<Node>, cur: nat, segs: seq<string>, i: nat, params: Params, verb: string)
    requires WellFormed(nodes) && cur < |nodes| && i < |segs|
    requires forall k :: k in nodes[cur].children ==> nodes[k].segment != segs[i]
    requires nodes[cur].paramChild.None? && nodes[cur].catchAll.None?
    ensures Walk(nodes, cur, segs, i, params, verb) == NoMatch
    ensures !Reaches(nodes, cur, segs, i)
  {
  }

  /** The path is "/" followed by the parts joined with '/'. */
  predicate Spells(parts: seq<string>, path: string)
  {
    && |parts| >= 1 && parts[0] != "" && parts[|parts| - 1] != ""
    && (forall k :: 0 <= k < |parts| ==> '/' !in parts[k])
    && path == "/" + Join(parts)
  }

  lemma SegmentsOf(parts: seq<string>, path: string)
    requires Spells(parts, path)
    ensures SplitPath(path) == parts
  {
    SplitPathRoundTrip(parts);
  }

  lemma UpperGetPost()
    ensures ToUpper("GET") == "GET" && ToUpper("POST") == "POST"
  {
  }

  // Each named arena is well formed.
  lemma WellFormedUsersMe() ensures WellFormed(UsersMe()) { UpperGetPost(); }
  lemma WellFormedUsersMeAndId() ensures WellFormed(UsersMeAndId()) { UpperGetPost(); }
  lemma WellFormedApiRest() ensures WellFormed(ApiRest()) { UpperGetPost(); }
  lemma WellFormedTestGet() ensures WellFormed(TestGet()) { UpperGetPost(); }
  lemma WellFormedTestGetPost() ensures WellFormed(TestGetPost()) { UpperGetPost(); }
  lemma WellFormedAbcOnly() ensures WellFormed(AbcOnly()) { UpperGetPost(); }
  lemma WellFormedAbcAndX() ensures WellFormed(AbcAndX()) { UpperGetPost(); }
  lemma WellFormedDiverging() ensures WellFormed(Diverging()) { UpperGetPost(); }
  lemma WellFormedUsersIdOnly() ensures WellFormed(UsersIdOnly()) { UpperGetPost(); }
  lemma WellFormedSharedParam() ensures WellFormed(SharedParam()) { UpperGetPost(); }

  // ---------------- GET /users/me, then GET /users/:id

  /** The trie after GET /users/me (handler 1) on a new router. */
  function UsersMe(): seq<Node>
  {
    [Root.(children := [1]), Leaf("users").(children := [2]), Leaf("me").(handlers := map["GET" := 1])]
  }

  /** ... and then GET /users/:id (handler 2). */
  function UsersMeAndId(): seq<Node>
  {
    [Root.(children := [1]), Leaf("users").(children := [2], paramChild := Some(3)),
     Leaf("me").(handlers := map["GET" := 1]), Leaf(":id").(handlers := map["GET" := 2])]
  }

  /** A new router's root with the node "users" attached. */
  function UsersNode(): seq<Node>
  {
    [Root.(children := [1]), Leaf("users")]
  }

  function UsersMeUnserved(): seq<Node>
  {
    [Root.(children := [1]), Leaf("users").(children := [2]), Leaf("me")]
  }

  function UsersMeAndIdUnserved(): seq<Node>
  {
    [Root.(children := [1]), Leaf("users").(children := [2], paramChild := Some(3)),
     Leaf("me").(handlers := map["GET" := 1]), Leaf(":id")]
  }

  lemma SpellsUsersMe() ensures Spells(["users", "me"], "/users/me") {}
  lemma SpellsUsersId() ensures Spells(["users", ":id"], "/users/:id") {}
  lemma SpellsUsers123() ensures Spells(["users", "123"], "/users/123") {}

  lemma SegmentsOfUsersMe()
    ensures SplitPath("/users/me") == ["users", "me"]
  {
    SpellsUsersMe();
    SegmentsOf(["users", "me"], "/users/me");
  }

  lemma SegmentsOfUsersId()
    ensures SplitPath("/users/:id") == ["users", ":id"]
  {
    SpellsUsersId();
    SegmentsOf(["users", ":id"], "/users/:id");
  }

  lemma SegmentsOfUsers123()
    ensures SplitPath("/users/123") == ["users", "123"]
  {
    SpellsUsers123();
    SegmentsOf(["users", "123"], "/users/123");
  }

  lemma InsertUsersNode(segs: seq<string>, h: HandlerId)
    requires |segs| > 1 && segs[0] == "users"
    ensures WellFormed(UsersNode())
    ensures Insert([Root], 0, segs, 0, "GET", h) == Insert(UsersNode(), 1, segs, 1, "GET", h)
  {
    assert Root.children + [1] == [1];
    InsertNewLiteral([Root], 0, segs, 0, "GET", h, UsersNode());
  }

  lemma InsertUsersMeTail()
    ensures WellFormed(UsersNode()) && WellFormed(UsersMeUnserved())
    ensures Insert(UsersNode(), 1, ["users", "me"], 1, "GET", 1) == Insert(UsersMeUnserved(), 2, ["users", "me"], 2, "GET", 1)
  {
    var segs := ["users", "me"];
    assert segs[1] == "me";
    InsertUsersNode(segs, 1);
    assert UsersNode()[1].children + [2] == [2];
    InsertNewLiteral(UsersNode(), 1, segs, 1, "GET", 1, UsersMeUnserved());
  }

  lemma InsertUsersMeEnd()
    ensures WellFormed(UsersMeUnserved())
    ensures Insert(UsersMeUnserved(), 2, ["users", "me"], 2, "GET", 1) == Registered(UsersMe(), true)
  {
    InsertUsersMeTail();
    UpperGetPost();
    InsertEnd(UsersMeUnserved(), 2, ["users", "me"], "GET", 1, UsersMe());
  }

  lemma InsertUsersMe()
    ensures Insert([Root], 0, ["users", "me"], 0, "GET", 1) == Registered(UsersMe(), true)
  {
    InsertUsersNode(["users", "me"], 1);
    InsertUsersMeTail();
    InsertUsersMeEnd();
  }

  lemma RegisterUsersMe()
    ensures Register([Root], "GET", "/users/me", 1) == Registered(UsersMe(), true)
  {
    SegmentsOfUsersMe();
    InsertUsersMe();
  }

  lemma InsertUsersIdHead()
    ensures WellFormed(UsersMe()) && WellFormed(UsersMeAndIdUnserved())
    ensures Insert(UsersMe(), 0, ["users", ":id"], 0, "GET", 2) == Insert(UsersMeAndIdUnserved(), 3, ["users", ":id"], 2, "GET", 2)
  {
    WellFormedUsersMe();
    var t := UsersMe();
    var segs := ["users", ":id"];
    assert segs[0] == "users" && segs[1] == ":id";
    assert FindLiteral(t, t[0].children, "users") == Some(1);
    InsertOldLiteral(t, 0, segs, 0, "GET", 2, 1);
    InsertNewParam(t, 1, segs, 1, "GET", 2, UsersMeAndIdUnserved());
  }

  lemma InsertUsersId()
    ensures WellFormed(UsersMe())
    ensures Insert(UsersMe(), 0, ["users", ":id"], 0, "GET", 2) == Registered(UsersMeAndId(), true)
  {
    InsertUsersIdHead();
    UpperGetPost();
    InsertEnd(UsersMeAndIdUnserved(), 3, ["users", ":id"], "GET", 2, UsersMeAndId());
  }

  lemma RegisterUsersId()
    ensures WellFormed(UsersMe())
    ensures Register(UsersMe(), "GET", "/users/:id", 2) == Registered(UsersMeAndId(), true)
  {
    SegmentsOfUsersId();
    InsertUsersId();
  }

  lemma UsersMeAndIdShape()
    ensures WellFormed(UsersMeAndId())
    ensures FindLiteral(UsersMeAndId(), UsersMeAndId()[0].children, "users") == Some(1)
    ensures FindLiteral(UsersMeAndId(), UsersMeAndId()[1].children, "me") == Some(2)
    ensures forall c :: c in UsersMeAndId()[1].children ==> UsersMeAndId()[c].segment != "123"
  {
    WellFormedUsersMeAndId();
  }

  lemma WalkUsersMe()
    ensures WellFormed(UsersMeAndId())
    ensures Walk(UsersMeAndId(), 0, ["users", "me"], 0, map[], "GET") == Matched(1, map[])
  {
    var t := UsersMeAndId();
    var segs := ["users", "me"];
    UsersMeAndIdShape();
    UpperGetPost();
    WalkLiteral(t, 0, segs, 0, map[], "GET", 1);
    WalkLiteral(t, 1, segs, 1, map[], "GET", 2);
  }

  lemma MatchUsersMe()
    ensures WellFormed(UsersMeAndId())
    ensures MatchOf(UsersMeAndId(), "GET", "/users/me") == Matched(1, map[])
  {
    SegmentsOfUsersMe();
    WalkUsersMe();
  }

  lemma WalkUsers123()
    ensures WellFormed(UsersMeAndId())
    ensures Walk(UsersMeAndId(), 0, ["users", "123"], 0, map[], "GET") == Matched(2, map["id" := "123"])
  {
    var t := UsersMeAndId();
    var segs := ["users", "123"];
    assert segs[1] == "123";
    UsersMeAndIdShape();
    UpperGetPost();
    WalkLiteral(t, 0, segs, 0, map[], "GET", 1);
    assert TrimPrefix(":id", ":") == "id";
    WalkParam(t, 1, segs, 1, map[], "GET", 3, "id");
  }

  lemma MatchUsers123()
    ensures WellFormed(UsersMeAndId())
    ensures MatchOf(UsersMeAndId(), "GET", "/users/123") == Matched(2, map["id" := "123"])
  {
    SegmentsOfUsers123();
    WalkUsers123();
  }

  /** With /users/me and /users/:id registered in this order, the static route wins for
      /users/me and the parameter route binds id for /users/123. */
  lemma StaticChildrenPriority()
    ensures Register([Root], "GET", "/users/me", 1).ok
    ensures Register(Register([Root], "GET", "/users/me", 1).nodes, "GET", "/users/:id", 2).ok
    ensures var t := Register(Register([Root], "GET", "/users/me", 1).nodes, "GET", "/users/:id", 2).nodes;
            MatchOf(t, "GET", "/users/me") == Matched(1, map[])
            && MatchOf(t, "GET", "/users/123") == Matched(2, map["id" := "123"])
  {
    RegisterUsersMe();
    RegisterUsersId();
    MatchUsersMe();
    MatchUsers123();
  }

  // ---------------- GET /api/*rest

  /** The trie after registering the catch-all route "api", "*rest" (GET, handler 1). */
  function ApiRest(): seq<Node>
  {
    [Root.(children := [1]), Leaf("api").(catchAll := Some(2)), Leaf("*rest").(handlers := map["GET" := 1])]
  }

  function ApiNode(): seq<Node>
  {
    [Root.(children := [1]), Leaf("api")]
  }

  function ApiRestUnserved(): seq<Node>
  {
    [Root.(children := [1]), Leaf("api").(catchAll := Some(2)), Leaf("*rest")]
  }

  /** The segments of the request /api/v1/users/123/posts. */
  function ApiRequest(): seq<string>
  {
    ["api", "v1", "users", "123", "posts"]
  }

  lemma SpellsApiRest() ensures Spells(["api", "*rest"], "/api/*rest") {}
  lemma SpellsApi() ensures Spells(["api"], "/api") {}
  lemma JoinApiRequest()
    ensures Join(ApiRequest()) == "api/v1/users/123/posts"
  {
    JoinApiRequestTail();
  }

  lemma SlashFreeApiRequest()
    ensures forall k :: 0 <= k < |ApiRequest()| ==> '/' !in ApiRequest()[k]
  {
  }

  lemma SpellsApiRequest()
    ensures Spells(ApiRequest(), "/api/v1/users/123/posts")
  {
    JoinApiRequest();
    SlashFreeApiRequest();
  }

  lemma SegmentsOfApiRest()
    ensures SplitPath("/api/*rest") == ["api", "*rest"]
  {
    SpellsApiRest();
    SegmentsOf(["api", "*rest"], "/api/*rest");
  }

  lemma SegmentsOfApi()
    ensures SplitPath("/api") == ["api"]
  {
    SpellsApi();
    SegmentsOf(["api"], "/api");
  }

  lemma SegmentsOfApiRequest()
    ensures SplitPath("/api/v1/users/123/posts") == ApiRequest()
  {
    SpellsApiRequest();
    SegmentsOf(ApiRequest(), "/api/v1/users/123/posts");
  }

  lemma InsertApiNode()
    ensures WellFormed(ApiNode())
    ensures Insert([Root], 0, ["api", "*rest"], 0, "GET", 1) == Insert(ApiNode(), 1, ["api", "*rest"], 1, "GET", 1)
  {
    var segs := ["api", "*rest"];
    assert segs[0] == "api";
    assert Root.children + [1] == [1];
    InsertNewLiteral([Root], 0, segs, 0, "GET", 1, ApiNode());
  }

  lemma InsertRestNode()
    ensures WellFormed(ApiNode()) && WellFormed(ApiRestUnserved())
    ensures Insert(ApiNode(), 1, ["api", "*rest"], 1, "GET", 1) == Insert(ApiRestUnserved(), 2, ["api", "*rest"], 2, "GET", 1)
  {
    var segs := ["api", "*rest"];
    assert segs[1] == "*rest";
    InsertApiNode();
    InsertNewCatchAll(ApiNode(), 1, segs, "GET", 1, ApiRestUnserved());
  }

  lemma InsertApiRest()
    ensures Insert([Root], 0, ["api", "*rest"], 0, "GET", 1) == Registered(ApiRest(), true)
  {
    InsertApiNode();
    InsertRestNode();
    UpperGetPost();
    InsertEnd(ApiRestUnserved(), 2, ["api", "*rest"], "GET", 1, ApiRest());
  }

  lemma RegisterApiRest()
    ensures Register([Root], "GET", "/api/*rest", 1) == Registered(ApiRest(), true)
  {
    SegmentsOfApiRest();
    InsertApiRest();
  }

  lemma ApiRestShape()
    ensures WellFormed(ApiRest())
    ensures FindLiteral(ApiRest(), ApiRest()[0].children, "api") == Some(1)
    ensures ApiRest()[1].children == [] && ApiRest()[1].paramChild.None? && ApiRest()[1].catchAll == Some(2)
    ensures |ApiRest()[1].handlers| == 0
  {
    WellFormedApiRest();
  }

  lemma JoinApiRequestTail()
    ensures Join(ApiRequest()[1..]) == "v1/users/123/posts"
  {
    assert ApiRequest()[1..] == ["v1", "users", "123", "posts"];
  }

  lemma WalkApiRequest()
    ensures WellFormed(ApiRest())
    ensures Walk(ApiRest(), 0, ApiRequest(), 0, map[], "GET") == Matched(1, map["rest" := "v1/users/123/posts"])
  {
    var t := ApiRest();
    var segs := ApiRequest();
    ApiRestShape();
    UpperGetPost();
    WalkLiteral(t, 0, segs, 0, map[], "GET", 1);
    JoinApiRequestTail();
    assert TrimPrefix("*rest", "*") == "rest";
    WalkCatchAll(t, 1, segs, 1, map[], "GET", 2, "rest", "v1/users/123/posts");
  }

  lemma MatchApiRequest()
    ensures WellFormed(ApiRest())
    ensures MatchOf(ApiRest(), "GET", "/api/v1/users/123/posts") == Matched(1, map["rest" := "v1/users/123/posts"])
  {
    SegmentsOfApiRequest();
    WalkApiRequest();
  }

  lemma WalkApiAlone()
    ensures WellFormed(ApiRest())
    ensures Walk(ApiRest(), 0, ["api"], 0, map[], "GET") == NoMatch
    ensures !Reaches(ApiRest(), 0, ["api"], 0)
  {
    ApiRestShape();
    WalkLiteral(ApiRest(), 0, ["api"], 0, map[], "GET", 1);
  }

  lemma ApiAloneNotFound()
    ensures WellFormed(ApiRest())
    ensures MatchOf(ApiRest(), "GET", "/api") == NoMatch
    ensures !PathExistsIn(ApiRest(), "/api")
  {
    SegmentsOfApi();
    WalkApiAlone();
  }

  /** The catch-all binds the rest of the path joined with '/', but needs at least one
      segment: /api itself is not served (404), since the walk ends at the "api" node. */
  lemma CatchAllRest()
    ensures Register([Root], "GET", "/api/*rest", 1).ok
    ensures var t := Register([Root], "GET", "/api/*rest", 1).nodes;
            && MatchOf(t, "GET", "/api/v1/users/123/posts") == Matched(1, map["rest" := "v1/users/123/posts"])
            && MatchOf(t, "GET", "/api") == NoMatch
            && Dispatch(t, [], "GET", "/api") == NotFound
  {
    RegisterApiRest();
    MatchApiRequest();
    ApiAloneNotFound();
  }

  // ---------------- GET /test, then POST /test

  /** The trie after GET /test (handler 1) ... */
  function TestGet(): seq<Node>
  {
    [Root.(children := [1]), Leaf("test").(handlers := map["GET" := 1])]
  }

  /** ... and then POST /test (handler 2). */
  function TestGetPost(): seq<Node>
  {
    [Root.(children := [1]), Leaf("test").(handlers := map["GET" := 1, "POST" := 2])]
  }

  function TestNode(): seq<Node>
  {
    [Root.(children := [1]), Leaf("test")]
  }

  lemma SpellsTest() ensures Spells(["test"], "/test") {}
  lemma SpellsNonexistent() ensures Spells(["nonexistent"], "/nonexistent") {}

  lemma SegmentsOfTest()
    ensures SplitPath("/test") == ["test"]
  {
    SpellsTest();
    SegmentsOf(["test"], "/test");
  }

  lemma SegmentsOfNonexistent()
    ensures SplitPath("/nonexistent") == ["nonexistent"]
  {
    SpellsNonexistent();
    SegmentsOf(["nonexistent"], "/nonexistent");
  }

  lemma InsertTestGet()
    ensures Insert([Root], 0, ["test"], 0, "GET", 1) == Registered(TestGet(), true)
  {
    var segs := ["test"];
    assert segs[0] == "test";
    assert Root.children + [1] == [1];
    InsertNewLiteral([Root], 0, segs, 0, "GET", 1, TestNode());
    UpperGetPost();
    InsertEnd(TestNode(), 1, segs, "GET", 1, TestGet());
  }

  lemma RegisterTestGet()
    ensures Register([Root], "GET", "/test", 1) == Registered(TestGet(), true)
  {
    SegmentsOfTest();
    InsertTestGet();
  }

  lemma InsertTestPost()
    ensures WellFormed(TestGet())
    ensures Insert(TestGet(), 0, ["test"], 0, "POST", 2) == Registered(TestGetPost(), true)
  {
    var segs := ["test"];
    assert segs[0] == "test";
    WellFormedTestGet();
    var t := TestGet();
    assert FindLiteral(t, t[0].children, "test") == Some(1);
    InsertOldLiteral(t, 0, segs, 0, "POST", 2, 1);
    UpperGetPost();
    InsertEnd(t, 1, segs, "POST", 2, TestGetPost());
  }

  lemma RegisterTestPost()
    ensures WellFormed(TestGet())
    ensures Register(TestGet(), "POST", "/test", 2) == Registered(TestGetPost(), true)
  {
    SegmentsOfTest();
    InsertTestPost();
  }

  lemma TestShape()
    ensures WellFormed(TestGet()) && WellFormed(TestGetPost())
    ensures FindLiteral(TestGet(), TestGet()[0].children, "test") == Some(1)
    ensures FindLiteral(TestGetPost(), TestGetPost()[0].children, "test") == Some(1)
  {
    WellFormedTestGet();
    WellFormedTestGetPost();
  }

  lemma WalkTestGet()
    ensures WellFormed(TestGet())
    ensures Walk(TestGet(), 0, ["test"], 0, map[], "GET") == Matched(1, map[])
    ensures Reaches(TestGet(), 0, ["test"], 0)
  {
    TestShape();
    UpperGetPost();
    WalkLiteral(TestGet(), 0, ["test"], 0, map[], "GET", 1);
  }

  lemma MatchTestGet()
    ensures WellFormed(TestGet())
    ensures MatchOf(TestGet(), "GET", "/test") == Matched(1, map[])
    ensures PathExistsIn(TestGet(), "/test")
  {
    SegmentsOfTest();
    WalkTestGet();
  }

  lemma WalkTestPostMissing()
    ensures WellFormed(TestGet())
    ensures Walk(TestGet(), 0, ["test"], 0, map[], "POST") == NoMatch
  {
    TestShape();
    UpperGetPost();
    WalkLiteral(TestGet(), 0, ["test"], 0, map[], "POST", 1);
    assert "POST" !in TestGet()[1].handlers;
  }

  lemma MatchTestPostMissing()
    ensures WellFormed(TestGet())
    ensures MatchOf(TestGet(), "POST", "/test") == NoMatch
  {
    SegmentsOfTest();
    WalkTestPostMissing();
  }

  lemma WalkNonexistent()
    ensures WellFormed(TestGet())
    ensures Walk(TestGet(), 0, ["nonexistent"], 0, map[], "GET") == NoMatch
    ensures !Reaches(TestGet(), 0, ["nonexistent"], 0)
  {
    TestShape();
    assert TestGet()[0].children == [1];
    WalkStuck(TestGet(), 0, ["nonexistent"], 0, map[], "GET");
  }

  lemma NonexistentNotFound()
    ensures WellFormed(TestGet())
    ensures MatchOf(TestGet(), "GET", "/nonexistent") == NoMatch
    ensures !PathExistsIn(TestGet(), "/nonexistent")
  {
    SegmentsOfNonexistent();
    WalkNonexistent();
  }

  lemma WalkTestBoth()
    ensures WellFormed(TestGetPost())
    ensures Walk(TestGetPost(), 0, ["test"], 0, map[], "GET") == Matched(1, map[])
    ensures Walk(TestGetPost(), 0, ["test"], 0, map[], "POST") == Matched(2, map[])
  {
    TestShape();
    UpperGetPost();
    WalkLiteral(TestGetPost(), 0, ["test"], 0, map[], "GET", 1);
    WalkLiteral(TestGetPost(), 0, ["test"], 0, map[], "POST", 1);
  }

  lemma MatchTestBoth()
    ensures WellFormed(TestGetPost())
    ensures MatchOf(TestGetPost(), "GET", "/test") == Matched(1, map[])
    ensures MatchOf(TestGetPost(), "POST", "/test") == Matched(2, map[])
  {
    SegmentsOfTest();
    WalkTestBoth();
  }

  /** Each method reaches its own handler; a method with no handler on an existing path
      answers 405, an unknown path 404. */
  lemma MethodsAndStatuses()
    ensures Register([Root], "GET", "/test", 1).ok
    ensures var t1 := Register([Root], "GET", "/test", 1).nodes;
            && Dispatch(t1, [], "POST", "/test") == MethodNotAllowed
            && Dispatch(t1, [], "GET", "/nonexistent") == NotFound
    ensures var t2 := Register(Register([Root], "GET", "/test", 1).nodes, "POST", "/test", 2).nodes;
            && MatchOf(t2, "GET", "/test") == Matched(1, map[])
            && MatchOf(t2, "POST", "/test") == Matched(2, map[])
  {
    RegisterTestGet();
    RegisterTestPost();
    MatchTestGet();
    MatchTestPostMissing();
    NonexistentNotFound();
    MatchTestBoth();
  }

  lemma ChainOfTwo(m1: MiddlewareId, m2: MiddlewareId, h: HandlerId)
    ensures Chain([m1, m2], h) == [Enter(m1), Enter(m2), Run(h), Exit(m2), Exit(m1)]
  {
    var inner := Chain([m2], h);
    assert [m2][1..] == [];
    assert Chain([], h) == [Run(h)];
    assert inner == [Enter(m2)] + Chain([], h) + [Exit(m2)];
    assert inner == [Enter(m2), Run(h), Exit(m2)];
    assert [m1, m2][1..] == [m2];
    assert Chain([m1, m2], h) == [Enter(m1)] + inner + [Exit(m1)];
  }

  /** Two middlewares wrap the handler: the first registered is outermost. */
  lemma TwoMiddlewares(m1: MiddlewareId, m2: MiddlewareId)
    ensures WellFormed(TestGet())
    ensures Dispatch(TestGet(), [m1, m2], "GET", "/test")
            == Handled([Enter(m1), Enter(m2), Run(1), Exit(m2), Exit(m1)], map[])
  {
    MatchTestGet();
    ChainOfTwo(m1, m2, 1);
  }

  // ---------------- GET /a/b/c, then GET /a/:x/d

  /** The trie after GET /a/b/c (handler 1) and GET /a/:x/d (handler 2). */
  function Diverging(): seq<Node>
  {
    [Root.(children := [1]), Leaf("a").(children := [2], paramChild := Some(4)),
     Leaf("b").(children := [3]), Leaf("c").(handlers := map["GET" := 1]),
     Leaf(":x").(children := [5]), Leaf("d").(handlers := map["GET" := 2])]
  }

  function AbcOnly(): seq<Node>
  {
    [Root.(children := [1]), Leaf("a").(children := [2]),
     Leaf("b").(children := [3]), Leaf("c").(handlers := map["GET" := 1])]
  }

  function ANode(): seq<Node>
  {
    [Root.(children := [1]), Leaf("a")]
  }

  function AbNodes(): seq<Node>
  {
    [Root.(children := [1]), Leaf("a").(children := [2]), Leaf("b")]
  }

  function AbcUnserved(): seq<Node>
  {
    [Root.(children := [1]), Leaf("a").(children := [2]), Leaf("b").(children := [3]), Leaf("c")]
  }

  function AbcAndX(): seq<Node>
  {
    [Root.(children := [1]), Leaf("a").(children := [2], paramChild := Some(4)),
     Leaf("b").(children := [3]), Leaf("c").(handlers := map["GET" := 1]), Leaf(":x")]
  }

  function DivergingUnserved(): seq<Node>
  {
    [Root.(children := [1]), Leaf("a").(children := [2], paramChild := Some(4)),
     Leaf("b").(children := [3]), Leaf("c").(handlers := map["GET" := 1]),
     Leaf(":x").(children := [5]), Leaf("d")]
  }

  function Abc(): seq<string> { ["a", "b", "c"] }
  function Axd(): seq<string> { ["a", ":x", "d"] }
  function Abd(): seq<string> { ["a", "b", "d"] }

  lemma SpellsAbc() ensures Spells(Abc(), "/a/b/c") {}
  lemma SpellsAxd() ensures Spells(Axd(), "/a/:x/d") {}
  lemma SpellsAbd() ensures Spells(Abd(), "/a/b/d") {}

  lemma SegmentsOfAbc()
    ensures SplitPath("/a/b/c") == Abc()
  {
    SpellsAbc();
    SegmentsOf(Abc(), "/a/b/c");
  }

  lemma SegmentsOfAxd()
    ensures SplitPath("/a/:x/d") == Axd()
  {
    SpellsAxd();
    SegmentsOf(Axd(), "/a/:x/d");
  }

  lemma SegmentsOfAbd()
    ensures SplitPath("/a/b/d") == Abd()
  {
    SpellsAbd();
    SegmentsOf(Abd(), "/a/b/d");
  }

  lemma AbcLetters()
    ensures |Abc()| == 3 && Abc()[0] == "a" && Abc()[1] == "b" && Abc()[2] == "c"
    ensures |Axd()| == 3 && Axd()[0] == "a" && Axd()[1] == ":x" && Axd()[2] == "d"
  {
  }

  lemma InsertANode()
    ensures WellFormed(ANode())
    ensures Insert([Root], 0, Abc(), 0, "GET", 1) == Insert(ANode(), 1, Abc(), 1, "GET", 1)
  {
    AbcLetters();
    assert Root.children + [1] == [1];
    InsertNewLiteral([Root], 0, Abc(), 0, "GET", 1, ANode());
  }

  lemma InsertBNode()
    ensures WellFormed(ANode()) && WellFormed(AbNodes())
    ensures Insert(ANode(), 1, Abc(), 1, "GET", 1) == Insert(AbNodes(), 2, Abc(), 2, "GET", 1)
  {
    AbcLetters();
    InsertANode();
    assert ANode()[1].children + [2] == [2];
    InsertNewLiteral(ANode(), 1, Abc(), 1, "GET", 1, AbNodes());
  }

  lemma InsertCNode()
    ensures WellFormed(AbNodes()) && WellFormed(AbcUnserved())
    ensures Insert(AbNodes(), 2, Abc(), 2, "GET", 1) == Insert(AbcUnserved(), 3, Abc(), 3, "GET", 1)
  {
    AbcLetters();
    InsertBNode();
    assert AbNodes()[2].children + [3] == [3];
    InsertNewLiteral(AbNodes(), 2, Abc(), 2, "GET", 1, AbcUnserved());
  }

  lemma InsertAbc()
    ensures Insert([Root], 0, Abc(), 0, "GET", 1) == Registered(AbcOnly(), true)
  {
    AbcLetters();
    InsertANode();
    InsertBNode();
    InsertCNode();
    UpperGetPost();
    InsertEnd(AbcUnserved(), 3, Abc(), "GET", 1, AbcOnly());
  }

  lemma RegisterAbc()
    ensures Register([Root], "GET", "/a/b/c", 1) == Registered(AbcOnly(), true)
  {
    SegmentsOfAbc();
    InsertAbc();
  }

  lemma InsertXNode()
    ensures WellFormed(AbcOnly()) && WellFormed(AbcAndX())
    ensures Insert(AbcOnly(), 0, Axd(), 0, "GET", 2) == Insert(AbcAndX(), 4, Axd(), 2, "GET", 2)
  {
    WellFormedAbcOnly();
    AbcLetters();
    var t := AbcOnly();
    assert FindLiteral(t, t[0].children, "a") == Some(1);
    InsertOldLiteral(t, 0, Axd(), 0, "GET", 2, 1);
    InsertNewParam(t, 1, Axd(), 1, "GET", 2, AbcAndX());
  }

  lemma InsertDNode()
    ensures WellFormed(AbcAndX()) && WellFormed(DivergingUnserved())
    ensures Insert(AbcAndX(), 4, Axd(), 2, "GET", 2) == Insert(DivergingUnserved(), 5, Axd(), 3, "GET", 2)
  {
    WellFormedAbcAndX();
    AbcLetters();
    assert AbcAndX()[4].children + [5] == [5];
    InsertNewLiteral(AbcAndX(), 4, Axd(), 2, "GET", 2, DivergingUnserved());
  }

  lemma InsertAxd()
    ensures WellFormed(AbcOnly())
    ensures Insert(AbcOnly(), 0, Axd(), 0, "GET", 2) == Registered(Diverging(), true)
  {
    AbcLetters();
    InsertXNode();
    InsertDNode();
    UpperGetPost();
    InsertEnd(DivergingUnserved(), 5, Axd(), "GET", 2, Diverging());
  }

  lemma RegisterAxd()
    ensures WellFormed(AbcOnly())
    ensures Register(AbcOnly(), "GET", "/a/:x/d", 2) == Registered(Diverging(), true)
  {
    SegmentsOfAxd();
    InsertAxd();
  }

  lemma DivergingShape()
    ensures WellFormed(Diverging())
    ensures FindLiteral(Diverging(), Diverging()[0].children, "a") == Some(1)
    ensures FindLiteral(Diverging(), Diverging()[1].children, "b") == Some(2)
    ensures forall k :: k in Diverging()[2].children ==> Diverging()[k].segment != "d"
    ensures Diverging()[2].paramChild.None? && Diverging()[2].catchAll.None?
  {
    WellFormedDiverging();
  }

  lemma WalkAbd(verb: string)
    ensures WellFormed(Diverging())
    ensures Walk(Diverging(), 0, Abd(), 0, map[], verb) == NoMatch
    ensures !Reaches(Diverging(), 0, Abd(), 0)
  {
    var t := Diverging();
    var segs := Abd();
    assert segs[0] == "a" && segs[1] == "b" && segs[2] == "d";
    DivergingShape();
    WalkLiteral(t, 0, segs, 0, map[], verb, 1);
    WalkLiteral(t, 1, segs, 1, map[], verb, 2);
    WalkStuck(t, 2, segs, 2, map[], verb);
  }

  lemma AbdNotFound(verb: string)
    ensures WellFormed(Diverging())
    ensures MatchOf(Diverging(), verb, "/a/b/d") == NoMatch
    ensures !PathExistsIn(Diverging(), "/a/b/d")
  {
    SegmentsOfAbd();
    WalkAbd(verb);
  }

  /** The walk never backtracks: once "b" is taken as a literal, /a/b/d is not tried
      against the parameter branch /a/:x/d, so it is not found for any method. */
  lemma NoBacktracking(verb: string)
    ensures Register([Root], "GET", "/a/b/c", 1).ok
    ensures Register(Register([Root], "GET", "/a/b/c", 1).nodes, "GET", "/a/:x/d", 2).ok
    ensures var t := Register(Register([Root], "GET", "/a/b/c", 1).nodes, "GET", "/a/:x/d", 2).nodes;
            && MatchOf(t, verb, "/a/b/d") == NoMatch
            && Dispatch(t, [], verb, "/a/b/d") == NotFound
  {
    RegisterAbc();
    RegisterAxd();
    AbdNotFound(verb);
  }

  // ---------------- GET /users/:id, then GET /users/:uid/posts

  /** The trie after GET /users/:id (handler 1) and GET /users/:uid/posts (handler 2). */
  function SharedParam(): seq<Node>
  {
    [Root.(children := [1]), Leaf("users").(paramChild := Some(2)),
     Leaf(":id").(children := [3], handlers := map["GET" := 1]), Leaf("posts").(handlers := map["GET" := 2])]
  }

  function UsersIdOnly(): seq<Node>
  {
    [Root.(children := [1]), Leaf("users").(paramChild := Some(2)), Leaf(":id").(handlers := map["GET" := 1])]
  }

  function UsersIdUnserved(): seq<Node>
  {
    [Root.(children := [1]), Leaf("users").(paramChild := Some(2)), Leaf(":id")]
  }

  function SharedParamUnserved(): seq<Node>
  {
    [Root.(children := [1]), Leaf("users").(paramChild := Some(2)),
     Leaf(":id").(children := [3], handlers := map["GET" := 1]), Leaf("posts")]
  }

  function UidPosts(): seq<string> { ["users", ":uid", "posts"] }
  function SevenPosts(): seq<string> { ["users", "7", "posts"] }

  lemma SpellsUidPosts() ensures Spells(UidPosts(), "/users/:uid/posts") {}
  lemma SpellsSevenPosts() ensures Spells(SevenPosts(), "/users/7/posts") {}

  lemma SegmentsOfUsersUidPosts()
    ensures SplitPath("/users/:uid/posts") == UidPosts()
  {
    SpellsUidPosts();
    SegmentsOf(UidPosts(), "/users/:uid/posts");
  }

  lemma SegmentsOfUsers7Posts()
    ensures SplitPath("/users/7/posts") == SevenPosts()
  {
    SpellsSevenPosts();
    SegmentsOf(SevenPosts(), "/users/7/posts");
  }

  lemma InsertUsersIdOnly()
    ensures Insert([Root], 0, ["users", ":id"], 0, "GET", 1) == Registered(UsersIdOnly(), true)
  {
    var segs := ["users", ":id"];
    assert segs[1] == ":id";
    InsertUsersNode(segs, 1);
    InsertNewParam(UsersNode(), 1, segs, 1, "GET", 1, UsersIdUnserved());
    UpperGetPost();
    InsertEnd(UsersIdUnserved(), 2, segs, "GET", 1, UsersIdOnly());
  }

  lemma RegisterUsersIdOnly()
    ensures Register([Root], "GET", "/users/:id", 1) == Registered(UsersIdOnly(), true)
  {
    SegmentsOfUsersId();
    InsertUsersIdOnly();
  }

  lemma InsertPostsHead()
    ensures WellFormed(UsersIdOnly())
    ensures Insert(UsersIdOnly(), 0, UidPosts(), 0, "GET", 2) == Insert(UsersIdOnly(), 2, UidPosts(), 2, "GET", 2)
  {
    WellFormedUsersIdOnly();
    var t := UsersIdOnly();
    var segs := UidPosts();
    assert segs[0] == "users" && segs[1] == ":uid";
    assert FindLiteral(t, t[0].children, "users") == Some(1);
    InsertOldLiteral(t, 0, segs, 0, "GET", 2, 1);
    InsertOldParam(t, 1, segs, 1, "GET", 2, 2);
  }

  lemma InsertPostsNode()
    ensures WellFormed(UsersIdOnly()) && WellFormed(SharedParamUnserved())
    ensures Insert(UsersIdOnly(), 2, UidPosts(), 2, "GET", 2) == Insert(SharedParamUnserved(), 3, UidPosts(), 3, "GET", 2)
  {
    WellFormedUsersIdOnly();
    var segs := UidPosts();
    assert segs[2] == "posts";
    assert UsersIdOnly()[2].children + [3] == [3];
    InsertNewLiteral(UsersIdOnly(), 2, segs, 2, "GET", 2, SharedParamUnserved());
  }

  lemma InsertUidPosts()
    ensures WellFormed(UsersIdOnly())
    ensures Insert(UsersIdOnly(), 0, UidPosts(), 0, "GET", 2) == Registered(SharedParam(), true)
  {
    InsertPostsHead();
    InsertPostsNode();
    UpperGetPost();
    assert |UidPosts()| == 3;
    InsertEnd(SharedParamUnserved(), 3, UidPosts(), "GET", 2, SharedParam());
  }

  lemma RegisterUidPosts()
    ensures WellFormed(UsersIdOnly())
    ensures Register(UsersIdOnly(), "GET", "/users/:uid/posts", 2) == Registered(SharedParam(), true)
  {
    SegmentsOfUsersUidPosts();
    InsertUidPosts();
  }

  lemma SharedParamShape()
    ensures WellFormed(SharedParam())
    ensures FindLiteral(SharedParam(), SharedParam()[0].children, "users") == Some(1)
    ensures SharedParam()[1].children == [] && SharedParam()[1].paramChild == Some(2)
    ensures FindLiteral(SharedParam(), SharedParam()[2].children, "posts") == Some(3)
  {
    WellFormedSharedParam();
  }

  lemma WalkSevenPosts()
    ensures WellFormed(SharedParam())
    ensures Walk(SharedParam(), 0, SevenPosts(), 0, map[], "GET") == Matched(2, map["id" := "7"])
  {
    var t := SharedParam();
    var segs := SevenPosts();
    assert segs[0] == "users" && segs[1] == "7" && segs[2] == "posts";
    SharedParamShape();
    UpperGetPost();
    WalkLiteral(t, 0, segs, 0, map[], "GET", 1);
    assert TrimPrefix(":id", ":") == "id";
    WalkParam(t, 1, segs, 1, map[], "GET", 2, "id");
    WalkLiteral(t, 2, segs, 2, map["id" := "7"], "GET", 3);
  }

  lemma MatchSevenPosts()
    ensures WellFormed(SharedParam())
    ensures MatchOf(SharedParam(), "GET", "/users/7/posts") == Matched(2, map["id" := "7"])
  {
    SegmentsOfUsers7Posts();
    WalkSevenPosts();
  }

  /** A parameter at a position that already has one reuses that node: the second route's
      name uid is never bound, the first route's name id is. */
  lemma FirstParameterNameKept()
    ensures Register([Root], "GET", "/users/:id", 1).ok
    ensures Register(Register([Root], "GET", "/users/:id", 1).nodes, "GET", "/users/:uid/posts", 2).ok
    ensures var t := Register(Register([Root], "GET", "/users/:id", 1).nodes, "GET", "/users/:uid/posts", 2).nodes;
            MatchOf(t, "GET", "/users/7/posts") == Matched(2, map["id" := "7"])
  {
    RegisterUsersIdOnly();
    RegisterUidPosts();
    MatchSevenPosts();
  }
}
