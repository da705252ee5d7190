/** backend/routes/routes.go: the route table, with the middleware each route runs before its
    handler. Together with the middleware and the handlers' own author-or-admin checks it is
    the server's access policy. A request path is given as its segments ("/api/posts/3" is
    ["api", "posts", "3"]). */
module Routes {
  import opened Wrappers
  import opened Models
  import opened Middleware
  import PostManagement

  datatype Method = GET | POST | PUT | DELETE

  /** The literal path segments the table uses. */
  datatype Word =
    | api | auth | register | login | logout | posts | search | like | categories | tags | hot
    | comments | post | admin | approve | home | archive

  function Spelling(w: Word): string {
    match w
    case api => "api" case auth => "auth" case register => "register" case login => "login"
    case logout => "logout" case posts => "posts" case search => "search" case like => "like"
    case categories => "categories" case tags => "tags" case hot => "hot" case comments => "comments"
    case post => "post" case admin => "admin" case approve => "approve" case home => "home"
    case archive => "archive"
  }

  /** The word a request segment spells, if any. */
  function WordOf(s: string): (r: Option<Word>)
    ensures r.Some? ==> Spelling(r.value) == s
  {
    if s == "api" then Some(api)
    else if s == "auth" then Some(auth)
    else if s == "register" then Some(register)
    else if s == "login" then Some(login)
    else if s == "logout" then Some(logout)
    else if s == "posts" then Some(posts)
    else if s == "search" then Some(search)
    else if s == "like" then Some(like)
    else if s == "categories" then Some(categories)
    else if s == "tags" then Some(tags)
    else if s == "hot" then Some(hot)
    else if s == "comments" then Some(comments)
    else if s == "post" then Some(post)
    else if s == "admin" then Some(admin)
    else if s == "approve" then Some(approve)
    else if s == "home" then Some(home)
    else if s == "archive" then Some(archive)
    else None
  }

  /** Each word is read back from its spelling, so a segment matches `Lit(w)` exactly when it
      is spelled as w. */
  lemma SpellingRoundTrip(w: Word)
    ensures WordOf(Spelling(w)) == Some(w)
  {
  }

  /** A pattern segment: a literal, or a `:name` parameter that matches one non-empty segment. */
  datatype Segment = Lit(w: Word) | Param

  /** A request segment as the router sees it: one of the table's words, or other text. */
  datatype Token = Known(w: Word) | Unknown(blank: bool)

  function Scan(s: string): (t: Token)
    ensures t.Known? ==> Spelling(t.w) == s
    ensures t.Unknown? ==> (t.blank <==> s == "")
  {
    match WordOf(s)
    case Some(w) => Known(w)
    case None => Unknown(s == "")
  }

  function Tokens(path: seq<string>): (r: seq<Token>)
    ensures |r| == |path| && forall i | 0 <= i < |path| :: r[i] == Scan(path[i])
  {
    seq(|path|, i requires 0 <= i < |path| => Scan(path[i]))
  }

  datatype Guard = JwtGuard | AdminGuard

  /** The handlers of the api package, routed or not. A name declared twice in the package
      stands for the version in its resource's own file (Post for LikePost and SearchPosts,
      Category and Tag for theirs); the copies in post_management.go are reached by no route. */
  datatype Handler =
    | Register | Login | Logout
    | GetPosts | SearchPosts | GetPost | LikePost | CreatePost | UpdatePost | DeletePost
    | GetCategories | GetHotCategories | GetCategory | CreateCategory | UpdateCategory | DeleteCategory
    | GetTags | GetHotTags | GetTag | CreateTag | UpdateTag | DeleteTag
    | AddComment | ApproveComment | GetPostComments | DeleteComment | GetPendingComments
    | GetHomePageData | GetArchiveData
    | GetUsers | GetUser | UpdateUser | DeleteUser

  datatype Route = Route(verb: Method, path: seq<Segment>, chain: seq<Guard>, handler: Handler)

  const Jwt: seq<Guard> := [JwtGuard]
  const JwtAdmin: seq<Guard> := [JwtGuard, AdminGuard]

  /** registerAuthRoutes. */
  const AuthRoutes: seq<Route> := [
    Route(POST, [Lit(api), Lit(auth), Lit(register)], [], Register),
    Route(POST, [Lit(api), Lit(auth), Lit(login)], [], Login),
    Route(POST, [Lit(api), Lit(auth), Lit(logout)], [], Logout)
  ]

  /** registerPostRoutes: the admin group adds its middleware to the "/posts" prefix. */
  const PostRoutes: seq<Route> := [
    Route(GET, [Lit(api), Lit(posts)], [], GetPosts),
    Route(GET, [Lit(api), Lit(posts), Lit(search)], [], SearchPosts),
    Route(GET, [Lit(api), Lit(posts), Param], [], GetPost),
    Route(POST, [Lit(api), Lit(posts), Param, Lit(like)], Jwt, LikePost),
    Route(POST, [Lit(api), Lit(posts)], JwtAdmin, CreatePost),
    Route(PUT, [Lit(api), Lit(posts), Param], JwtAdmin, UpdatePost),
    Route(DELETE, [Lit(api), Lit(posts), Param], JwtAdmin, DeletePost)
  ]

  const CategoryRoutes: seq<Route> := [
    Route(GET, [Lit(api), Lit(categories)], [], GetCategories),
    Route(GET, [Lit(api), Lit(categories), Lit(hot)], [], GetHotCategories),
    Route(GET, [Lit(api), Lit(categories), Param], [], GetCategory),
    Route(POST, [Lit(api), Lit(categories)], JwtAdmin, CreateCategory),
    Route(PUT, [Lit(api), Lit(categories), Param], JwtAdmin, UpdateCategory),
    Route(DELETE, [Lit(api), Lit(categories), Param], JwtAdmin, DeleteCategory)
  ]

  const TagRoutes: seq<Route> := [
    Route(GET, [Lit(api), Lit(tags)], [], GetTags),
    Route(GET, [Lit(api), Lit(tags), Lit(hot)], [], GetHotTags),
    Route(GET, [Lit(api), Lit(tags), Param], [], GetTag),
    Route(POST, [Lit(api), Lit(tags)], JwtAdmin, CreateTag),
    Route(PUT, [Lit(api), Lit(tags), Param], JwtAdmin, UpdateTag),
    Route(DELETE, [Lit(api), Lit(tags), Param], JwtAdmin, DeleteTag)
  ]

  /** registerCommentRoutes: the approval group is "/admin/comments", beside "/comments". */
  const CommentRoutes: seq<Route> := [
    Route(POST, [Lit(api), Lit(comments), Lit(post), Param], Jwt, AddComment),
    Route(PUT, [Lit(api), Lit(admin), Lit(comments), Param, Lit(approve)], JwtAdmin, ApproveComment)
  ]

  const MiscRoutes: seq<Route> := [
    Route(GET, [Lit(api), Lit(home)], [], GetHomePageData),
    Route(GET, [Lit(api), Lit(archive)], [], GetArchiveData)
  ]

  /** Every registration of RegisterRoutes, under the "/api" group. */
  const Table: seq<Route> := AuthRoutes + PostRoutes + CategoryRoutes + TagRoutes + CommentRoutes + MiscRoutes

  /** The handlers that write content: each sits behind JWTAuth and AdminAuth. */
  predicate Managing(h: Handler) {
    h.CreatePost? || h.UpdatePost? || h.DeletePost? || h.CreateCategory? || h.UpdateCategory?
    || h.DeleteCategory? || h.CreateTag? || h.UpdateTag? || h.DeleteTag? || h.ApproveComment?
  }

  predicate Unrouted(h: Handler) {
    h.GetPostComments? || h.DeleteComment? || h.GetPendingComments?
    || h.GetUsers? || h.GetUser? || h.UpdateUser? || h.DeleteUser?
  }

  /** A literal matches its own word; a parameter matches any non-empty segment. */
  predicate SegmentMatches(p: Segment, t: Token) {
    if p.Lit? then t == Known(p.w) else t != Unknown(true)
  }

  predicate Matches(pattern: seq<Segment>, toks: seq<Token>)
    decreases |pattern|
  {
    |pattern| == |toks|
    && (pattern != [] ==> SegmentMatches(pattern[0], toks[0]) && Matches(pattern[1..], toks[1..]))
  }

  /** The router's preference: at the first position where two patterns differ in kind, the
      literal segment wins. */
  predicate Precedes(a: seq<Segment>, b: seq<Segment>)
    decreases |a|
  {
    if a == [] || b == [] then true
    else if a[0].Lit? && b[0].Param? then true
    else if a[0].Param? && b[0].Lit? then false
    else Precedes(a[1..], b[1..])
  }

  lemma {:induction false} PrecedesTotal(a: seq<Segment>, b: seq<Segment>)
    ensures Precedes(a, b) || Precedes(b, a)
    decreases |a|
  {
    if a != [] && b != [] && a[0].Lit? == b[0].Lit? {
      PrecedesTotal(a[1..], b[1..]);
    }
  }

  lemma {:induction false} PrecedesTransitive(a: seq<Segment>, b: seq<Segment>, c: seq<Segment>)
    requires |a| == |b| == |c| && Precedes(a, b) && Precedes(b, c)
    ensures Precedes(a, c)
    decreases |a|
  {
    if a != [] && a[0].Lit? == b[0].Lit? && b[0].Lit? == c[0].Lit? {
      PrecedesTransitive(a[1..], b[1..], c[1..]);
    }
  }

  lemma {:induction false} PrecedesReflexive(a: seq<Segment>)
    ensures Precedes(a, a)
    decreases |a|
  {
    if a != [] {
      PrecedesReflexive(a[1..]);
    }
  }

  predicate Serves(t: Route, m: Method, path: seq<Token>) {
    t.verb == m && Matches(t.path, path)
  }

  lemma {:induction false} ServesSameLength(t: Route, m: Method, path: seq<Token>)
    requires Serves(t, m, path)
    ensures |t.path| == |path|
  {
  }

  /** The serving route of `table` that the router prefers over every other serving route. */
  function Pick(table: seq<Route>, m: Method, path: seq<Token>): (r: Option<Route>)
    ensures r.Some? ==> r.value in table && Serves(r.value, m, path)
    ensures r.Some? ==> forall t | t in table && Serves(t, m, path) :: Precedes(r.value.path, t.path)
    ensures r.None? ==> forall t | t in table :: !Serves(t, m, path)
    decreases |table|
  {
    if table == [] then None
    else
      var rest := Pick(table[1..], m, path);
      assert forall t | t in table :: t == table[0] || t in table[1..];
      if !Serves(table[0], m, path) then rest
      else if rest.None? then
        PrecedesReflexive(table[0].path);
        Some(table[0])
      else if Precedes(table[0].path, rest.value.path) then
        PrecedesReflexive(table[0].path);
        forall t | t in table[1..] && Serves(t, m, path) ensures Precedes(table[0].path, t.path) {
          ServesSameLength(t, m, path);
          ServesSameLength(table[0], m, path);
          ServesSameLength(rest.value, m, path);
          PrecedesTransitive(table[0].path, rest.value.path, t.path);
        }
        Some(table[0])
      else
        PrecedesTotal(table[0].path, rest.value.path);
        rest
  }

  /** The route serving a request; None is the router's 404. */
  function Resolve(m: Method, path: seq<Token>): (r: Option<Route>)
    ensures r.Some? ==> r.value in Table && Serves(r.value, m, path)
    ensures r.Some? ==> forall t | t in Table && Serves(t, m, path) :: Precedes(r.value.path, t.path)
    ensures r.None? <==> forall t | t in Table :: !Serves(t, m, path)
  {
    Pick(Table, m, path)
  }

  /** The middleware chain: each guard runs on the context the previous one left; the first
      Abort ends the chain. */
  function RunChain(chain: seq<Guard>, ctx: Context, db: Db, header: string, verify: string -> Parsed, fails: Faults): (s: Step)
    requires Dense(db.users)
    ensures chain == [] ==> s == Next(ctx)
    ensures chain != [] && chain[0] == JwtGuard && JWTAuth(ctx, db, header, verify, fails).Abort? ==>
      s == JWTAuth(ctx, db, header, verify, fails)
    decreases |chain|
  {
    if chain == [] then Next(ctx)
    else
      var step := if chain[0] == JwtGuard then JWTAuth(ctx, db, header, verify, fails) else AdminAuth(ctx);
      match step
      case Abort(resp) => Abort(resp)
      case Next(c) => RunChain(chain[1..], c, db, header, verify, fails)
  }

  datatype Access = NoRoute | Denied(resp: Response) | Admitted(handler: Handler, ctx: Context)

  /** What the server does with a request before any handler logic: find the route, run its
      chain, and hand the context to the handler only if no guard aborted. */
  function AccessOf(m: Method, path: seq<string>, header: string, db: Db, verify: string -> Parsed, fails: Faults): (a: Access)
    requires Dense(db.users)
    ensures a.NoRoute? <==> Resolve(m, Tokens(path)).None?
    ensures a.Admitted? ==> Resolve(m, Tokens(path)).Some? && a.handler == Resolve(m, Tokens(path)).value.handler
  {
    match Resolve(m, Tokens(path))
    case None => NoRoute
    case Some(r) =>
      match RunChain(r.chain, EmptyContext, db, header, verify, fails)
      case Abort(resp) => Denied(resp)
      case Next(ctx) => Admitted(r.handler, ctx)
  }

  // ---------------------------------------------------------------- the policy

  /** A route of the table comes from one of the register functions. */
  lemma InTable(t: Route)
    requires t in Table
    ensures t in AuthRoutes || t in PostRoutes || t in CategoryRoutes || t in TagRoutes || t in CommentRoutes || t in MiscRoutes
  {
  }

  lemma AllUnderApi()
    ensures forall t | t in Table :: |t.path| >= 2 && t.path[0] == Lit(api)
  {
    forall t | t in Table ensures |t.path| >= 2 && t.path[0] == Lit(api) {
      InTable(t);
    }
  }

  /** The middleware a route runs is fixed by its handler. */
  predicate Guarded(t: Route) {
    (Managing(t.handler) <==> t.chain == JwtAdmin)
    && ((t.handler.LikePost? || t.handler.AddComment?) <==> t.chain == Jwt)
    && (t.verb == GET ==> t.chain == [])
  }

  lemma ContentGuarded()
    ensures forall i | 0 <= i < |PostRoutes| :: Guarded(PostRoutes[i])
    ensures forall i | 0 <= i < |CategoryRoutes| :: Guarded(CategoryRoutes[i])
    ensures forall i | 0 <= i < |TagRoutes| :: Guarded(TagRoutes[i])
  {
  }

  lemma RestGuarded()
    ensures forall i | 0 <= i < |AuthRoutes| :: Guarded(AuthRoutes[i]) && AuthRoutes[i].chain == []
    ensures forall i | 0 <= i < |CommentRoutes| :: Guarded(CommentRoutes[i])
    ensures forall i | 0 <= i < |MiscRoutes| :: Guarded(MiscRoutes[i])
  {
  }

  /** Writes need an admin, liking and commenting a login, and every GET and the auth routes
      nothing. */
  lemma GuardsByHandler()
    ensures forall t | t in Table :: Managing(t.handler) <==> t.chain == JwtAdmin
    ensures forall t | t in Table :: (t.handler.LikePost? || t.handler.AddComment?) <==> t.chain == Jwt
    ensures forall t | t in Table :: t.verb == GET ==> t.chain == []
    ensures forall t | t in AuthRoutes :: t.chain == []
  {
    ContentGuarded();
    RestGuarded();
    forall t | t in Table ensures Guarded(t) {
      InTable(t);
    }
  }

  /** A request no register function serves has no route. */
  lemma NoneServes(m: Method, path: seq<Token>)
    requires forall t | t in AuthRoutes :: !Serves(t, m, path)
    requires forall t | t in PostRoutes :: !Serves(t, m, path)
    requires forall t | t in CategoryRoutes :: !Serves(t, m, path)
    requires forall t | t in TagRoutes :: !Serves(t, m, path)
    requires forall t | t in CommentRoutes :: !Serves(t, m, path)
    requires forall t | t in MiscRoutes :: !Serves(t, m, path)
    ensures Resolve(m, path).None?
  {
    forall t | t in Table ensures !Serves(t, m, path) {
      InTable(t);
    }
  }

  /** A request exactly one route serves goes to that route. */
  lemma OnlyServer(m: Method, path: seq<Token>, t: Route)
    requires t in Table && Serves(t, m, path)
    requires forall u | u in AuthRoutes && Serves(u, m, path) :: u == t
    requires forall u | u in PostRoutes && Serves(u, m, path) :: u == t
    requires forall u | u in CategoryRoutes && Serves(u, m, path) :: u == t
    requires forall u | u in TagRoutes && Serves(u, m, path) :: u == t
    requires forall u | u in CommentRoutes && Serves(u, m, path) :: u == t
    requires forall u | u in MiscRoutes && Serves(u, m, path) :: u == t
    ensures Resolve(m, path) == Some(t)
  {
    InTable(Resolve(m, path).value);
  }

  /** Comment listing and deletion, the pending queue and the user handlers have no route. */
  lemma UnroutedHandlers()
    ensures forall t | t in Table :: !Unrouted(t.handler)
  {
    forall t | t in Table ensures !Unrouted(t.handler) {
      InTable(t);
    }
  }

  lemma AuthUserUnserved()
    ensures Resolve(GET, [Known(api), Known(auth), Unknown(false)]).None?
  {
    NoneServes(GET, [Known(api), Known(auth), Unknown(false)]);
  }

  /** The client's `GET /auth/user` is answered by the router's 404. */
  lemma NoCurrentUserRoute()
    ensures Resolve(GET, Tokens(["api", "auth", "user"])).None?
  {
    assert Tokens(["api", "auth", "user"]) == [Known(api), Known(auth), Unknown(false)];
    AuthUserUnserved();
  }

  lemma CommentListUnserved(id: Token)
    ensures Resolve(GET, [Known(api), Known(posts), id, Known(comments)]).None?
  {
    NoneServes(GET, [Known(api), Known(posts), id, Known(comments)]);
  }

  /** So is its `GET /posts/:id/comments`. */
  lemma NoCommentListRoute(id: string)
    ensures Resolve(GET, Tokens(["api", "posts", id, "comments"])).None?
  {
    assert Tokens(["api", "posts", id, "comments"]) == [Known(api), Known(posts), Scan(id), Known(comments)];
    CommentListUnserved(Scan(id));
  }

  lemma CommentDeleteUnserved(id: Token)
    ensures Resolve(DELETE, [Known(api), Known(comments), id]).None?
  {
    NoneServes(DELETE, [Known(api), Known(comments), id]);
  }

  /** And its `DELETE /comments/:id`. */
  lemma NoCommentDeleteRoute(id: string)
    ensures Resolve(DELETE, Tokens(["api", "comments", id])).None?
  {
    assert Tokens(["api", "comments", id]) == [Known(api), Known(comments), Scan(id)];
    CommentDeleteUnserved(Scan(id));
  }

  /** The `:id` routes beside "search" and "hot" match those requests too. */
  lemma IdsMatchLiterals()
    ensures Serves(PostRoutes[2], GET, Tokens(["api", "posts", "search"]))
    ensures Serves(CategoryRoutes[2], GET, Tokens(["api", "categories", "hot"]))
    ensures Serves(TagRoutes[2], GET, Tokens(["api", "tags", "hot"]))
  {
    SpelledWords(api, posts, search);
    SpelledWords(api, categories, hot);
    SpelledWords(api, tags, hot);
  }

  lemma SpelledWords(a: Word, b: Word, c: Word)
    ensures Tokens([Spelling(a), Spelling(b), Spelling(c)]) == [Known(a), Known(b), Known(c)]
  {
    SpellingRoundTrip(a);
    SpellingRoundTrip(b);
    SpellingRoundTrip(c);
  }

  /** Yet the literal "search" and "hot" routes win. */
  lemma LiteralsBeforeIds()
    ensures Resolve(GET, Tokens(["api", "posts", "search"])).Some?
    ensures Resolve(GET, Tokens(["api", "posts", "search"])).value.handler == SearchPosts
    ensures Resolve(GET, Tokens(["api", "categories", "hot"])).Some?
    ensures Resolve(GET, Tokens(["api", "categories", "hot"])).value.handler == GetHotCategories
    ensures Resolve(GET, Tokens(["api", "tags", "hot"])).Some?
    ensures Resolve(GET, Tokens(["api", "tags", "hot"])).value.handler == GetHotTags
  {
    assert Tokens(["api", "posts", "search"]) == Fill(PostRoutes[1].path);
    assert Tokens(["api", "categories", "hot"]) == Fill(CategoryRoutes[1].path);
    assert Tokens(["api", "tags", "hot"]) == Fill(TagRoutes[1].path);
    Reachable(PostRoutes[1]);
    Reachable(CategoryRoutes[1]);
    Reachable(TagRoutes[1]);
  }

  /** The request a pattern stands for: its literals spelled out, and a plain id (neither
      empty nor a word of the table) in place of each parameter. */
  function Fill(p: seq<Segment>): (r: seq<Token>)
    ensures |r| == |p|
    ensures forall i | 0 <= i < |p| :: r[i] == (if p[i].Lit? then Known(p[i].w) else Unknown(false))
  {
    seq(|p|, i requires 0 <= i < |p| => if p[i].Lit? then Known(p[i].w) else Unknown(false))
  }

  /** Pattern `a` agrees with `p` except where it has a parameter in place of a literal. */
  predicate Generalises(a: seq<Segment>, p: seq<Segment>) {
    |a| == |p| && forall i | 0 <= i < |a| :: a[i] == p[i] || (a[i].Param? && p[i].Lit?)
  }

  lemma {:induction false} FillMatches(p: seq<Segment>)
    ensures Matches(p, Fill(p))
    decreases |p|
  {
    if p != [] {
      assert Fill(p)[1..] == Fill(p[1..]);
      FillMatches(p[1..]);
    }
  }

  /** The patterns that match the request a pattern stands for are that pattern with some
      literals turned into parameters. */
  lemma {:induction false} MatchesFill(a: seq<Segment>, p: seq<Segment>)
    requires Matches(a, Fill(p))
    ensures Generalises(a, p)
    decreases |p|
  {
    if p != [] {
      assert Fill(p)[1..] == Fill(p[1..]);
      MatchesFill(a[1..], p[1..]);
      forall i | 0 <= i < |a| ensures a[i] == p[i] || (a[i].Param? && p[i].Lit?) {
        if i > 0 {
          assert a[1..][i - 1] == a[i] && p[1..][i - 1] == p[i];
        }
      }
    }
  }

  /** Of a pattern and one that generalises it, only the pattern itself comes first. */
  lemma {:induction false} PrecedesGeneralised(a: seq<Segment>, p: seq<Segment>)
    requires Generalises(a, p) && Precedes(a, p)
    ensures a == p
    decreases |p|
  {
    if p != [] {
      assert Generalises(a[1..], p[1..]) by {
        forall i | 0 <= i < |a| - 1 ensures a[1..][i] == p[1..][i] || (a[1..][i].Param? && p[1..][i].Lit?) {
          assert a[1..][i] == a[i + 1] && p[1..][i] == p[i + 1];
        }
      }
      PrecedesGeneralised(a[1..], p[1..]);
      assert a == [a[0]] + a[1..] && p == [p[0]] + p[1..];
    }
  }

  /** A route is picked for the request it stands for, as long as no other route of the table has
      its method and pattern. */
  lemma RouteWins(table: seq<Route>, t: Route)
    requires t in table
    requires forall u | u in table && u.verb == t.verb && u.path == t.path :: u == t
    ensures Pick(table, t.verb, Fill(t.path)) == Some(t)
  {
    var path := Fill(t.path);
    FillMatches(t.path);
    var r := Pick(table, t.verb, path).value;
    MatchesFill(r.path, t.path);
    PrecedesGeneralised(r.path, t.path);
  }

  /** No two routes of `g` share a method and a pattern (Hertz refuses such a table). */
  predicate Distinct(g: seq<Route>) {
    forall i, j | 0 <= i < j < |g| :: g[i].verb != g[j].verb || g[i].path != g[j].path
  }

  /** Every route of `g` sits under "/api/<w>" for a w in `ws`. */
  predicate Under(g: seq<Route>, ws: set<Word>) {
    forall i | 0 <= i < |g| :: |g[i].path| >= 2 && g[i].path[1].Lit? && g[i].path[1].w in ws
  }

  lemma DistinctAppend(a: seq<Route>, b: seq<Route>, wa: set<Word>, wb: set<Word>)
    requires Distinct(a) && Distinct(b) && Under(a, wa) && Under(b, wb) && wa !! wb
    ensures Distinct(a + b) && Under(a + b, wa + wb)
  {
    var ab := a + b;
    forall i, j | 0 <= i < j < |ab| ensures ab[i].verb != ab[j].verb || ab[i].path != ab[j].path {
      if i < |a| && j >= |a| {
        assert ab[i] == a[i] && ab[j] == b[j - |a|];
        assert ab[i].path[1].w in wa && ab[j].path[1].w in wb;
      } else if j < |a| {
        assert ab[i] == a[i] && ab[j] == a[j];
      } else {
        assert ab[i] == b[i - |a|] && ab[j] == b[j - |a|];
      }
    }
    forall i | 0 <= i < |ab| ensures |ab[i].path| >= 2 && ab[i].path[1].Lit? && ab[i].path[1].w in wa + wb {
      if i < |a| { assert ab[i] == a[i]; } else { assert ab[i] == b[i - |a|]; }
    }
  }

  lemma ContentDistinct()
    ensures Distinct(PostRoutes) && Under(PostRoutes, {posts})
    ensures Distinct(CategoryRoutes) && Under(CategoryRoutes, {categories})
    ensures Distinct(TagRoutes) && Under(TagRoutes, {tags})
  {
  }

  lemma RestDistinct()
    ensures Distinct(AuthRoutes) && Under(AuthRoutes, {auth})
    ensures Distinct(CommentRoutes) && Under(CommentRoutes, {comments, admin})
    ensures Distinct(MiscRoutes) && Under(MiscRoutes, {home, archive})
  {
  }

  /** The six register functions never register a method and pattern twice. */
  lemma TableDistinct()
    ensures Distinct(Table)
  {
    ContentDistinct();
    RestDistinct();
    DistinctAppend(AuthRoutes, PostRoutes, {auth}, {posts});
    DistinctAppend(AuthRoutes + PostRoutes, CategoryRoutes, {auth, posts}, {categories});
    DistinctAppend(AuthRoutes + PostRoutes + CategoryRoutes, TagRoutes, {auth, posts, categories}, {tags});
    DistinctAppend(AuthRoutes + PostRoutes + CategoryRoutes + TagRoutes, CommentRoutes,
                   {auth, posts, categories, tags}, {comments, admin});
    DistinctAppend(AuthRoutes + PostRoutes + CategoryRoutes + TagRoutes + CommentRoutes, MiscRoutes,
                   {auth, posts, categories, tags, comments, admin}, {home, archive});
  }

  /** Every route of the table is reachable: the request it stands for is routed to it, even
      where a more general route matches that request too. */
  lemma Reachable(t: Route)
    requires t in Table
    ensures Resolve(t.verb, Fill(t.path)) == Some(t)
  {
    TableDistinct();
    forall u | u in Table && u.verb == t.verb && u.path == t.path ensures u == t {
      var i :| 0 <= i < |Table| && Table[i] == u;
      var j :| 0 <= j < |Table| && Table[j] == t;
      assert !(i < j) && !(j < i);
    }
    RouteWins(Table, t);
  }

  /** A request path spells pattern `p`: its literals written out, and in place of each
      parameter a segment that is neither empty nor a word of the table. */
  predicate Spells(path: seq<string>, p: seq<Segment>) {
    |path| == |p| && forall i | 0 <= i < |p| ::
      if p[i].Lit? then path[i] == Spelling(p[i].w) else path[i] != "" && WordOf(path[i]).None?
  }

  lemma SpelledFill(path: seq<string>, p: seq<Segment>)
    requires Spells(path, p)
    ensures Tokens(path) == Fill(p)
  {
    forall i | 0 <= i < |p| ensures Tokens(path)[i] == Fill(p)[i] {
      if p[i].Lit? {
        SpellingRoundTrip(p[i].w);
      }
    }
  }

  /** A route of one of the register functions is a route of the table. */
  predicate Registered(t: Route) {
    t in AuthRoutes || t in PostRoutes || t in CategoryRoutes || t in TagRoutes || t in CommentRoutes || t in MiscRoutes
  }

  lemma RegisteredInTable(t: Route)
    requires Registered(t)
    ensures t in Table
  {
    var a, b, c, d, e := AuthRoutes, AuthRoutes + PostRoutes, AuthRoutes + PostRoutes + CategoryRoutes,
      AuthRoutes + PostRoutes + CategoryRoutes + TagRoutes, AuthRoutes + PostRoutes + CategoryRoutes + TagRoutes + CommentRoutes;
    assert t in e || t in MiscRoutes;
  }

  /** A request that spells a route's pattern, with that route's method, reaches that route. */
  lemma Reached(t: Route, path: seq<string>)
    requires Registered(t) && Spells(path, t.path)
    ensures Resolve(t.verb, Tokens(path)) == Some(t)
  {
    RegisteredInTable(t);
    SpelledFill(path, t.path);
    Reachable(t);
  }

  /** What the admin chain leaves in the context when it lets a request through. */
  lemma AdminChainFacts(db: Db, header: string, verify: string -> Parsed, fails: Faults)
    requires Dense(db.users) && RunChain(JwtAdmin, EmptyContext, db, header, verify, fails).Next?
    ensures var ctx := RunChain(JwtAdmin, EmptyContext, db, header, verify, fails).ctx;
      ctx.userId.Some? && Lookup(db.users, ctx.userId.value).Some?
      && ctx.user == Some(UserValue(Lookup(db.users, ctx.userId.value).value))
      && db.RoleOf(ctx.userId.value) == AdminRole
  {
    var s := JWTAuth(EmptyContext, db, header, verify, fails);
    assert JwtAdmin[1..] == [AdminGuard];
    assert s.Next?;
    AdminChain(db, header, verify, fails);
  }

  /** The login chain is JWTAuth alone. */
  lemma LoginChainFacts(db: Db, header: string, verify: string -> Parsed, fails: Faults)
    requires Dense(db.users)
    ensures RunChain(Jwt, EmptyContext, db, header, verify, fails) == JWTAuth(EmptyContext, db, header, verify, fails)
  {
    assert Jwt[1..] == [];
  }

  /** An admitted request to a managing handler carries a live admin user. */
  lemma AdmittedManagerIsAdmin(m: Method, path: seq<string>, header: string, db: Db, verify: string -> Parsed, fails: Faults)
    requires Dense(db.users)
    requires AccessOf(m, path, header, db, verify, fails).Admitted?
    requires Managing(AccessOf(m, path, header, db, verify, fails).handler)
    ensures var ctx := AccessOf(m, path, header, db, verify, fails).ctx;
      ctx.userId.Some? && Lookup(db.users, ctx.userId.value).Some?
      && ctx.user == Some(UserValue(Lookup(db.users, ctx.userId.value).value))
      && db.RoleOf(ctx.userId.value) == AdminRole
  {
    var r := Resolve(m, Tokens(path)).value;
    GuardsByHandler();
    assert r.chain == JwtAdmin;
    AdminChainFacts(db, header, verify, fails);
  }

  /** A public route admits every request, with or without a header. */
  lemma PublicAdmitsAll(m: Method, path: seq<string>, header: string, db: Db, verify: string -> Parsed, fails: Faults)
    requires Dense(db.users) && Resolve(m, Tokens(path)).Some? && Resolve(m, Tokens(path)).value.chain == []
    ensures AccessOf(m, path, header, db, verify, fails) == Admitted(Resolve(m, Tokens(path)).value.handler, EmptyContext)
  {
  }

  /** Liking a post and commenting need a token that names a live user; nothing else. */
  lemma LoginRoutesNeedUser(m: Method, path: seq<string>, header: string, db: Db, verify: string -> Parsed, fails: Faults)
    requires Dense(db.users) && Resolve(m, Tokens(path)).Some? && Resolve(m, Tokens(path)).value.chain == Jwt
    ensures AccessOf(m, path, header, db, verify, fails).Admitted? <==> JWTAuth(EmptyContext, db, header, verify, fails).Next?
  {
    LoginChainFacts(db, header, verify, fails);
  }

  /** Through the routes, the handlers' author-or-admin check never refuses: UpdatePost and
      DeletePost are reached only by admins, whose role the handler reads again. */
  lemma RoutedEditorMayEdit(m: Method, path: seq<string>, header: string, db: Db, verify: string -> Parsed,
                            fails: Faults, post: Row<PostFields>)
    requires Dense(db.users) && FetchRole !in fails
    requires AccessOf(m, path, header, db, verify, fails).Admitted?
    requires AccessOf(m, path, header, db, verify, fails).handler.UpdatePost?
             || AccessOf(m, path, header, db, verify, fails).handler.DeletePost?
    ensures var ctx := AccessOf(m, path, header, db, verify, fails).ctx;
      ctx.userId.Some? && PostManagement.MayEdit(db, post, ctx.userId.value, fails)
  {
    AdmittedManagerIsAdmin(m, path, header, db, verify, fails);
  }
}
