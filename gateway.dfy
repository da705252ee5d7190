/** frontend/src/api/index.js: the axios instance every page talks to the server through. Its
    request interceptor attaches the stored token, its response interceptor unwraps bodies and
    drops the token on a 401, logout drops it always, and the helpers fix each call's method and
    path under the base URL `http://localhost:8080/api`. The server itself is a parameter: a
    function from the request that leaves the browser to what comes back. */
module Gateway {
  import opened Wrappers
  import opened Text
  import opened Json
  import Models
  import Middleware
  import Routes

  const AuthHeader := "Authorization"
  const LoginPath := "/login"

  /** A request as it leaves the browser: the path in segments, base URL included ("api"
      first), the query parameters, the headers and the JSON body (`undefined` for none). */
  datatype Request = Request(verb: Routes.Method, path: seq<string>, params: Json, headers: map<string, string>, body: Json)

  /** The method, path, parameters and body a helper fixes, before the interceptor runs. */
  datatype Call = Call(verb: Routes.Method, path: seq<string>, params: Json, body: Json)

  /** An HTTP answer: the status and the decoded body. */
  datatype Reply = Reply(status: int, data: Json)

  /** What comes back for a request: an answer, or none at all (network error, timeout). */
  datatype Delivery = Got(reply: Reply) | Lost

  /** A rejection reason: an axios error, with the answer when there was one, or a TypeError
      the page's own code throws. */
  datatype Failure = AxiosError(response: Option<Reply>) | TypeError
  {
    /** `error.response?.data?.message`. */
    function Message(): (m: Json)
      ensures this.AxiosError? && response.Some? ==> m == response.value.data.OptGet("message")
      ensures !(this.AxiosError? && response.Some?) ==> m == Undefined
    {
      if this.AxiosError? && response.Some? then response.value.data.OptGet("message") else Undefined
    }
  }

  /** How the promise a helper returns settles. */
  datatype Settled = Resolved(value: Json) | Rejected(error: Failure)

  /** The helpers of authAPI, postAPI, categoryAPI, tagAPI and miscAPI. Ids are the strings the
      pages take from the URL. */
  datatype ApiCall =
    | LoginCall(username: string, password: string) | RegisterCall(userData: Json) | GetCurrentUser | LogoutCall
    | GetAllPosts(postParams: Json) | GetPostById(postId: string) | CreatePost(postData: Json)
    | UpdatePost(postId: string, postData: Json) | DeletePost(postId: string)
    | AddComment(postId: string, content: string) | GetComments(postId: string) | DeleteComment(commentId: string)
    | GetHotCategories(categoryParams: Json) | GetAllCategories | GetCategoryById(categoryId: string)
    | CreateCategory(categoryData: Json) | UpdateCategory(categoryId: string, categoryData: Json) | DeleteCategory(categoryId: string)
    | GetHotTags(tagParams: Json) | GetAllTags | GetTagById(tagId: string)
    | CreateTag(tagData: Json) | UpdateTag(tagId: string, tagData: Json) | DeleteTag(tagId: string)
    | GetHomePageData | GetArchiveData

  function Field(key: string, v: Json): Json {
    Obj(map[key := v])
  }

  /** The endpoint table: one request per helper, at a fixed method and path. */
  function Endpoint(c: ApiCall): (e: Call)
    ensures |e.path| >= 2 && e.path[0] == "api"
    ensures e.verb == Routes.GET ==> e.body == Undefined
    ensures c.AddComment? ==> e == Call(Routes.POST, ["api", "comments", "post", c.postId], Undefined, Field("content", Str(c.content)))
    ensures c.LoginCall? ==>
      e.verb == Routes.POST && e.path == ["api", "auth", "login"]
      && e.body == Obj(map["username" := Str(c.username), "password" := Str(c.password)])
  {
    match c
    case LoginCall(u, p) => Call(Routes.POST, ["api", "auth", "login"], Undefined, Obj(map["username" := Str(u), "password" := Str(p)]))
    case RegisterCall(d) => Call(Routes.POST, ["api", "auth", "register"], Undefined, d)
    case GetCurrentUser => Call(Routes.GET, ["api", "auth", "user"], Undefined, Undefined)
    case LogoutCall => Call(Routes.POST, ["api", "auth", "logout"], Undefined, Undefined)
    case GetAllPosts(q) => Call(Routes.GET, ["api", "posts"], q, Undefined)
    case GetPostById(id) => Call(Routes.GET, ["api", "posts", id], Undefined, Undefined)
    case CreatePost(d) => Call(Routes.POST, ["api", "posts"], Undefined, d)
    case UpdatePost(id, d) => Call(Routes.PUT, ["api", "posts", id], Undefined, d)
    case DeletePost(id) => Call(Routes.DELETE, ["api", "posts", id], Undefined, Undefined)
    case AddComment(id, content) => Call(Routes.POST, ["api", "comments", "post", id], Undefined, Field("content", Str(content)))
    case GetComments(id) => Call(Routes.GET, ["api", "posts", id, "comments"], Undefined, Undefined)
    case DeleteComment(id) => Call(Routes.DELETE, ["api", "comments", id], Undefined, Undefined)
    case GetHotCategories(q) => Call(Routes.GET, ["api", "categories", "hot"], q, Undefined)
    case GetAllCategories => Call(Routes.GET, ["api", "categories"], Undefined, Undefined)
    case GetCategoryById(id) => Call(Routes.GET, ["api", "categories", id], Undefined, Undefined)
    case CreateCategory(d) => Call(Routes.POST, ["api", "categories"], Undefined, d)
    case UpdateCategory(id, d) => Call(Routes.PUT, ["api", "categories", id], Undefined, d)
    case DeleteCategory(id) => Call(Routes.DELETE, ["api", "categories", id], Undefined, Undefined)
    case GetHotTags(q) => Call(Routes.GET, ["api", "tags", "hot"], q, Undefined)
    case GetAllTags => Call(Routes.GET, ["api", "tags"], Undefined, Undefined)
    case GetTagById(id) => Call(Routes.GET, ["api", "tags", id], Undefined, Undefined)
    case CreateTag(d) => Call(Routes.POST, ["api", "tags"], Undefined, d)
    case UpdateTag(id, d) => Call(Routes.PUT, ["api", "tags", id], Undefined, d)
    case DeleteTag(id) => Call(Routes.DELETE, ["api", "tags", id], Undefined, Undefined)
    case GetHomePageData => Call(Routes.GET, ["api", "home"], Undefined, Undefined)
    case GetArchiveData => Call(Routes.GET, ["api", "archive"], Undefined, Undefined)
  }

  /** The instance's default headers. */
  const DefaultHeaders: map<string, string> := map["Content-Type" := "application/json"]

  /** The request interceptor: `if (token)` attaches "Bearer <token>", so a missing and an
      empty token both leave the headers as they were. */
  function Authorize(stored: Option<string>, headers: map<string, string>): (h: map<string, string>)
    ensures stored.Some? && stored.value != "" ==> h == headers[AuthHeader := Middleware.BearerPrefix + stored.value]
    ensures !(stored.Some? && stored.value != "") ==> h == headers
  {
    if stored.Some? && stored.value != "" then headers[AuthHeader := Middleware.BearerPrefix + stored.value] else headers
  }

  /** The Authorization header the server reads: empty when the request has none. */
  function HeaderSeen(headers: map<string, string>): string {
    if AuthHeader in headers then headers[AuthHeader] else ""
  }

  /** A stored token reaches the middleware intact: its "Bearer " is the one JWTAuth strips. */
  lemma AttachedTokenReadBack(token: string)
    requires token != ""
    ensures Middleware.TokenOf(HeaderSeen(Authorize(Some(token), DefaultHeaders))) == token
  {
    Middleware.BearerStrippedOnce(token);
  }

  /** Without a token the server sees no Authorization header at all. */
  lemma NoTokenNoHeader(stored: Option<string>)
    requires stored.None? || stored == Some("")
    ensures HeaderSeen(Authorize(stored, DefaultHeaders)) == ""
  {
  }

  /** axios resolves for a 2xx status and the response interceptor passes on only the body;
      every other outcome rejects with the error. */
  function Interpret(d: Delivery): (s: Settled)
    ensures s.Resolved? <==> d.Got? && 200 <= d.reply.status < 300
    ensures s.Resolved? ==> s.value == d.reply.data
    ensures s.Rejected? ==> s.error == AxiosError(if d.Got? then Some(d.reply) else None)
  {
    match d
    case Got(r) => if 200 <= r.status < 300 then Resolved(r.data) else Rejected(AxiosError(Some(r)))
    case Lost => Rejected(AxiosError(None))
  }

  /** `error.response && error.response.status === 401`. */
  predicate Unauthorized(d: Delivery) {
    d.Got? && d.reply.status == 401
  }

  /** The request a helper issues with `stored` in localStorage, once the request interceptor
      has run. */
  function Issue(stored: Option<string>, c: ApiCall): (r: Request)
    ensures r.verb == Endpoint(c).verb && r.path == Endpoint(c).path && r.params == Endpoint(c).params
    ensures r.body == Endpoint(c).body && r.headers == Authorize(stored, DefaultHeaders)
  {
    var e := Endpoint(c);
    Request(e.verb, e.path, e.params, Authorize(stored, DefaultHeaders), e.body)
  }

  /** The browser state the client code touches: the "token" entry of localStorage and
      `window.location.href`. */
  class Browser {
    var token: Option<string>
    var location: string

    constructor (token: Option<string>, location: string)
      ensures this.token == token && this.location == location
    {
      this.token := token;
      this.location := location;
    }

    /** The request a helper issues once the request interceptor has run. */
    function Outgoing(c: ApiCall): (r: Request)
      reads this
      ensures r.verb == Endpoint(c).verb && r.path == Endpoint(c).path && r.body == Endpoint(c).body
      ensures r.headers == Authorize(token, DefaultHeaders)
      ensures r == Issue(token, c)
    {
      Issue(token, c)
    }

    /** The response interceptor: a 401 removes the token and redirects to the login page
        before rejecting; anything else leaves the browser alone. */
    method Settle(d: Delivery) returns (s: Settled)
      modifies this
      ensures s == Interpret(d)
      ensures token == (if Unauthorized(d) then None else old(token))
      ensures location == (if Unauthorized(d) then LoginPath else old(location))
    {
      s := Interpret(d);
      if d.Got? && d.reply.status == 401 {
        token := None;
        location := LoginPath;
      }
    }

    /** One helper call: exactly one request, then the response interceptor. */
    method Send(c: ApiCall, server: Request -> Delivery) returns (s: Settled)
      modifies this
      ensures s == Interpret(server(old(Outgoing(c))))
      ensures token == (if Unauthorized(server(old(Outgoing(c)))) then None else old(token))
      ensures location == (if Unauthorized(server(old(Outgoing(c)))) then LoginPath else old(location))
    {
      var request := Outgoing(c);
      s := Settle(server(request));
    }

    /** authAPI.logout: the token is removed whether the call resolves or rejects, and the
        promise settles as the call did. */
    method Logout(server: Request -> Delivery) returns (s: Settled)
      modifies this
      ensures s == Interpret(server(old(Outgoing(LogoutCall))))
      ensures token == None
      ensures location == (if Unauthorized(server(old(Outgoing(LogoutCall)))) then LoginPath else old(location))
    {
      s := Send(LogoutCall, server);
      token := None;
    }
  }

  // ---------------------------------------------------------------- the server's envelopes

  /** Every JSON body the server sends: `code`, `message` and, when there is some, `data`. */
  function Envelope(r: Models.Response, data: Option<Json>): (j: Json)
    ensures j.Obj? && "code" in j.fields && "message" in j.fields
    ensures j.fields["code"] == Num(r.code) && j.fields["message"] == Str(r.message)
    ensures data.None? <==> "data" !in j.fields
    ensures data.Some? ==> j.fields["data"] == data.value
  {
    var head := map["code" := Num(r.code), "message" := Str(r.message)];
    match data
    case None => Obj(head)
    case Some(d) => Obj(head["data" := d])
  }

  /** The JSON body of a response without data, or of the Register and Login success: `code`,
      `message` and, for a session, `data.user` and `data.token`. */
  function EnvelopeJson(r: Models.Response): (j: Json)
    requires r.data.NoData? || r.data.Session?
    ensures j.Obj? && "code" in j.fields && "message" in j.fields
    ensures j.fields["code"] == Num(r.code) && j.fields["message"] == Str(r.message)
    ensures r.data.NoData? <==> "data" !in j.fields
    ensures r.data.Session? ==>
      j.fields["data"] == Obj(map["user" := Obj(r.data.user), "token" := Str(r.data.token)])
  {
    Envelope(r, match r.data
      case NoData => None
      case Session(user, token) => Some(Obj(map["user" := Obj(user), "token" := Str(token)])))
  }

  function Deliver(r: Models.Response): (d: Delivery)
    requires r.data.NoData? || r.data.Session?
    ensures d == Got(Reply(r.status, EnvelopeJson(r)))
  {
    Got(Reply(r.status, EnvelopeJson(r)))
  }

  // ---------------------------------------------------------------- the endpoints and the routes

  /** An id that reaches a `:id` route as a parameter: neither empty nor one of the literal
      words of the route table. */
  predicate PlainId(s: string) {
    s != "" && Routes.WordOf(s).None?
  }

  /** Every id the server hands out is a decimal number, and those are plain. */
  lemma DecimalIdIsPlain(n: nat)
    ensures PlainId(NatToString(n))
  {
    var s := NatToString(n);
    assert IsDigit(s[0]);
  }

  /** The handler of the same name, for the helpers the route table has a route for. */
  function Served(c: ApiCall): (h: Option<Routes.Handler>)
    ensures h.None? <==> c.GetCurrentUser? || c.GetComments? || c.DeleteComment?
  {
    match c
    case LoginCall(_, _) => Some(Routes.Login)
    case RegisterCall(_) => Some(Routes.Register)
    case GetCurrentUser => None
    case LogoutCall => Some(Routes.Logout)
    case GetAllPosts(_) => Some(Routes.GetPosts)
    case GetPostById(_) => Some(Routes.GetPost)
    case CreatePost(_) => Some(Routes.CreatePost)
    case UpdatePost(_, _) => Some(Routes.UpdatePost)
    case DeletePost(_) => Some(Routes.DeletePost)
    case AddComment(_, _) => Some(Routes.AddComment)
    case GetComments(_) => None
    case DeleteComment(_) => None
    case GetHotCategories(_) => Some(Routes.GetHotCategories)
    case GetAllCategories => Some(Routes.GetCategories)
    case GetCategoryById(_) => Some(Routes.GetCategory)
    case CreateCategory(_) => Some(Routes.CreateCategory)
    case UpdateCategory(_, _) => Some(Routes.UpdateCategory)
    case DeleteCategory(_) => Some(Routes.DeleteCategory)
    case GetHotTags(_) => Some(Routes.GetHotTags)
    case GetAllTags => Some(Routes.GetTags)
    case GetTagById(_) => Some(Routes.GetTag)
    case CreateTag(_) => Some(Routes.CreateTag)
    case UpdateTag(_, _) => Some(Routes.UpdateTag)
    case DeleteTag(_) => Some(Routes.DeleteTag)
    case GetHomePageData => Some(Routes.GetHomePageData)
    case GetArchiveData => Some(Routes.GetArchiveData)
  }

  /** The ids a call puts in its path are plain. */
  predicate PlainIds(c: ApiCall) {
    match c
    case GetPostById(id) => PlainId(id)
    case UpdatePost(id, _) => PlainId(id)
    case DeletePost(id) => PlainId(id)
    case AddComment(id, _) => PlainId(id)
    case GetComments(id) => PlainId(id)
    case DeleteComment(id) => PlainId(id)
    case GetCategoryById(id) => PlainId(id)
    case UpdateCategory(id, _) => PlainId(id)
    case DeleteCategory(id) => PlainId(id)
    case GetTagById(id) => PlainId(id)
    case UpdateTag(id, _) => PlainId(id)
    case DeleteTag(id) => PlainId(id)
    case _ => true
  }

  /** The route each routed helper is written against. */
  function RouteOf(c: ApiCall): (r: Option<Routes.Route>)
    ensures r.None? <==> Served(c).None?
  {
    match c
    case RegisterCall(_) => Some(Routes.AuthRoutes[0])
    case LoginCall(_, _) => Some(Routes.AuthRoutes[1])
    case LogoutCall => Some(Routes.AuthRoutes[2])
    case GetAllPosts(_) => Some(Routes.PostRoutes[0])
    case GetPostById(_) => Some(Routes.PostRoutes[2])
    case CreatePost(_) => Some(Routes.PostRoutes[4])
    case UpdatePost(_, _) => Some(Routes.PostRoutes[5])
    case DeletePost(_) => Some(Routes.PostRoutes[6])
    case GetAllCategories => Some(Routes.CategoryRoutes[0])
    case GetHotCategories(_) => Some(Routes.CategoryRoutes[1])
    case GetCategoryById(_) => Some(Routes.CategoryRoutes[2])
    case CreateCategory(_) => Some(Routes.CategoryRoutes[3])
    case UpdateCategory(_, _) => Some(Routes.CategoryRoutes[4])
    case DeleteCategory(_) => Some(Routes.CategoryRoutes[5])
    case GetAllTags => Some(Routes.TagRoutes[0])
    case GetHotTags(_) => Some(Routes.TagRoutes[1])
    case GetTagById(_) => Some(Routes.TagRoutes[2])
    case CreateTag(_) => Some(Routes.TagRoutes[3])
    case UpdateTag(_, _) => Some(Routes.TagRoutes[4])
    case DeleteTag(_) => Some(Routes.TagRoutes[5])
    case AddComment(_, _) => Some(Routes.CommentRoutes[0])
    case GetHomePageData => Some(Routes.MiscRoutes[0])
    case GetArchiveData => Some(Routes.MiscRoutes[1])
    case _ => None
  }

  /** The request of a routed helper spells its route's pattern, with its method, and that
      route runs the helper's handler. */
  predicate Written(c: ApiCall)
    requires RouteOf(c).Some?
  {
    var r, e := RouteOf(c).value, Endpoint(c);
    r.verb == e.verb && r.handler == Served(c).value && Routes.Spells(e.path, r.path)
  }

  lemma AuthWritten(c: ApiCall)
    requires c.RegisterCall? || c.LoginCall? || c.LogoutCall?
    ensures Written(c) && RouteOf(c).value in Routes.AuthRoutes
  {
    match c
    case RegisterCall(d) => AuthPathSpelled(c, Routes.register);
    case LoginCall(u, p) => AuthPathSpelled(c, Routes.login);
    case LogoutCall => AuthPathSpelled(c, Routes.logout);
  }

  /** An auth helper's path spells `/api/auth/<w>`. */
  lemma AuthPathSpelled(c: ApiCall, w: Routes.Word)
    requires c.RegisterCall? || c.LoginCall? || c.LogoutCall?
    requires w == (if c.RegisterCall? then Routes.register else if c.LoginCall? then Routes.login else Routes.logout)
    ensures Endpoint(c).path == ["api", "auth", Routes.Spelling(w)]
    ensures RouteOf(c).value.path == [Routes.Lit(Routes.api), Routes.Lit(Routes.auth), Routes.Lit(w)]
    ensures Routes.Spells(Endpoint(c).path, RouteOf(c).value.path)
  {
    var path, pat := Endpoint(c).path, RouteOf(c).value.path;
    forall i | 0 <= i < |pat| ensures path[i] == Routes.Spelling(pat[i].w) {
      if i == 2 {
        assert pat[i] == Routes.Lit(w);
      }
    }
  }

  lemma PostReadsWritten(c: ApiCall)
    requires (c.GetAllPosts? || c.GetPostById?) && PlainIds(c)
    ensures Written(c) && RouteOf(c).value in Routes.PostRoutes
  {
    if c.GetAllPosts? {
      assert Written(c);
    }
  }

  lemma PostWritesWritten(c: ApiCall)
    requires (c.CreatePost? || c.UpdatePost? || c.DeletePost?) && PlainIds(c)
    ensures Written(c) && RouteOf(c).value in Routes.PostRoutes
  {
    if c.CreatePost? {
      assert Written(c);
    } else if c.UpdatePost? {
      assert Written(c);
    }
  }

  lemma CategoryListsWritten(c: ApiCall)
    requires (c.GetAllCategories? || c.GetHotCategories?) && PlainIds(c)
    ensures Written(c) && RouteOf(c).value in Routes.CategoryRoutes
  {
    if c.GetAllCategories? {
      assert Written(c);
    }
  }

  lemma CategoryItemWritten(c: ApiCall)
    requires (c.GetCategoryById? || c.DeleteCategory?) && PlainIds(c)
    ensures Written(c) && RouteOf(c).value in Routes.CategoryRoutes
  {
    if c.GetCategoryById? {
      assert Written(c);
    }
  }

  lemma CategorySavesWritten(c: ApiCall)
    requires (c.CreateCategory? || c.UpdateCategory?) && PlainIds(c)
    ensures Written(c) && RouteOf(c).value in Routes.CategoryRoutes
  {
    if c.CreateCategory? {
      assert Written(c);
    }
  }

  lemma TagListsWritten(c: ApiCall)
    requires (c.GetAllTags? || c.GetHotTags?) && PlainIds(c)
    ensures Written(c) && RouteOf(c).value in Routes.TagRoutes
  {
    if c.GetAllTags? {
      assert Written(c);
    }
  }

  lemma TagItemWritten(c: ApiCall)
    requires (c.GetTagById? || c.DeleteTag?) && PlainIds(c)
    ensures Written(c) && RouteOf(c).value in Routes.TagRoutes
  {
    if c.GetTagById? {
      assert Written(c);
    }
  }

  lemma TagSavesWritten(c: ApiCall)
    requires (c.CreateTag? || c.UpdateTag?) && PlainIds(c)
    ensures Written(c) && RouteOf(c).value in Routes.TagRoutes
  {
    if c.CreateTag? {
      assert Written(c);
    }
  }

  lemma CommentWritten(c: ApiCall)
    requires c.AddComment? && PlainIds(c)
    ensures Written(c) && RouteOf(c).value in Routes.CommentRoutes
  {
  }

  lemma MiscWritten(c: ApiCall)
    requires (c.GetHomePageData? || c.GetArchiveData?) && PlainIds(c)
    ensures Written(c) && RouteOf(c).value in Routes.MiscRoutes
  {
    if c.GetHomePageData? {
      assert Written(c);
    }
  }

  /** Client and server agree: every helper whose handler has a route reaches that handler,
      and the three without one (the current user, a post's comments, deleting a comment) get
      the router's 404. */
  lemma EndpointsReachHandlers(c: ApiCall)
    requires PlainIds(c)
    ensures var e := Endpoint(c);
      var r := Routes.Resolve(e.verb, Routes.Tokens(e.path));
      (Served(c).None? ==> r.None?) && (Served(c).Some? ==> r.Some? && r.value.handler == Served(c).value)
  {
    if c.GetCurrentUser? {
      Routes.NoCurrentUserRoute();
    } else if c.GetComments? {
      Routes.NoCommentListRoute(c.postId);
    } else if c.DeleteComment? {
      Routes.NoCommentDeleteRoute(c.commentId);
    } else {
      if c.RegisterCall? || c.LoginCall? || c.LogoutCall? {
        AuthWritten(c);
      } else if c.GetAllPosts? || c.GetPostById? {
        PostReadsWritten(c);
      } else if c.CreatePost? || c.UpdatePost? || c.DeletePost? {
        PostWritesWritten(c);
      } else if c.GetAllCategories? || c.GetHotCategories? {
        CategoryListsWritten(c);
      } else if c.GetCategoryById? || c.DeleteCategory? {
        CategoryItemWritten(c);
      } else if c.CreateCategory? || c.UpdateCategory? {
        CategorySavesWritten(c);
      } else if c.GetAllTags? || c.GetHotTags? {
        TagListsWritten(c);
      } else if c.GetTagById? || c.DeleteTag? {
        TagItemWritten(c);
      } else if c.CreateTag? || c.UpdateTag? {
        TagSavesWritten(c);
      } else if c.AddComment? {
        CommentWritten(c);
      } else {
        MiscWritten(c);
      }
      var e := Endpoint(c);
      Routes.Reached(RouteOf(c).value, e.path);
    }
  }
}
