/** frontend/src/pages/CategoryPostsPage.jsx and frontend/src/pages/TagPostsPage.jsx: the posts
    of one category or one tag. The two pages are the same code over a different entity, so
    one model serves both, with `Kind` choosing the entity. The pages ask for the posts
    through `postAPI.getPostsByCategory` and `postAPI.getPostsByTag`, which the API module
    does not define: the call throws a TypeError. `Page.FetchAsWritten` models that code;
    `Page.Fetch` models the evident intent, a call to the post list filtered by the entity's
    id, which is what the server's post list offers. */
module CollectionPages {
  import opened Wrappers
  import opened Json
  import opened Gateway
  import opened Message
  import Routes
  import Text
  import Models
  import Category
  import Tag

  datatype Kind = ByCategory | ByTag

  function NotFound(k: Kind): Json {
    match k
    case ByCategory => Str("未找到该分类")
    case ByTag => Str("未找到该标签")
  }

  function PostsFailed(k: Kind): Json {
    match k
    case ByCategory => Str("获取分类文章失败")
    case ByTag => Str("获取标签文章失败")
  }

  /** The entity's own fetch: getCategoryById or getTagById. */
  function EntityCall(k: Kind, id: string): ApiCall {
    match k
    case ByCategory => GetCategoryById(id)
    case ByTag => GetTagById(id)
  }

  /** The query parameter the server's post list filters on. */
  function FilterKey(k: Kind): string {
    match k
    case ByCategory => "category_id"
    case ByTag => "tag_id"
  }

  /** The posts fetch the pages mean: the post list filtered by the entity. */
  function PostsCall(k: Kind, id: string): ApiCall {
    GetAllPosts(Field(FilterKey(k), Str(id)))
  }

  /** `entity` is the page's `category` or `tag`. */
  datatype View = View(posts: seq<Json>, entity: Json, loading: bool, toasts: seq<Toast>)

  const Initial := View([], Null, true, [])

  /** `res && (res.data || res.id)` picks `res.data || res` as the entity. */
  function EntityOf(body: Json): (r: Option<Json>)
    ensures r.Some? <==> body.Truthy() && (body.Get("data").Truthy() || body.Get("id").Truthy())
    ensures r.Some? && body.Get("data").Truthy() ==> r.value == body.Get("data")
    ensures r.Some? && !body.Get("data").Truthy() ==> r.value == body
  {
    if body.Truthy() && (body.Get("data").Truthy() || body.Get("id").Truthy()) then Some(body.Get("data").Or(body))
    else None
  }

  /** `res.data.posts` when it is an array, a bare array answer, and otherwise nothing. */
  function PostsOf(body: Json): (r: seq<Json>)
    ensures body.Truthy() && body.Get("data").Truthy() && body.Get("data").Get("posts").IsArray() ==>
      r == body.Get("data").Get("posts").items
    ensures body.Arr? ==> r == body.items
    ensures !(body.Truthy() && body.Get("data").Truthy() && body.Get("data").Get("posts").IsArray()) && !body.Arr? ==> r == []
  {
    if body.Truthy() && body.Get("data").Truthy() && body.Get("data").Get("posts").IsArray() then body.Get("data").Get("posts").items
    else if body.Truthy() && body.IsArray() then body.items
    else []
  }

  /** The entity's answer: the entity, or the not-found toast and no entity. */
  function EntityShown(k: Kind, v: View, body: Json): (r: View)
    ensures r.posts == v.posts && r.loading == v.loading
    ensures EntityOf(body).Some? ==> r.entity == EntityOf(body).value && r.toasts == v.toasts
    ensures EntityOf(body).None? ==> r.entity == Null && r.toasts == v.toasts + [Error(NotFound(k))]
  {
    match EntityOf(body)
    case Some(e) => v.(entity := e)
    case None => v.(entity := Null, toasts := v.toasts + [Error(NotFound(k))])
  }

  /** The catch and finally blocks. */
  function Caught(k: Kind, v: View): (r: View)
    ensures r == View([], Null, false, v.toasts + [Error(PostsFailed(k))])
  {
    v.(posts := [], entity := Null, toasts := v.toasts + [Error(PostsFailed(k))], loading := false)
  }

  /** The effect as written: whatever the entity's answer, the posts call throws. */
  function LoadedAsWritten(k: Kind, v: View, entity: Settled): (r: View)
    ensures r.posts == [] && r.entity == Null && !r.loading
    ensures |r.toasts| > 0 && r.toasts[|r.toasts| - 1] == Error(PostsFailed(k))
  {
    match entity
    case Rejected(_) => Caught(k, v)
    case Resolved(body) => Caught(k, EntityShown(k, v, body))
  }

  /** The effect as intended: the entity, then its posts; a rejection of either ends in the
      catch block, and the posts call is not made after a rejected entity call. */
  function Loaded(k: Kind, v: View, entity: Settled, posts: Settled): (r: View)
    ensures !r.loading
    ensures entity.Resolved? && posts.Resolved? ==>
      r == EntityShown(k, v, entity.value).(posts := PostsOf(posts.value), loading := false)
    ensures entity.Rejected? || posts.Rejected? ==> r.posts == [] && r.entity == Null
  {
    match entity
    case Rejected(_) => Caught(k, v)
    case Resolved(body) =>
      var shown := EntityShown(k, v, body);
      match posts
      case Rejected(_) => Caught(k, shown)
      case Resolved(list) => shown.(posts := PostsOf(list), loading := false)
  }

  class Page {
    const kind: Kind
    /** The route parameter; the empty string is a missing one. */
    const id: string
    var posts: seq<Json>
    var entity: Json
    var loading: bool
    var toasts: seq<Toast>

    function State(): View
      reads this
    {
      View(posts, entity, loading, toasts)
    }

    constructor (kind: Kind, id: string)
      ensures this.kind == kind && this.id == id && State() == Initial
    {
      this.kind := kind;
      this.id := id;
      posts := [];
      entity := Null;
      loading := true;
      toasts := [];
    }

    method ShowEntity(body: Json)
      modifies this
      ensures State() == EntityShown(kind, old(State()), body)
    {
      if body.Truthy() && (body.Get("data").Truthy() || body.Get("id").Truthy()) {
        entity := body.Get("data").Or(body);
      } else {
        toasts := toasts + [Error(NotFound(kind))];
        entity := Null;
      }
    }

    method Fail()
      modifies this
      ensures State() == Caught(kind, old(State()))
    {
      toasts := toasts + [Error(PostsFailed(kind))];
      posts := [];
      entity := Null;
      loading := false;
    }

    /** fetchCategoryAndPosts / fetchTagAndPosts as written: without an id nothing happens and
        the spinner stays; otherwise the entity is fetched and the undefined posts helper
        throws. */
    method FetchAsWritten(b: Browser, server: Request -> Delivery)
      modifies this, b
      ensures id == "" ==> State() == old(State()) && b.token == old(b.token) && b.location == old(b.location)
      ensures id != "" ==>
        var d := server(Issue(old(b.token), EntityCall(kind, id)));
        State() == LoadedAsWritten(kind, old(State()), Interpret(d))
        && b.token == (if Unauthorized(d) then None else old(b.token))
        && b.location == (if Unauthorized(d) then LoginPath else old(b.location))
    {
      if id == "" {
        return;
      }
      loading := true;
      var s := b.Send(EntityCall(kind, id), server);
      if s.Resolved? {
        ShowEntity(s.value);
      }
      Fail();
    }

    /** The same effect with the posts fetched from the filtered post list. */
    method Fetch(b: Browser, server: Request -> Delivery)
      modifies this, b
      ensures id == "" ==> State() == old(State()) && b.token == old(b.token) && b.location == old(b.location)
      ensures id != "" ==>
        var d1 := server(Issue(old(b.token), EntityCall(kind, id)));
        var t1 := if Unauthorized(d1) then None else old(b.token);
        var l1 := if Unauthorized(d1) then LoginPath else old(b.location);
        var d2 := server(Issue(t1, PostsCall(kind, id)));
        State() == Loaded(kind, old(State()), Interpret(d1), Interpret(d2))
        && b.token == (if Interpret(d1).Resolved? && Unauthorized(d2) then None else t1)
        && b.location == (if Interpret(d1).Resolved? && Unauthorized(d2) then LoginPath else l1)
    {
      if id == "" {
        return;
      }
      loading := true;
      var s := b.Send(EntityCall(kind, id), server);
      if s.Rejected? {
        Fail();
        return;
      }
      ShowEntity(s.value);
      var list := b.Send(PostsCall(kind, id), server);
      if list.Rejected? {
        Fail();
        return;
      }
      posts := PostsOf(list.value);
      loading := false;
    }
  }

  // ---------------------------------------------------------------- properties

  /** The discrepancy: when the server has the entity and posts for it, the page as written
      shows neither, and the intended page shows both. */
  lemma AsWrittenLosesPosts(k: Kind, v: View, entity: Json, posts: seq<Json>, message: Json, rest: map<string, Json>)
    requires entity.Truthy() && posts != []
    ensures var entityBody := Obj(map["code" := Num(200), "message" := message, "data" := entity]);
      var listBody := Obj(map["code" := Num(200), "message" := message, "data" := Obj(rest["posts" := Arr(posts)])]);
      var written := LoadedAsWritten(k, v, Resolved(entityBody));
      var intended := Loaded(k, v, Resolved(entityBody), Resolved(listBody));
      written.posts == [] && written.entity == Null && written.toasts == v.toasts + [Error(PostsFailed(k))]
      && intended.posts == posts && intended.entity == entity && intended.toasts == v.toasts
  {
    ShowsEntityAndPosts(k, v, entity, posts, message, rest);
  }

  /** The entity found and its posts listed by the server: the page shows both, with no
      toast. */
  lemma ShowsEntityAndPosts(k: Kind, v: View, entity: Json, posts: seq<Json>, message: Json, rest: map<string, Json>)
    requires entity.Truthy()
    ensures var entityBody := Obj(map["code" := Num(200), "message" := message, "data" := entity]);
      var listBody := Obj(map["code" := Num(200), "message" := message, "data" := Obj(rest["posts" := Arr(posts)])]);
      var r := Loaded(k, v, Resolved(entityBody), Resolved(listBody));
      r.entity == entity && r.posts == posts && r.toasts == v.toasts && !r.loading
  {
  }

  /** An unknown entity still lists whatever posts come back, under the not-found toast. */
  lemma UnknownEntityStillLists(k: Kind, v: View, message: Json, posts: Settled)
    requires posts.Resolved?
    ensures var r := Loaded(k, v, Resolved(Obj(map["code" := Num(404), "message" := message])), posts);
      r.entity == Null && r.posts == PostsOf(posts.value) && r.toasts == v.toasts + [Error(NotFound(k))]
  {
  }

  /** What the server's category or tag handler answers for the entity's id. */
  function EntityResponse(k: Kind, db: Models.Db, id: string, fails: Models.Faults): (r: Models.Response)
    requires db.Valid()
    ensures r.data.NoData? || r.status == 200
  {
    match k
    case ByCategory => Category.GetCategory(db, id, fails)
    case ByTag => Tag.GetTag(db, id, fails)
  }

  /** The server answers an id with no live entity by an HTTP 404, which the gateway rejects:
      the intended page then ends in the catch block, with no entity, no posts and the error
      toast, and the not-found branch is never taken. */
  lemma UnknownEntityIsCaught(k: Kind, db: Models.Db, id: string, fails: Models.Faults, v: View, posts: Settled)
    requires db.Valid() && Text.Atoi(id).Some? && Models.Fetch !in fails
    requires if k == ByCategory then Models.Lookup(db.categories, Text.Atoi(id).value).None?
             else Models.Lookup(db.tags, Text.Atoi(id).value).None?
    ensures EntityResponse(k, db, id, fails).status == 404
    ensures Loaded(k, v, Interpret(Deliver(EntityResponse(k, db, id, fails))), posts)
         == View([], Null, false, v.toasts + [Error(PostsFailed(k))])
  {
  }

  /** The intended posts call is the server's post list, with the entity's id as its filter
      parameter. */
  lemma PostsCallFilters(k: Kind, id: string)
    ensures Endpoint(PostsCall(k, id)) == Call(Routes.GET, ["api", "posts"], Obj(map[FilterKey(k) := Str(id)]), Undefined)
    ensures Served(PostsCall(k, id)) == Some(Routes.GetPosts)
  {
  }
}
