/** frontend/src/components/PopularTagsCategories.jsx: the sidebar card with the hot tags and
    the hot categories, each list fetched by its own function with its own loading flag. */
module PopularTagsCategories {
  import opened Wrappers
  import opened Json
  import opened Gateway
  import opened Message
  import Models
  import Tag

  const TagsFailed := Str("加载热门标签失败")
  const CategoriesFailed := Str("加载热门分类失败")

  datatype View = View(popularTags: seq<Json>, popularCategories: seq<Json>,
                       loadingTags: bool, loadingCategories: bool, toasts: seq<Toast>)

  const Initial := View([], [], true, true, [])

  /** The list a resolved answer yields: the `data` array of a 200 envelope, an answer that is
      itself an array, and an empty list for anything else. */
  function Listed(body: Json): (r: seq<Json>)
    ensures body.Truthy() && body.Get("code") == Num(200) && body.Get("data").IsArray() ==> r == body.Get("data").items
    ensures body.Arr? ==> r == body.items
    ensures !(body.Truthy() && body.Get("code") == Num(200) && body.Get("data").IsArray()) && !body.Arr? ==> r == []
  {
    if body.Truthy() && body.Get("code") == Num(200) && body.Get("data").IsArray() then body.Get("data").items
    else if body.Truthy() && body.IsArray() then body.items
    else []
  }

  /** fetchPopularTags once getHotTags has settled; the categories are not touched. */
  function TagsFetched(v: View, s: Settled): (r: View)
    ensures r.popularCategories == v.popularCategories && r.loadingCategories == v.loadingCategories
    ensures !r.loadingTags
    ensures s.Resolved? ==> r.popularTags == Listed(s.value) && r.toasts == v.toasts
    ensures s.Rejected? ==> r.popularTags == [] && r.toasts == v.toasts + [Error(TagsFailed)]
  {
    match s
    case Resolved(body) => v.(popularTags := Listed(body), loadingTags := false)
    case Rejected(_) => v.(popularTags := [], toasts := v.toasts + [Error(TagsFailed)], loadingTags := false)
  }

  /** fetchPopularCategories once getHotCategories has settled; the tags are not touched. */
  function CategoriesFetched(v: View, s: Settled): (r: View)
    ensures r.popularTags == v.popularTags && r.loadingTags == v.loadingTags
    ensures !r.loadingCategories
    ensures s.Resolved? ==> r.popularCategories == Listed(s.value) && r.toasts == v.toasts
    ensures s.Rejected? ==> r.popularCategories == [] && r.toasts == v.toasts + [Error(CategoriesFailed)]
  {
    match s
    case Resolved(body) => v.(popularCategories := Listed(body), loadingCategories := false)
    case Rejected(_) => v.(popularCategories := [], toasts := v.toasts + [Error(CategoriesFailed)], loadingCategories := false)
  }

  const TagParams := Field("limit", Num(10))
  const CategoryParams := Field("limit", Num(5))

  class Card {
    var popularTags: seq<Json>
    var popularCategories: seq<Json>
    var loadingTags: bool
    var loadingCategories: bool
    var toasts: seq<Toast>

    function State(): View
      reads this
    {
      View(popularTags, popularCategories, loadingTags, loadingCategories, toasts)
    }

    constructor ()
      ensures State() == Initial
    {
      popularTags := [];
      popularCategories := [];
      loadingTags := true;
      loadingCategories := true;
      toasts := [];
    }

    method FetchPopularTags(b: Browser, server: Request -> Delivery)
      modifies this, b
      ensures State() == TagsFetched(old(State()), Interpret(server(old(b.Outgoing(GetHotTags(TagParams))))))
      ensures b.token == (if Unauthorized(server(old(b.Outgoing(GetHotTags(TagParams))))) then None else old(b.token))
      ensures b.location == (if Unauthorized(server(old(b.Outgoing(GetHotTags(TagParams))))) then LoginPath else old(b.location))
    {
      loadingTags := true;
      var s := b.Send(GetHotTags(TagParams), server);
      match s {
        case Resolved(body) =>
          if body.Truthy() && body.Get("code") == Num(200) && body.Get("data").IsArray() {
            popularTags := body.Get("data").items;
          } else if body.Truthy() && body.IsArray() {
            popularTags := body.items;
          } else {
            popularTags := [];
          }
        case Rejected(_) =>
          toasts := toasts + [Error(TagsFailed)];
          popularTags := [];
      }
      loadingTags := false;
    }

    method FetchPopularCategories(b: Browser, server: Request -> Delivery)
      modifies this, b
      ensures State() == CategoriesFetched(old(State()), Interpret(server(old(b.Outgoing(GetHotCategories(CategoryParams))))))
      ensures b.token == (if Unauthorized(server(old(b.Outgoing(GetHotCategories(CategoryParams))))) then None else old(b.token))
      ensures b.location == (if Unauthorized(server(old(b.Outgoing(GetHotCategories(CategoryParams))))) then LoginPath else old(b.location))
    {
      loadingCategories := true;
      var s := b.Send(GetHotCategories(CategoryParams), server);
      match s {
        case Resolved(body) =>
          if body.Truthy() && body.Get("code") == Num(200) && body.Get("data").IsArray() {
            popularCategories := body.Get("data").items;
          } else if body.Truthy() && body.IsArray() {
            popularCategories := body.items;
          } else {
            popularCategories := [];
          }
        case Rejected(_) =>
          toasts := toasts + [Error(CategoriesFailed)];
          popularCategories := [];
      }
      loadingCategories := false;
    }
  }

  // ---------------------------------------------------------------- properties

  /** The envelope and the bare array yield the same list. */
  lemma ShapesAgree(xs: seq<Json>, message: Json)
    ensures Listed(Obj(map["code" := Num(200), "message" := message, "data" := Arr(xs)])) == xs
    ensures Listed(Arr(xs)) == Listed(Obj(map["code" := Num(200), "message" := message, "data" := Arr(xs)]))
  {
  }

  /** An error envelope that still resolves (a non-200 `code`) shows an empty list. */
  lemma OtherCodesShowNothing(code: int, message: Json, data: Json)
    requires code != 200
    ensures Listed(Obj(map["code" := Num(code), "message" := message, "data" := data])) == []
  {
  }

  /** The two fetches are independent: in either order they leave the same lists and flags. */
  lemma FetchesCommute(v: View, tags: Settled, categories: Settled)
    ensures var a := CategoriesFetched(TagsFetched(v, tags), categories);
      var b := TagsFetched(CategoriesFetched(v, categories), tags);
      a.popularTags == b.popularTags && a.popularCategories == b.popularCategories
      && a.loadingTags == b.loadingTags && a.loadingCategories == b.loadingCategories
      && multiset(a.toasts) == multiset(b.toasts)
  {
  }

  /** The body of the hot-tags answer, with `render` standing for the JSON encoding of one
      ranked tag. */
  function HotTagsBody(resp: Models.Response, render: Models.Ranked<Models.TagFields> -> Json): (j: Json)
    requires resp.data.HotTags?
    ensures j.Obj? && j.Get("code") == Num(resp.code) && j.Get("data").Arr?
    ensures |j.Get("data").items| == |resp.data.hotTags|
  {
    Envelope(resp, Some(Arr(seq(|resp.data.hotTags|, i requires 0 <= i < |resp.data.hotTags| => render(resp.data.hotTags[i])))))
  }

  /** The card shows the server's hot tags, all of them and in the server's order: at most
      ten, whatever `limit` the client asks for. */
  lemma ShowsServerHotTags(v: View, db: Models.Db, fails: Models.Faults,
                           render: Models.Ranked<Models.TagFields> -> Json)
    requires Models.HotTagsQuery !in fails
    ensures var resp := Tag.GetHotTags(db, fails);
      var shown := TagsFetched(v, Interpret(Got(Reply(resp.status, HotTagsBody(resp, render))))).popularTags;
      |shown| == |resp.data.hotTags| <= 10
      && forall i | 0 <= i < |shown| :: shown[i] == render(resp.data.hotTags[i])
  {
  }
}
