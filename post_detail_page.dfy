/** frontend/src/pages/PostDetailPage.jsx: one post with its comments, and the form that adds a
    comment. The page's state is its five `useState` hooks plus the toasts it raises; `id` is
    the route parameter. */
module PostDetailPage {
  import opened Wrappers
  import opened Text
  import opened Json
  import opened Gateway
  import opened Message

  const FetchFailed := Str("获取文章详情失败")
  const FetchThrew := Str("获取文章详情失败，请稍后再试")
  const EmptyComment := Str("评论内容不能为空")
  const Posted := Str("评论发布成功")
  const PostFailed := Str("发布评论失败")
  const PostThrew := Str("发布评论失败，请稍后再试")

  datatype View = View(loading: bool, post: Json, comments: Json, submitting: bool, toasts: seq<Toast>)

  const Initial := View(true, Null, Arr([]), false, [])

  /** What the page renders: the spinner while loading, the not-found notice without a post,
      the article otherwise. */
  datatype Screen = Spinner | NotFound | Article(post: Json, comments: Json)

  function ScreenOf(v: View): (s: Screen)
    ensures s.Spinner? <==> v.loading
    ensures s.NotFound? <==> !v.loading && !v.post.Truthy()
    ensures s.Article? ==> s.post == v.post && s.comments == v.comments
  {
    if v.loading then Spinner else if !v.post.Truthy() then NotFound else Article(v.post, v.comments)
  }

  /** `[...v]`: the items of an array, the characters of a string, and a TypeError for every
      other value (no other value the page can hold is iterable). */
  function Spread(v: Json): (r: Option<seq<Json>>)
    ensures r.Some? <==> v.Arr? || v.Str?
    ensures v.Arr? ==> r == Some(v.items)
    ensures v.Str? ==> r.Some? && |r.value| == |v.s| && forall i | 0 <= i < |v.s| :: r.value[i] == Str([v.s[i]])
  {
    match v
    case Arr(items) => Some(items)
    case Str(s) => Some(seq(|s|, i requires 0 <= i < |s| => Str([s[i]])))
    case _ => None
  }

  /** `response.code === 200 && response.data` on a body that is not nullish. */
  predicate Confirmed(body: Json)
    requires !body.IsNullish()
  {
    body.Get("code") == Num(200) && body.Get("data").Truthy()
  }

  /** The effect's fetchPostDetail once getPostById has settled. */
  function Fetched(v: View, s: Settled): (r: View)
    ensures !r.loading && r.submitting == v.submitting
    ensures var shown := s.Resolved? && !s.value.IsNullish() && Confirmed(s.value);
      (shown ==> r.post == s.value.Get("data") && r.comments == s.value.Get("data").Get("comments").Or(Arr([]))
                 && r.toasts == v.toasts)
      && (!shown ==> r.post == v.post && r.comments == v.comments && |r.toasts| == |v.toasts| + 1
                     && r.toasts[..|v.toasts|] == v.toasts && r.toasts[|v.toasts|].Error?)
    ensures s.Resolved? && !s.value.IsNullish() && !Confirmed(s.value) ==> r.toasts == v.toasts + [Error(FetchFailed)]
    ensures (s.Rejected? || s.value.IsNullish()) ==> r.toasts == v.toasts + [Error(FetchThrew)]
  {
    match s
    case Rejected(_) => v.(toasts := v.toasts + [Error(FetchThrew)], loading := false)
    case Resolved(body) =>
      if body.IsNullish() then v.(toasts := v.toasts + [Error(FetchThrew)], loading := false)
      else if Confirmed(body) then
        var data := body.Get("data");
        v.(post := data, comments := data.Get("comments").Or(Arr([])), loading := false)
      else v.(toasts := v.toasts + [Error(FetchFailed)], loading := false)
  }

  /** `!values.content || values.content.trim() === ''`; `None` is a missing field. */
  predicate Empty(content: Option<string>) {
    content.None? || content.value == "" || Trim(content.value) == ""
  }

  /** handleSubmitComment once addComment has settled: the new comment is appended to the
      list the page holds, and a TypeError from spreading that list, like a rejection, ends in
      the catch block. */
  function Submitted(v: View, s: Settled): (r: View)
    ensures !r.submitting && r.loading == v.loading && r.post == v.post
    ensures |r.toasts| == |v.toasts| + 1 && r.toasts[..|v.toasts|] == v.toasts
    ensures var appended := s.Resolved? && !s.value.IsNullish() && Confirmed(s.value) && Spread(v.comments).Some?;
      (appended ==> r.comments == Arr(Spread(v.comments).value + [s.value.Get("data")]) && r.toasts[|v.toasts|] == Success(Posted))
      && (!appended ==> r.comments == v.comments && r.toasts[|v.toasts|].Error?)
    ensures s.Resolved? && !s.value.IsNullish() && !Confirmed(s.value) ==>
      r.toasts[|v.toasts|] == Error(s.value.Get("message").Or(PostFailed))
    ensures s.Rejected? || s.value.IsNullish() ==> r.toasts[|v.toasts|] == Error(PostThrew)
  {
    var failed := v.(toasts := v.toasts + [Error(PostThrew)], submitting := false);
    match s
    case Rejected(_) => failed
    case Resolved(body) =>
      if body.IsNullish() then failed
      else if Confirmed(body) then
        match Spread(v.comments)
        case None => failed
        case Some(items) => v.(comments := Arr(items + [body.Get("data")]), toasts := v.toasts + [Success(Posted)], submitting := false)
      else v.(toasts := v.toasts + [Error(body.Get("message").Or(PostFailed))], submitting := false)
  }

  class Page {
    const id: string
    var loading: bool
    var post: Json
    var comments: Json
    var submitting: bool
    var toasts: seq<Toast>

    function State(): View
      reads this
    {
      View(loading, post, comments, submitting, toasts)
    }

    constructor (id: string)
      ensures this.id == id && State() == Initial
    {
      this.id := id;
      loading := true;
      post := Null;
      comments := Arr([]);
      submitting := false;
      toasts := [];
    }

    /** The effect on `[id]`: fetchPostDetail. */
    method FetchPostDetail(b: Browser, server: Request -> Delivery)
      modifies this, b
      ensures State() == Fetched(old(State()), Interpret(server(old(b.Outgoing(GetPostById(id))))))
      ensures b.token == (if Unauthorized(server(old(b.Outgoing(GetPostById(id))))) then None else old(b.token))
      ensures b.location == (if Unauthorized(server(old(b.Outgoing(GetPostById(id))))) then LoginPath else old(b.location))
    {
      loading := true;
      var s := b.Send(GetPostById(id), server);
      match s {
        case Rejected(_) =>
          toasts := toasts + [Error(FetchThrew)];
        case Resolved(body) =>
          if body.IsNullish() {
            toasts := toasts + [Error(FetchThrew)];
          } else if body.Get("code") == Num(200) && body.Get("data").Truthy() {
            post := body.Get("data");
            comments := post.Get("comments").Or(Arr([]));
          } else {
            toasts := toasts + [Error(FetchFailed)];
          }
      }
      loading := false;
    }

    /** handleSubmitComment: an empty comment raises a warning and sends nothing. */
    method HandleSubmitComment(b: Browser, content: Option<string>, server: Request -> Delivery)
      modifies this, b
      ensures Empty(content) ==>
        State() == old(State()).(toasts := old(toasts) + [Warning(EmptyComment)])
        && b.token == old(b.token) && b.location == old(b.location)
      ensures !Empty(content) ==>
        var d := server(old(b.Outgoing(AddComment(id, content.value))));
        State() == Submitted(old(State()), Interpret(d))
        && b.token == (if Unauthorized(d) then None else old(b.token))
        && b.location == (if Unauthorized(d) then LoginPath else old(b.location))
    {
      if content.None? || content.value == "" || Trim(content.value) == "" {
        toasts := toasts + [Warning(EmptyComment)];
        return;
      }
      submitting := true;
      var s := b.Send(AddComment(id, content.value), server);
      var failed := false;
      match s {
        case Rejected(_) =>
          failed := true;
        case Resolved(body) =>
          if body.IsNullish() {
            failed := true;
          } else if body.Get("code") == Num(200) && body.Get("data").Truthy() {
            var items := Spread(comments);
            if items.None? {
              failed := true;
            } else {
              comments := Arr(items.value + [body.Get("data")]);
              toasts := toasts + [Success(Posted)];
            }
          } else {
            toasts := toasts + [Error(body.Get("message").Or(PostFailed))];
          }
      }
      if failed {
        toasts := toasts + [Error(PostThrew)];
      }
      submitting := false;
    }
  }

  // ---------------------------------------------------------------- properties

  /** A comment made only of whitespace is refused on the client. */
  lemma WhitespaceIsEmpty(content: string)
    ensures Empty(Some(content)) <==> Blank(content)
  {
    TrimEmptyIffBlank(content);
  }

  /** A fetch whose answer is not confirmed leaves the page on the not-found notice. */
  lemma FailedFetchShowsNotFound(s: Settled)
    requires !(s.Resolved? && !s.value.IsNullish() && Confirmed(s.value))
    ensures ScreenOf(Fetched(Initial, s)) == NotFound
  {
  }

  /** A confirmed fetch shows the post it got. */
  lemma ConfirmedFetchShowsPost(s: Settled)
    requires s.Resolved? && !s.value.IsNullish() && Confirmed(s.value)
    ensures ScreenOf(Fetched(Initial, s)) == Article(s.value.Get("data"), s.value.Get("data").Get("comments").Or(Arr([])))
  {
  }

  /** A confirmed comment on a list of comments grows it by one, at the end, and keeps every
      comment already shown; any other outcome leaves the list as it was. */
  lemma SubmitAppendsToList(v: View, s: Settled)
    requires v.comments.Arr?
    ensures var r := Submitted(v, s);
      if s.Resolved? && !s.value.IsNullish() && Confirmed(s.value) then
        r.comments.Arr? && |r.comments.items| == |v.comments.items| + 1
        && r.comments.items[..|v.comments.items|] == v.comments.items
        && r.comments.items[|v.comments.items|] == s.value.Get("data")
      else r.comments == v.comments
  {
    var r := Submitted(v, s);
    if s.Resolved? && !s.value.IsNullish() && Confirmed(s.value) {
      assert r.comments.items == v.comments.items + [s.value.Get("data")];
    }
  }

  /** Two confirmed comments after a fetch whose post carries no comment list show exactly
      those two, in the order they were posted. */
  lemma TwoCommentsInOrder(fetched: Settled, first: Settled, second: Settled)
    requires fetched.Resolved? && !fetched.value.IsNullish() && Confirmed(fetched.value)
    requires !fetched.value.Get("data").Get("comments").Truthy()
    requires first.Resolved? && !first.value.IsNullish() && Confirmed(first.value)
    requires second.Resolved? && !second.value.IsNullish() && Confirmed(second.value)
    ensures Submitted(Submitted(Fetched(Initial, fetched), first), second).comments
      == Arr([first.value.Get("data"), second.value.Get("data")])
  {
    var v := Fetched(Initial, fetched);
    assert v.comments == Arr([]);
    SubmitAppendsToList(v, first);
    SubmitAppendsToList(Submitted(v, first), second);
  }
}
