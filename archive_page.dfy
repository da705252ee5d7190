/** frontend/src/pages/ArchivePage.jsx: the archive, fetched once and regrouped for display under
    month titles. dayjs is foreign: `format` stands for `dayjs(x).format('YYYY年MM月')`. */
module ArchivePage {
  import opened Wrappers
  import opened Text
  import opened Json
  import opened Gateway
  import opened Message

  const LoadFailed := Str("加载归档数据失败")

  /** The display object: month title to the posts shown under it. */
  type Display = map<string, seq<Json>>

  datatype View = View(loading: bool, archiveData: seq<Json>, display: Display, toasts: seq<Toast>)

  const Initial := View(true, [], map[], [])

  /** The own enumerable properties `{...v}` copies: an object's fields, the indices of an
      array or a string, and nothing for the other values. */
  function SpreadFields(v: Json): (f: map<string, Json>)
    ensures v.Obj? ==> f == v.fields
    ensures v.Arr? ==> forall i | 0 <= i < |v.items| :: NatToString(i) in f && f[NatToString(i)] == v.items[i]
    ensures v.Str? ==> forall i | 0 <= i < |v.s| :: NatToString(i) in f && f[NatToString(i)] == Str([v.s[i]])
    ensures !(v.Obj? || v.Arr? || v.Str?) ==> f == map[]
  {
    NatToStringInjective();
    match v
    case Obj(fields) => fields
    case Arr(items) => map i | 0 <= i < |items| :: NatToString(i) := items[i]
    case Str(s) => map i | 0 <= i < |s| :: NatToString(i) := Str([s[i]])
    case _ => map[]
  }

  /** `post => ({ ...post, created_at: post.created_at })`; reading `created_at` of a nullish
      post throws. */
  function Copy(post: Json): (r: Option<Json>)
    ensures r.Some? <==> !post.IsNullish()
    ensures r.Some? ==> r.value.Obj? && "created_at" in r.value.fields && r.value.fields["created_at"] == post.Get("created_at")
  {
    if post.IsNullish() then None else Some(Obj(SpreadFields(post)["created_at" := post.Get("created_at")]))
  }

  /** `item.posts.map(Copy)`: a TypeError unless `posts` is an array of non-nullish values. */
  function CopyAll(posts: seq<Json>): (r: Option<seq<Json>>)
    ensures r.Some? <==> forall i | 0 <= i < |posts| :: !posts[i].IsNullish()
    ensures r.Some? ==> |r.value| == |posts| && forall i | 0 <= i < |posts| :: Some(r.value[i]) == Copy(posts[i])
  {
    if posts == [] then Some([])
    else
      match (Copy(posts[0]), CopyAll(posts[1..]))
      case (Some(p), Some(rest)) => Some([p] + rest)
      case _ => None
  }

  function CopyPosts(posts: Json): (r: Option<seq<Json>>)
    ensures r.Some? ==> posts.Arr? && r == CopyAll(posts.items)
    ensures posts.Arr? ==> r == CopyAll(posts.items)
  {
    if posts.Arr? then CopyAll(posts.items) else None
  }

  /** The title an item is shown under: `item.year_month + '-01'`, formatted. */
  function MonthKey(item: Json, format: string -> string): string
    requires !item.IsNullish()
  {
    format(JsString(item.Get("year_month")) + "-01")
  }

  /** An item the reduce callback gets through without throwing. */
  predicate Displayable(item: Json) {
    !item.IsNullish() && CopyPosts(item.Get("posts")).Some?
  }

  /** The reduce: each item in turn writes its copied posts under its title; None is a
      TypeError somewhere on the way. */
  function Reduced(items: seq<Json>, format: string -> string): Option<Display>
  {
    if items == [] then Some(map[])
    else
      var item := items[|items| - 1];
      match Reduced(items[..|items| - 1], format)
      case None => None
      case Some(acc) =>
        if !Displayable(item) then None
        else Some(acc[MonthKey(item, format) := CopyPosts(item.Get("posts")).value])
  }

  /** `response && response.code === 200 && Array.isArray(response.data)`. */
  predicate Accepted(s: Settled) {
    s.Resolved? && s.value.Truthy() && s.value.Get("code") == Num(200) && s.value.Get("data").IsArray()
  }

  /** fetchAllPosts once getArchiveData has settled. */
  function Fetched(v: View, s: Settled, format: string -> string): (r: View)
    ensures !r.loading
    ensures Accepted(s) && Reduced(s.value.Get("data").items, format).Some? ==>
      r == v.(loading := false, archiveData := s.value.Get("data").items,
              display := Reduced(s.value.Get("data").items, format).value)
    ensures !(Accepted(s) && Reduced(s.value.Get("data").items, format).Some?) ==> r.archiveData == [] && r.display == map[]
    ensures r.toasts == (if s.Rejected? || (Accepted(s) && Reduced(s.value.Get("data").items, format).None?)
                         then v.toasts + [Error(LoadFailed)] else v.toasts)
  {
    var failed := v.(loading := false, archiveData := [], display := map[], toasts := v.toasts + [Error(LoadFailed)]);
    match s
    case Rejected(_) => failed
    case Resolved(body) =>
      if Accepted(s) then
        var items := body.Get("data").items;
        match Reduced(items, format)
        case None => failed
        case Some(display) => v.(loading := false, archiveData := items, display := display)
      else v.(loading := false, archiveData := [], display := map[])
  }

  /** Once the reduce has thrown, it throws whatever items follow. */
  lemma {:induction false} ReducedStaysNone(items: seq<Json>, i: nat, format: string -> string)
    requires i <= |items| && Reduced(items[..i], format).None?
    ensures Reduced(items, format).None?
    decreases |items| - i
  {
    if i < |items| {
      assert items[..i + 1][..i] == items[..i];
      ReducedStaysNone(items, i + 1, format);
    } else {
      assert items[..i] == items;
    }
  }

  /** The reduce, as the loop `Array.prototype.reduce` runs. */
  method Reduce(items: seq<Json>, format: string -> string) returns (r: Option<Display>)
    ensures r == Reduced(items, format)
  {
    var acc: Display := map[];
    var i := 0;
    while i < |items|
      invariant 0 <= i <= |items|
      invariant Reduced(items[..i], format) == Some(acc)
    {
      var item := items[i];
      assert items[..i + 1][..i] == items[..i];
      if item.IsNullish() || !item.Get("posts").IsArray() || CopyAll(item.Get("posts").items).None? {
        ReducedStaysNone(items, i + 1, format);
        return None;
      }
      acc := acc[MonthKey(item, format) := CopyAll(item.Get("posts").items).value];
      i := i + 1;
    }
    assert items[..i] == items;
    r := Some(acc);
  }

  class Page {
    var loading: bool
    var archiveData: seq<Json>
    var display: Display
    var toasts: seq<Toast>

    function State(): View
      reads this
    {
      View(loading, archiveData, display, toasts)
    }

    constructor ()
      ensures State() == Initial
    {
      loading := true;
      archiveData := [];
      display := map[];
      toasts := [];
    }

    /** The effect on `[]`: fetchAllPosts. */
    method FetchAllPosts(b: Browser, server: Request -> Delivery, format: string -> string)
      modifies this, b
      ensures State() == Fetched(old(State()), Interpret(server(old(b.Outgoing(GetArchiveData)))), format)
      ensures b.token == (if Unauthorized(server(old(b.Outgoing(GetArchiveData)))) then None else old(b.token))
      ensures b.location == (if Unauthorized(server(old(b.Outgoing(GetArchiveData)))) then LoginPath else old(b.location))
    {
      loading := true;
      var s := b.Send(GetArchiveData, server);
      match s {
        case Rejected(_) =>
          toasts := toasts + [Error(LoadFailed)];
          archiveData := [];
          display := map[];
        case Resolved(body) =>
          if body.Truthy() && body.Get("code") == Num(200) && body.Get("data").IsArray() {
            archiveData := body.Get("data").items;
            var grouped := Reduce(body.Get("data").items, format);
            if grouped.None? {
              toasts := toasts + [Error(LoadFailed)];
              archiveData := [];
              display := map[];
            } else {
              display := grouped.value;
            }
          } else {
            archiveData := [];
            display := map[];
          }
      }
      loading := false;
    }
  }

  // ---------------------------------------------------------------- properties

  /** The reduce gets through exactly when every item is displayable. */
  lemma {:induction false} ReducedDefined(items: seq<Json>, format: string -> string)
    ensures Reduced(items, format).Some? <==> forall i | 0 <= i < |items| :: Displayable(items[i])
  {
    if items != [] {
      var init := items[..|items| - 1];
      ReducedDefined(init, format);
      assert forall i | 0 <= i < |init| :: init[i] == items[i];
    }
  }

  /** The titles: one per distinct month key of the items. */
  lemma {:induction false} ReducedKeys(items: seq<Json>, format: string -> string)
    requires Reduced(items, format).Some?
    ensures forall i | 0 <= i < |items| :: Displayable(items[i])
    ensures Reduced(items, format).value.Keys == set i | 0 <= i < |items| && !items[i].IsNullish() :: MonthKey(items[i], format)
  {
    ReducedDefined(items, format);
    if items != [] {
      var init := items[..|items| - 1];
      var last := items[|items| - 1];
      ReducedKeys(init, format);
      var acc := Reduced(init, format).value;
      assert Reduced(items, format).value.Keys == acc.Keys + {MonthKey(last, format)};
      TitlesSnoc(init, last, format);
      assert items == init + [last];
    }
  }

  lemma TitlesSnoc(init: seq<Json>, last: Json, format: string -> string)
    requires !last.IsNullish()
    ensures (set i | 0 <= i < |init + [last]| && !(init + [last])[i].IsNullish() :: MonthKey((init + [last])[i], format))
      == (set i | 0 <= i < |init| && !init[i].IsNullish() :: MonthKey(init[i], format)) + {MonthKey(last, format)}
  {
    var items := init + [last];
    var before := set i | 0 <= i < |init| && !init[i].IsNullish() :: MonthKey(init[i], format);
    var after := set i | 0 <= i < |items| && !items[i].IsNullish() :: MonthKey(items[i], format);
    forall k | k in after ensures k in before + {MonthKey(last, format)} {
      var i :| 0 <= i < |items| && !items[i].IsNullish() && k == MonthKey(items[i], format);
      if i < |init| { assert items[i] == init[i]; }
    }
    forall k | k in before ensures k in after {
      var i :| 0 <= i < |init| && !init[i].IsNullish() && k == MonthKey(init[i], format);
      assert items[i] == init[i];
    }
    assert items[|init|] == last;
  }

  /** Under each title are the posts of the last item with that title: a later month that
      formats to the same title overwrites an earlier one. */
  lemma {:induction false} LastWriteWins(items: seq<Json>, format: string -> string, i: nat)
    requires Reduced(items, format).Some? && i < |items| && !items[i].IsNullish()
    requires forall j | i < j < |items| :: !items[j].IsNullish() && MonthKey(items[j], format) != MonthKey(items[i], format)
    ensures CopyPosts(items[i].Get("posts")).Some? && MonthKey(items[i], format) in Reduced(items, format).value
    ensures Reduced(items, format).value[MonthKey(items[i], format)] == CopyPosts(items[i].Get("posts")).value
  {
    var init := items[..|items| - 1];
    assert forall j | 0 <= j < |init| :: init[j] == items[j];
    if i < |items| - 1 {
      LastWriteWins(init, format, i);
    }
  }

  /** When no two items share a title, nothing is lost: as many titles as items. */
  lemma {:induction false} DistinctTitlesKeepEveryMonth(items: seq<Json>, format: string -> string)
    requires Reduced(items, format).Some?
    requires forall i, j | 0 <= i < j < |items| ::
      (!items[i].IsNullish() && !items[j].IsNullish() && MonthKey(items[i], format) != MonthKey(items[j], format))
    ensures |Reduced(items, format).value| == |items|
  {
    if items != [] {
      var init := items[..|items| - 1];
      assert forall j | 0 <= j < |init| :: init[j] == items[j];
      DistinctTitlesKeepEveryMonth(init, format);
      ReducedKeys(init, format);
      var last := items[|items| - 1];
      assert MonthKey(last, format) !in Reduced(init, format).value.Keys;
    }
  }

  /** The copy changes nothing in a post object that already has `created_at`. */
  lemma CopyKeepsServerPost(post: Json)
    requires post.Obj? && "created_at" in post.fields
    ensures Copy(post) == Some(post)
  {
    assert post.fields["created_at" := post.fields["created_at"]] == post.fields;
  }

  /** The posts under a title keep their order, each with its own `created_at`. */
  lemma CopiesKeepOrder(posts: seq<Json>, i: nat)
    requires CopyAll(posts).Some? && i < |posts|
    ensures CopyAll(posts).value[i].Obj? && CopyAll(posts).value[i].fields["created_at"] == posts[i].Get("created_at")
  {
  }

  /** An answer that is not a 200 with an array leaves the page empty without a toast; a
      rejection empties it with one. */
  lemma UnusableAnswerShowsNothing(v: View, s: Settled, format: string -> string)
    requires !Accepted(s)
    ensures var r := Fetched(v, s, format);
      r.archiveData == [] && r.display == map[] && !r.loading
      && (r.toasts == v.toasts <==> s.Resolved?)
  {
  }
}
