/** backend/api/post.go: the public post list with its category and tag filters, the post
    detail with its view counter, the case-insensitive search on `q`, and this file's LikePost. */
module Post {
  import opened Wrappers
  import opened Text
  import opened Models
  import opened Query
  import opened Pagination

  // ---------------------------------------------------------------- listing

  /** A join row links the post to the owner id. */
  predicate Linked(links: set<(nat, nat)>, postId: nat, owner: int) {
    exists l | l in links :: l.0 == postId && l.1 == owner
  }

  /** A `category_id` or `tag_id` query value adds its join only when it is non-empty and Atoi
      accepts it; anything else is dropped without an error. */
  function IdFilter(s: string): (f: Option<int>)
    ensures f.None? <==> Atoi(s).None?
    ensures f.Some? ==> f == Atoi(s)
  {
    if s != "" then Atoi(s) else None
  }

  /** Both filters present: the two joins restrict the rows together. */
  predicate Matches(db: Db, category: Option<int>, tag: Option<int>, p: Row<PostFields>) {
    (category.None? || Linked(db.postCategories, p.id, category.value))
    && (tag.None? || Linked(db.postTags, p.id, tag.value))
  }

  function Filtered(db: Db, category: Option<int>, tag: Option<int>): (r: seq<Row<PostFields>>)
    ensures forall i | 0 <= i < |r| :: r[i] in db.posts && r[i].Live() && Matches(db, category, tag, r[i])
    ensures forall i | 0 <= i < |db.posts| :: db.posts[i].Live() && Matches(db, category, tag, db.posts[i]) ==> db.posts[i] in r
    ensures multiset(r) <= multiset(db.posts)
    ensures forall i | 0 <= i < |db.posts| :: db.posts[i].Live() && Matches(db, category, tag, db.posts[i])
              ==> multiset(r)[db.posts[i]] == multiset(db.posts)[db.posts[i]]
  {
    var keep := (p: Row<PostFields>) => Matches(db, category, tag, p);
    LiveWhereFacts(db.posts, keep);
    Where(LiveRows(db.posts), keep)
  }

  /** One page of `rows` newest first, with the row count, the page, the page size and the
      page count. */
  function ListPage(rows: seq<Row<PostFields>>, page: int, pageSize: int, keyword: Option<string>): (d: Payload)
    requires 1 <= page && 1 <= pageSize
    ensures d.PostPage? && d.page == page && d.pageSize == pageSize && d.keyword == keyword
    ensures d.total == |rows|
    ensures d.totalPage == TotalPage(d.total, pageSize)
    ensures |d.posts| <= pageSize
    ensures forall i | 0 <= i < |d.posts| :: d.posts[i] in rows
    ensures SortedDesc(d.posts, Created)
    ensures var o := Offset(page, pageSize);
      |d.posts| == (if |rows| <= o then 0 else if o + pageSize <= |rows| then pageSize else |rows| - o)
      && forall i | 0 <= i < |d.posts| :: d.posts[i] == SortDesc(rows, Created)[o + i]
  {
    var sorted := SortDesc(rows, Created);
    var w := Window(sorted, Offset(page, pageSize), pageSize);
    SortDescMembers(rows, Created);
    assert forall i | 0 <= i < |w| :: w[i] in sorted;
    assert forall i, j | 0 <= i < j < |w| :: Created(w[i]) >= Created(w[j]) by {
      forall i, j | 0 <= i < j < |w| ensures Created(w[i]) >= Created(w[j]) {
        assert w[i] == sorted[Offset(page, pageSize) + i] && w[j] == sorted[Offset(page, pageSize) + j];
      }
    }
    var total := |rows|;
    PostPage(w, total, page, pageSize, TotalPage(total, pageSize), keyword)
  }

  /** Consecutive pages are consecutive windows of the newest-first order: page k + 1 starts
      right where page k ends. */
  lemma PagesAreConsecutive(rows: seq<Row<PostFields>>, page: int, pageSize: int, i: nat)
    requires 1 <= page && 1 <= pageSize
    requires i < |ListPage(rows, page + 1, pageSize, None).posts|
    ensures |ListPage(rows, page, pageSize, None).posts| == pageSize
    ensures ListPage(rows, page + 1, pageSize, None).posts[i]
         == SortDesc(rows, Created)[page * pageSize + i]
  {
    var sorted := SortDesc(rows, Created);
    assert Offset(page + 1, pageSize) == page * pageSize;
    assert Offset(page, pageSize) + pageSize == page * pageSize;
  }

  /** GET /api/posts. Count and Find run on one GORM handle, whose error sticks: a failed
      count makes the Find fail too, so either failure gives the same 500. */
  function GetPosts(db: Db, pageStr: Option<string>, pageSizeStr: Option<string>, categoryIdStr: string, tagIdStr: string, fails: Faults)
    : (resp: Response)
    ensures ListQuery in fails || CountQuery in fails ==> resp == Fail(500, "获取文章列表失败")
    ensures resp.status == 200 <==> ListQuery !in fails && CountQuery !in fails
    ensures resp.status == 200 ==>
      (resp.code == 200 && resp.data.PostPage?
       && resp.data.page == Page(pageStr) && resp.data.pageSize == PageSize(pageSizeStr)
       && resp.data.total == |Filtered(db, IdFilter(categoryIdStr), IdFilter(tagIdStr))|
       && resp.data.totalPage == TotalPage(resp.data.total, resp.data.pageSize)
       && |resp.data.posts| <= resp.data.pageSize
       && forall i | 0 <= i < |resp.data.posts| :: resp.data.posts[i] in db.posts && resp.data.posts[i].Live()
            && Matches(db, IdFilter(categoryIdStr), IdFilter(tagIdStr), resp.data.posts[i]))
    ensures resp.status == 200 ==>
      resp.data == ListPage(Filtered(db, IdFilter(categoryIdStr), IdFilter(tagIdStr)), Page(pageStr), PageSize(pageSizeStr), None)
  {
    var page := Page(pageStr);
    var pageSize := PageSize(pageSizeStr);
    var rows := Filtered(db, IdFilter(categoryIdStr), IdFilter(tagIdStr));
    if CountQuery in fails || ListQuery in fails then Fail(500, "获取文章列表失败")
    else Ok("获取文章列表成功", ListPage(rows, page, pageSize, None))
  }

  // ---------------------------------------------------------------- detail

  /** GET /api/posts/:id. GORM takes a string key that Atoi accepts as the primary key; any
      failure of the lookup is a 404. The increment runs in its own transaction and its failure
      is only logged; the reload then reads the row back (a failed reload leaves the first read). */
  function GetPostSpec(db: Db, idStr: string, fails: Faults, now: DateTime): (o: Outcome)
    requires db.Valid()
    ensures o.db.Valid()
    ensures o.resp.status in {200, 404}
    ensures o.resp.status == 404 <==> Fetch in fails || Atoi(idStr).None? || Lookup(db.posts, Atoi(idStr).value).None?
    ensures o.resp.status == 404 ==> o.db == db && o.resp == Fail(404, "文章不存在")
    ensures o.resp.status == 200 ==>
      (o.resp.data.PostData? && o.resp.data.post.id == Atoi(idStr).value
       && var prior := db.posts[Atoi(idStr).value - 1];
          (Write in fails ==> o.db == db && o.resp.data.post == prior)
          && (Write !in fails ==>
                o.db == db.(posts := Rewrite(db.posts, prior.id, prior.val.(viewCount := prior.val.viewCount + 1), now))
                && (Reload !in fails ==> o.resp.data.post.val.viewCount == prior.val.viewCount + 1)))
  {
    if Fetch in fails || Atoi(idStr).None? then Outcome(Fail(404, "文章不存在"), db)
    else match Lookup(db.posts, Atoi(idStr).value)
      case None => Outcome(Fail(404, "文章不存在"), db)
      case Some(post) =>
        var db' := if Write in fails then db
                   else db.(posts := Rewrite(db.posts, post.id, post.val.(viewCount := post.val.viewCount + 1), now));
        RewriteSameKey(db.posts, PostSlug, post.id, post.val.(viewCount := post.val.viewCount + 1), now);
        var shown := if Reload in fails then post else db'.posts[post.id - 1];
        Outcome(Ok("获取文章详情成功", PostData(shown)), db')
  }

  method GetPost(db: Store, idStr: string, fails: Faults, now: DateTime) returns (resp: Response)
    requires db.Valid()
    modifies db
    ensures db.Valid()
    ensures Outcome(resp, db.State()) == GetPostSpec(old(db.State()), idStr, fails, now)
  {
    var id := Atoi(idStr);
    if Fetch in fails || id.None? || Lookup(db.posts, id.value).None? {
      return Fail(404, "文章不存在");
    }
    var post := Lookup(db.posts, id.value).value;
    if Write !in fails {
      var bumped := post.val.(viewCount := post.val.viewCount + 1);
      RewriteSameKey(db.posts, PostSlug, post.id, bumped, now);
      db.posts := db.posts[post.id - 1 := post.(val := bumped, updatedAt := now)];
    }
    if Reload !in fails {
      post := db.posts[post.id - 1];
    }
    resp := Ok("获取文章详情成功", PostData(post));
  }

  // ---------------------------------------------------------------- search

  /** `LOWER(title) LIKE LOWER(?) OR LOWER(content) LIKE LOWER(?)` with `%q%`. */
  predicate SearchMatch(p: Row<PostFields>, q: string) {
    var pattern := Lower("%" + q + "%");
    Like(Lower(p.val.title), pattern) || Like(Lower(p.val.content), pattern)
  }

  lemma {:induction false} LowerAppend(a: string, b: string)
    ensures Lower(a + b) == Lower(a) + Lower(b)
  {
    assert forall i | 0 <= i < |a + b| :: (a + b)[i] == if i < |a| then a[i] else b[i - |a|];
  }

  lemma LowerIdempotent(s: string)
    ensures Lower(Lower(s)) == Lower(s)
  {
  }

  /** A search term without wildcards matches a post exactly when, ignoring ASCII case, it is a
      substring of the title or of the content. */
  lemma SearchIsCaseInsensitiveSubstring(p: Row<PostFields>, q: string)
    requires NoWildcards(q)
    ensures SearchMatch(p, q) <==> Contains(Lower(p.val.title), Lower(q)) || Contains(Lower(p.val.content), Lower(q))
    ensures SearchMatch(p, q) == SearchMatch(p, Lower(q))
  {
    LowerAppend("%", q);
    LowerAppend("%" + q, "%");
    LowerAppend("%", Lower(q));
    LowerAppend("%" + Lower(q), "%");
    LowerIdempotent(q);
    assert Lower("%") == "%";
    assert NoWildcards(Lower(q));
    LikeIsSubstring(Lower(p.val.title), Lower(q));
    LikeIsSubstring(Lower(p.val.content), Lower(q));
  }

  function SearchRows(db: Db, q: string): (r: seq<Row<PostFields>>)
    ensures forall i | 0 <= i < |r| :: r[i] in db.posts && r[i].Live() && SearchMatch(r[i], q)
    ensures forall i | 0 <= i < |db.posts| :: db.posts[i].Live() && SearchMatch(db.posts[i], q) ==> db.posts[i] in r
    ensures multiset(r) <= multiset(db.posts)
    ensures forall i | 0 <= i < |db.posts| :: db.posts[i].Live() && SearchMatch(db.posts[i], q)
              ==> multiset(r)[db.posts[i]] == multiset(db.posts)[db.posts[i]]
  {
    var keep := (p: Row<PostFields>) => SearchMatch(p, q);
    LiveWhereFacts(db.posts, keep);
    Where(LiveRows(db.posts), keep)
  }

  /** GET /api/posts/search?q=…: an empty `q` is refused before any query runs; as in
      GetPosts, a failed count makes the Find fail. */
  function SearchPosts(db: Db, q: string, pageStr: Option<string>, pageSizeStr: Option<string>, fails: Faults): (resp: Response)
    ensures q == "" ==> resp == Fail(400, "缺少搜索关键词 'q'")
    ensures q != "" && (ListQuery in fails || CountQuery in fails) ==> resp == Fail(500, "搜索文章失败")
    ensures resp.status == 200 <==> q != "" && ListQuery !in fails && CountQuery !in fails
    ensures resp.status == 200 ==>
      (resp.data.PostPage? && resp.data.page == Page(pageStr) && resp.data.pageSize == PageSize(pageSizeStr)
       && resp.data.keyword.None? && |resp.data.posts| <= resp.data.pageSize
       && resp.data.total == |SearchRows(db, q)|
       && resp.data.totalPage == TotalPage(resp.data.total, resp.data.pageSize)
       && forall i | 0 <= i < |resp.data.posts| :: resp.data.posts[i] in db.posts && resp.data.posts[i].Live()
            && SearchMatch(resp.data.posts[i], q))
    ensures resp.status == 200 ==>
      resp.data == ListPage(SearchRows(db, q), Page(pageStr), PageSize(pageSizeStr), None)
  {
    if q == "" then Fail(400, "缺少搜索关键词 'q'")
    else if CountQuery in fails || ListQuery in fails then Fail(500, "搜索文章失败")
    else Ok("搜索文章成功", ListPage(SearchRows(db, q), Page(pageStr), PageSize(pageSizeStr), None))
  }

  // ---------------------------------------------------------------- like

  /** POST /api/posts/:id/like as this file writes it: `like_count + 1` in a transaction, and
      the response reports the count read before it plus one. */
  function LikePostSpec(db: Db, idStr: string, fails: Faults, now: DateTime): (o: Outcome)
    requires db.Valid()
    ensures o.db.Valid()
    ensures o.resp.status != 200 ==> o.db == db
    ensures Atoi(idStr).None? ==> o.resp == Fail(400, "无效的文章ID")
    ensures o.resp.status == 404 <==> Atoi(idStr).Some? && Fetch !in fails && Lookup(db.posts, Atoi(idStr).value).None?
    ensures o.resp.status == 500 <==>
      (Atoi(idStr).Some? && (Fetch in fails || (Lookup(db.posts, Atoi(idStr).value).Some? && Write in fails)))
    ensures o.resp.status == 200 ==>
      (Atoi(idStr).Some? && 1 <= Atoi(idStr).value <= |db.posts|
       && var prior := db.posts[Atoi(idStr).value - 1];
          o.resp.data == LikeCount(prior.val.likeCount + 1)
          && o.db == db.(posts := Rewrite(db.posts, prior.id, prior.val.(likeCount := prior.val.likeCount + 1), now)))
  {
    match Atoi(idStr)
    case None => Outcome(Fail(400, "无效的文章ID"), db)
    case Some(id) =>
      if Fetch in fails then Outcome(Fail(500, "查询文章失败"), db)
      else match Lookup(db.posts, id)
        case None => Outcome(Fail(404, "文章不存在"), db)
        case Some(post) =>
          if Write in fails then Outcome(Fail(500, "点赞失败"), db)
          else
            var liked := post.val.(likeCount := post.val.likeCount + 1);
            RewriteSameKey(db.posts, PostSlug, post.id, liked, now);
            Outcome(Ok("点赞成功", LikeCount(post.val.likeCount + 1)), db.(posts := Rewrite(db.posts, post.id, liked, now)))
  }

  method LikePost(db: Store, idStr: string, fails: Faults, now: DateTime) returns (resp: Response)
    requires db.Valid()
    modifies db
    ensures db.Valid()
    ensures Outcome(resp, db.State()) == LikePostSpec(old(db.State()), idStr, fails, now)
  {
    var id := Atoi(idStr);
    if id.None? {
      return Fail(400, "无效的文章ID");
    }
    if Fetch in fails {
      return Fail(500, "查询文章失败");
    }
    var found := Lookup(db.posts, id.value);
    if found.None? {
      return Fail(404, "文章不存在");
    }
    var post := found.value;
    if Write in fails {
      return Fail(500, "点赞失败");
    }
    var liked := post.val.(likeCount := post.val.likeCount + 1);
    RewriteSameKey(db.posts, PostSlug, post.id, liked, now);
    db.posts := db.posts[post.id - 1 := post.(val := liked, updatedAt := now)];
    resp := Ok("点赞成功", LikeCount(post.val.likeCount + 1));
  }
}
