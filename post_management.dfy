/** backend/api/post_management.go: the authenticated post handlers (create, update and delete
    inside transactions that also replace the category and tag links), this file's own LikePost
    and its search on `keyword`, and its versions of the category, tag and user handlers. Unlike
    backend/api/category.go and backend/api/tag.go, the category and tag handlers here derive
    slugs with slug.Make and check them against the live rows before writing, respond 200 on
    create, and treat every failure of `First(&row, id)` as a 404.

    slug.Make is the parameter `slugify`, time.Now the parameter `now`. */
module PostManagement {
  import opened Wrappers
  import opened Text
  import opened Models
  import opened Query
  import opened Pagination
  import Post
  import Category
  import Tag

  const LoginFirst := "请先登录"
  const BadRequest := "请求参数错误"
  const PostMissing := "文章不存在"

  // ---------------------------------------------------------------- shared steps

  /** `First(&row, id)` with the path's id string: GORM uses it as the primary key when Atoi
      accepts it; any failure (a bad id, a missing or deleted row, a failed query) is reported
      the same way by every handler of this file. */
  function Loaded<T>(t: seq<Row<T>>, idStr: string, fails: Faults): (r: Option<Row<T>>)
    requires Dense(t)
    ensures r.Some? <==> Fetch !in fails && Atoi(idStr).Some? && Lookup(t, Atoi(idStr).value).Some?
    ensures r.Some? ==> r == Lookup(t, Atoi(idStr).value) && 1 <= r.value.id <= |t| && r.value == t[r.value.id - 1]
  {
    if Fetch in fails || Atoi(idStr).None? then None else Lookup(t, Atoi(idStr).value)
  }

  /** The slug a create request asks for: its own, or else the slug of the name or title. */
  function GivenSlug(slug: string, name: string, slugify: string -> string): (s: string)
    ensures slug != "" ==> s == slug
    ensures slug == "" ==> s == slugify(name)
  {
    if slug != "" then slug else slugify(name)
  }

  /** The ids `Where("id IN ?", ids).Find(&rows)` returns: the requested ids of live rows. */
  function Found<T>(t: seq<Row<T>>, ids: seq<nat>): (r: set<nat>)
    requires Dense(t)
    ensures forall o :: o in r <==> o in ids && Lookup(t, o).Some?
  {
    set o | o in ids && Lookup(t, o).Some?
  }

  /** `Association(...).Replace(found)` on one post: its join rows become exactly the found
      owners, and the join rows of every other post stay. */
  function Replaced(links: set<(nat, nat)>, postId: nat, found: set<nat>): (r: set<(nat, nat)>)
    ensures forall l | l in links && l.0 != postId :: l in r
    ensures forall l | l in r && l.0 != postId :: l in links
    ensures forall o :: (postId, o) in r <==> o in found
  {
    (set l | l in links && l.0 != postId) + (set o | o in found :: (postId, o))
  }

  /** The rest of a transaction after the post is written: the database it commits, or the
      message of the step that failed and rolled the transaction back. */
  datatype Tx = Commit(db: Db) | Rollback(message: string)

  /** Lines 102-145 and 252-295: replace the post's category links, then its tag links, each
      only when the request lists ids. A list none of whose ids names a live row still
      replaces, and so clears the post's links. */
  function Associate(db: Db, postId: nat, categories: seq<nat>, tags: seq<nat>, fails: Faults): (t: Tx)
    requires Dense(db.categories) && Dense(db.tags)
    ensures t.Rollback? <==>
      (|categories| > 0 && (FindCategories in fails || ReplaceCategories in fails))
      || (|tags| > 0 && (FindTags in fails || ReplaceTags in fails))
    ensures |categories| > 0 && FindCategories in fails ==> t == Rollback("获取分类失败")
    ensures |categories| > 0 && FindCategories !in fails && ReplaceCategories in fails ==> t == Rollback("设置文章分类失败")
    ensures t.Commit? ==>
      (t.db.users == db.users && t.db.categories == db.categories && t.db.tags == db.tags
       && t.db.posts == db.posts && t.db.comments == db.comments)
    ensures t.Commit? && |categories| == 0 ==> t.db.postCategories == db.postCategories
    ensures t.Commit? && |categories| > 0 ==>
      t.db.postCategories == Replaced(db.postCategories, postId, Found(db.categories, categories))
    ensures t.Commit? && |tags| == 0 ==> t.db.postTags == db.postTags
    ensures t.Commit? && |tags| > 0 ==> t.db.postTags == Replaced(db.postTags, postId, Found(db.tags, tags))
  {
    if |categories| > 0 && FindCategories in fails then Rollback("获取分类失败")
    else if |categories| > 0 && ReplaceCategories in fails then Rollback("设置文章分类失败")
    else
      var cats := if |categories| > 0 then Replaced(db.postCategories, postId, Found(db.categories, categories))
                  else db.postCategories;
      if |tags| > 0 && FindTags in fails then Rollback("获取标签失败")
      else if |tags| > 0 && ReplaceTags in fails then Rollback("设置文章标签失败")
      else
        var tagLinks := if |tags| > 0 then Replaced(db.postTags, postId, Found(db.tags, tags)) else db.postTags;
        Commit(db.(postCategories := cats, postTags := tagLinks))
  }

  /** The association steps on the transaction's copy of the database. */
  method ReplaceLinks(db: Db, postId: nat, categories: seq<nat>, tags: seq<nat>, fails: Faults) returns (t: Tx)
    requires Dense(db.categories) && Dense(db.tags)
    ensures t == Associate(db, postId, categories, tags, fails)
  {
    var postCategories, postTags := db.postCategories, db.postTags;
    if |categories| > 0 {
      if FindCategories in fails {
        return Rollback("获取分类失败");
      }
      var found := Found(db.categories, categories);
      if ReplaceCategories in fails {
        return Rollback("设置文章分类失败");
      }
      postCategories := Replaced(postCategories, postId, found);
    }
    if |tags| > 0 {
      if FindTags in fails {
        return Rollback("获取标签失败");
      }
      var found := Found(db.tags, tags);
      if ReplaceTags in fails {
        return Rollback("设置文章标签失败");
      }
      postTags := Replaced(postTags, postId, found);
    }
    t := Commit(db.(postCategories := postCategories, postTags := postTags));
  }

  /** A committed transaction links the post to exactly the live categories it asked for, and
      an empty request list leaves the links as they were: it never clears them. */
  lemma AssociateLinks(db: Db, postId: nat, categories: seq<nat>, tags: seq<nat>, fails: Faults, c: nat)
    requires Dense(db.categories) && Dense(db.tags)
    requires Associate(db, postId, categories, tags, fails).Commit?
    ensures var links := Associate(db, postId, categories, tags, fails).db.postCategories;
      (|categories| > 0 ==> ((postId, c) in links <==> c in categories && Lookup(db.categories, c).Some?))
      && (|categories| == 0 ==> ((postId, c) in links <==> (postId, c) in db.postCategories))
  {
  }

  /** Naming only missing or deleted categories clears the post's category links. */
  lemma MissingIdsClearLinks(db: Db, postId: nat, categories: seq<nat>, tags: seq<nat>, fails: Faults)
    requires Dense(db.categories) && Dense(db.tags)
    requires Associate(db, postId, categories, tags, fails).Commit?
    requires |categories| > 0 && forall i | 0 <= i < |categories| :: Lookup(db.categories, categories[i]).None?
    ensures forall l | l in Associate(db, postId, categories, tags, fails).db.postCategories :: l.0 != postId
  {
  }

  /** Lines 189-200 and 339-350: the author may change a post, and so may a user whom the users
      table records as an admin. The role lookup ignores its error, which leaves the role empty. */
  predicate MayEdit(db: Db, post: Row<PostFields>, userId: nat, fails: Faults)
    requires Dense(db.users)
  {
    post.val.authorId == userId || (FetchRole !in fails && db.RoleOf(userId) == AdminRole)
  }

  // ---------------------------------------------------------------- create post

  /** CreatePostRequest and UpdatePostRequest (lines 16-37) have the same fields; a body that
      `BindAndValidate` rejects is None. */
  datatype PostBody = PostBody(
    title: string, content: string, excerpt: string, coverImage: string, status: string,
    categories: seq<nat>, tags: seq<nat>, slug: string)

  /** Lines 63-74: the requested slug, or the slug of the title; when a live post holds it
      already, "-" and the 14-digit time stamp are appended. A failed check appends nothing. */
  function CreateSlug(db: Db, b: PostBody, slugify: string -> string, fails: Faults, now: DateTime): (s: string)
  {
    var base := GivenSlug(b.slug, b.title, slugify);
    if SlugCheck !in fails && Visible(db.posts, PostSlug, base, 0) then base + "-" + Stamp(now) else base
  }

  /** The created slug starts with the requested one; it is that slug when no live post holds
      it, and otherwise that slug, a dash and fourteen digits. */
  lemma CreateSlugShape(db: Db, b: PostBody, slugify: string -> string, fails: Faults, now: DateTime)
    requires now.Valid()
    ensures var base := GivenSlug(b.slug, b.title, slugify);
      var s := CreateSlug(db, b, slugify, fails, now);
      base <= s
      && (!Visible(db.posts, PostSlug, base, 0) ==> s == base)
      && (Visible(db.posts, PostSlug, base, 0) && SlugCheck !in fails ==>
            (|s| == |base| + 15 && s[|base|] == '-' && AllDigits(s[|base| + 1..])))
  {
    var base := GivenSlug(b.slug, b.title, slugify);
    StampIsFourteenDigits(now);
    assert (base + "-" + Stamp(now))[|base| + 1..] == Stamp(now);
  }

  /** Lines 77-85: the post literal; the status column default applies to an empty status. */
  function NewPostOf(db: Db, userId: nat, b: PostBody, slugify: string -> string, fails: Faults, now: DateTime): (p: PostFields)
    ensures p.title == b.title && p.content == b.content && p.excerpt == b.excerpt && p.coverImage == b.coverImage
    ensures p.slug == CreateSlug(db, b, slugify, fails, now) && p.authorId == userId
    ensures p.viewCount == 0 && p.likeCount == 0
    ensures p.status == (if b.status == "" then DefaultPostStatus else b.status)
  {
    PostDefaults(NewPost(b.title, CreateSlug(db, b, slugify, fails, now), b.content, b.excerpt, b.coverImage, b.status, userId))
  }

  /** POST /api/posts. */
  function CreatePostSpec(db: Db, userId: Option<nat>, body: Option<PostBody>, slugify: string -> string,
                          fails: Faults, now: DateTime): (o: Outcome)
    requires db.Valid()
    ensures o.db.Valid()
    ensures o.resp.status != 200 ==> o.db == db && o.resp.data == NoData
    ensures userId.None? ==> o.resp == Fail(401, LoginFirst)
    ensures o.resp.status == 400 <==> userId.Some? && body.None?
    ensures userId.Some? && body.Some? ==>
      (var p := NewPostOf(db, userId.value, body.value, slugify, fails, now);
       var row := Row(|db.posts| + 1, now, now, None, p);
       var inserted := db.(posts := db.posts + [row]);
       var rest := Associate(inserted, row.id, body.value.categories, body.value.tags, fails);
       (Write in fails || db.PostClash(p, 0) ==> o.resp == Fail(500, "创建文章失败"))
       && (!(Write in fails || db.PostClash(p, 0)) && rest.Rollback? ==> o.resp == Fail(500, rest.message))
       && (o.resp.status == 200 <==> !(Write in fails || db.PostClash(p, 0)) && rest.Commit?)
       && (o.resp.status == 200 ==> o.resp == Ok("创建文章成功", PostData(row)) && rest == Commit(o.db)))
  {
    if userId.None? then Outcome(Fail(401, LoginFirst), db)
    else if body.None? then Outcome(Fail(400, BadRequest), db)
    else
      var p := NewPostOf(db, userId.value, body.value, slugify, fails, now);
      if Write in fails || db.PostClash(p, 0) then Outcome(Fail(500, "创建文章失败"), db)
      else
        InsertKeepsDense(db.posts, now, p);
        InsertKeepsUnique(db.posts, PostSlug, now, p);
        var row := Row(|db.posts| + 1, now, now, None, p);
        match Associate(db.(posts := db.posts + [row]), row.id, body.value.categories, body.value.tags, fails)
        case Rollback(m) => Outcome(Fail(500, m), db)
        case Commit(db') => Outcome(Ok("创建文章成功", PostData(row)), db')
  }

  /** A created post is stored under a fresh id, by the requesting user, with both counters at
      zero; no live post held its slug unless the slug check failed. */
  lemma CreatedPostFacts(db: Db, userId: Option<nat>, body: Option<PostBody>, slugify: string -> string,
                         fails: Faults, now: DateTime)
    requires db.Valid() && now.Valid()
    requires CreatePostSpec(db, userId, body, slugify, fails, now).resp.status == 200
    ensures var o := CreatePostSpec(db, userId, body, slugify, fails, now);
      userId.Some? && o.resp.data.PostData? && o.resp.data.post.id == |db.posts| + 1
      && |o.db.posts| == |db.posts| + 1 && o.db.posts[|db.posts|] == o.resp.data.post
      && o.resp.data.post.val.authorId == userId.value
      && o.resp.data.post.val.viewCount == 0 && o.resp.data.post.val.likeCount == 0
      && !Taken(db.posts, PostSlug, o.resp.data.post.val.slug, 0)
  {
  }

  /** Lines 63-74 step by step. */
  method DeriveSlug(db: Db, req: PostBody, slugify: string -> string, fails: Faults, now: DateTime) returns (postSlug: string)
    ensures postSlug == CreateSlug(db, req, slugify, fails, now)
  {
    postSlug := req.slug;
    if postSlug == "" {
      postSlug := slugify(req.title);
    }
    if SlugCheck !in fails && Visible(db.posts, PostSlug, postSlug, 0) {
      postSlug := postSlug + "-" + Stamp(now);
    }
  }

  method CreatePost(db: Store, userId: Option<nat>, body: Option<PostBody>, slugify: string -> string,
                    fails: Faults, now: DateTime) returns (resp: Response)
    requires db.Valid()
    modifies db
    ensures db.Valid()
    ensures Outcome(resp, db.State()) == CreatePostSpec(old(db.State()), userId, body, slugify, fails, now)
  {
    if userId.None? {
      return Fail(401, LoginFirst);
    }
    if body.None? {
      return Fail(400, BadRequest);
    }
    var req := body.value;
    var postSlug := DeriveSlug(db.State(), req, slugify, fails, now);
    var post := PostDefaults(NewPost(req.title, postSlug, req.content, req.excerpt, req.coverImage, req.status, userId.value));
    // The transaction works on copies and writes them back on commit.
    var posts := db.posts;
    if Write in fails || Taken(posts, PostSlug, post.slug, 0) {
      return Fail(500, "创建文章失败");
    }
    InsertKeepsDense(posts, now, post);
    InsertKeepsUnique(posts, PostSlug, now, post);
    var row := Row(|posts| + 1, now, now, None, post);
    posts := posts + [row];
    var staged := db.State().(posts := posts);
    assert post == NewPostOf(old(db.State()), userId.value, req, slugify, fails, now);
    var tx := ReplaceLinks(staged, row.id, req.categories, req.tags, fails);
    if tx.Rollback? {
      return Fail(500, tx.message);
    }
    db.posts, db.postCategories, db.postTags := posts, tx.db.postCategories, tx.db.postTags;
    assert db.State() == tx.db;
    resp := Ok("创建文章成功", PostData(row));
  }

  // ---------------------------------------------------------------- update post

  /** Lines 214-235: each of title, content, excerpt, cover image and status takes the request's
      value exactly when that value is non-empty; the slug is the request's, or else the slug of
      the title after the merge, with no uniqueness check. */
  function Merge(p: PostFields, b: PostBody, slugify: string -> string): (r: PostFields)
    ensures r.title == (if b.title != "" then b.title else p.title)
    ensures r.content == (if b.content != "" then b.content else p.content)
    ensures r.excerpt == (if b.excerpt != "" then b.excerpt else p.excerpt)
    ensures r.coverImage == (if b.coverImage != "" then b.coverImage else p.coverImage)
    ensures r.status == (if b.status != "" then b.status else p.status)
    ensures r.slug == GivenSlug(b.slug, r.title, slugify)
    ensures r.viewCount == p.viewCount && r.likeCount == p.likeCount && r.authorId == p.authorId
  {
    var p1 := if b.title != "" then p.(title := b.title) else p;
    var p2 := if b.content != "" then p1.(content := b.content) else p1;
    var p3 := if b.excerpt != "" then p2.(excerpt := b.excerpt) else p2;
    var p4 := if b.coverImage != "" then p3.(coverImage := b.coverImage) else p3;
    var p5 := if b.status != "" then p4.(status := b.status) else p4;
    p5.(slug := if b.slug != "" then b.slug else slugify(p5.title))
  }

  /** Merging the same request twice is merging it once. */
  lemma MergeIdempotent(p: PostFields, b: PostBody, slugify: string -> string)
    ensures Merge(Merge(p, b, slugify), b, slugify) == Merge(p, b, slugify)
  {
  }

  /** A request with only empty fields changes nothing but the slug, which is re-derived from
      the title: an explicit slug is lost unless it is sent again. */
  lemma EmptyRequestResetsSlug(p: PostFields, b: PostBody, slugify: string -> string)
    requires b.title == "" && b.content == "" && b.excerpt == "" && b.coverImage == "" && b.status == "" && b.slug == ""
    ensures Merge(p, b, slugify) == p.(slug := slugify(p.title))
  {
  }

  /** PUT /api/posts/:id. */
  function UpdatePostSpec(db: Db, idStr: string, userId: Option<nat>, body: Option<PostBody>,
                          slugify: string -> string, fails: Faults, now: DateTime): (o: Outcome)
    requires db.Valid()
    ensures o.db.Valid()
    ensures o.resp.status != 200 ==> o.db == db && o.resp.data == NoData
    ensures userId.None? ==> o.resp == Fail(401, LoginFirst)
    ensures o.resp.status == 404 <==> userId.Some? && Loaded(db.posts, idStr, fails).None?
    ensures o.resp.status == 404 ==> o.resp == Fail(404, PostMissing)
    ensures o.resp.status == 403 <==>
      (userId.Some? && Loaded(db.posts, idStr, fails).Some?
       && !MayEdit(db, Loaded(db.posts, idStr, fails).value, userId.value, fails))
    ensures o.resp.status == 403 ==> o.resp == Fail(403, "无权更新该文章")
    ensures o.resp.status == 400 <==>
      (userId.Some? && Loaded(db.posts, idStr, fails).Some?
       && MayEdit(db, Loaded(db.posts, idStr, fails).value, userId.value, fails) && body.None?)
    ensures o.resp.status == 200 ==>
      (userId.Some? && body.Some? && Loaded(db.posts, idStr, fails).Some?
       && var prior := Loaded(db.posts, idStr, fails).value;
          var v := Merge(prior.val, body.value, slugify);
          MayEdit(db, prior, userId.value, fails)
          && Write !in fails && !db.PostClash(v, prior.id)
          && o.resp == Ok("更新文章成功", PostData(prior.(val := v, updatedAt := now)))
          && Associate(db.(posts := Rewrite(db.posts, prior.id, v, now)), prior.id,
                       body.value.categories, body.value.tags, fails) == Commit(o.db))
    ensures o.resp.status == 500 <==>
      (userId.Some? && Loaded(db.posts, idStr, fails).Some?
       && MayEdit(db, Loaded(db.posts, idStr, fails).value, userId.value, fails) && body.Some?
       && var prior := Loaded(db.posts, idStr, fails).value;
          var v := Merge(prior.val, body.value, slugify);
          Write in fails || db.PostClash(v, prior.id)
          || Associate(db.(posts := Rewrite(db.posts, prior.id, v, now)), prior.id,
                       body.value.categories, body.value.tags, fails).Rollback?)
    ensures o.resp.status in {200, 400, 401, 403, 404, 500}
  {
    if userId.None? then Outcome(Fail(401, LoginFirst), db)
    else match Loaded(db.posts, idStr, fails)
      case None => Outcome(Fail(404, PostMissing), db)
      case Some(post) =>
        if !MayEdit(db, post, userId.value, fails) then Outcome(Fail(403, "无权更新该文章"), db)
        else if body.None? then Outcome(Fail(400, BadRequest), db)
        else UpdateLoadedSpec(db, post, body.value, slugify, fails, now)
  }

  /** The transaction of UpdatePost, once the post is loaded and the request is allowed. */
  function UpdateLoadedSpec(db: Db, post: Row<PostFields>, req: PostBody, slugify: string -> string,
                            fails: Faults, now: DateTime): (o: Outcome)
    requires db.Valid() && 1 <= post.id <= |db.posts| && db.posts[post.id - 1] == post
    ensures o.db.Valid()
    ensures o.resp.status == 200 || o.resp.status == 500
    ensures o.resp.status == 500 ==> o.db == db && o.resp.data == NoData
    ensures var v := Merge(post.val, req, slugify);
      o.resp.status == 500 <==>
        (Write in fails || db.PostClash(v, post.id)
         || Associate(db.(posts := Rewrite(db.posts, post.id, v, now)), post.id, req.categories, req.tags, fails).Rollback?)
    ensures var v := Merge(post.val, req, slugify);
      o.resp.status == 200 ==>
        (o.resp == Ok("更新文章成功", PostData(post.(val := v, updatedAt := now)))
         && Associate(db.(posts := Rewrite(db.posts, post.id, v, now)), post.id, req.categories, req.tags, fails)
            == Commit(o.db))
  {
    var v := Merge(post.val, req, slugify);
    if Write in fails || db.PostClash(v, post.id) then Outcome(Fail(500, "更新文章失败"), db)
    else
      RewriteKeepsUnique(db.posts, PostSlug, post.id, v, now);
      match Associate(db.(posts := Rewrite(db.posts, post.id, v, now)), post.id, req.categories, req.tags, fails)
      case Rollback(m) => Outcome(Fail(500, m), db)
      case Commit(db') => Outcome(Ok("更新文章成功", PostData(post.(val := v, updatedAt := now))), db')
  }

  /** Lines 214-235 step by step: the loaded fields overwritten one by one. */
  method MergeRequest(p: PostFields, req: PostBody, slugify: string -> string) returns (fields: PostFields)
    ensures fields == Merge(p, req, slugify)
  {
    fields := p;
    if req.title != "" {
      fields := fields.(title := req.title);
    }
    if req.content != "" {
      fields := fields.(content := req.content);
    }
    if req.excerpt != "" {
      fields := fields.(excerpt := req.excerpt);
    }
    if req.coverImage != "" {
      fields := fields.(coverImage := req.coverImage);
    }
    if req.status != "" {
      fields := fields.(status := req.status);
    }
    if req.slug != "" {
      fields := fields.(slug := req.slug);
    } else {
      fields := fields.(slug := slugify(fields.title));
    }
  }

  method UpdatePost(db: Store, idStr: string, userId: Option<nat>, body: Option<PostBody>,
                    slugify: string -> string, fails: Faults, now: DateTime) returns (resp: Response)
    requires db.Valid()
    modifies db
    ensures db.Valid()
    ensures Outcome(resp, db.State()) == UpdatePostSpec(old(db.State()), idStr, userId, body, slugify, fails, now)
  {
    if userId.None? {
      return Fail(401, LoginFirst);
    }
    var found := Loaded(db.posts, idStr, fails);
    if found.None? {
      return Fail(404, PostMissing);
    }
    var post := found.value;
    if post.val.authorId != userId.value {
      var role := if FetchRole in fails then "" else db.State().RoleOf(userId.value);
      if role != AdminRole {
        return Fail(403, "无权更新该文章");
      }
    }
    if body.None? {
      return Fail(400, BadRequest);
    }
    resp := UpdateLoaded(db, post, body.value, slugify, fails, now);
  }

  method UpdateLoaded(db: Store, post: Row<PostFields>, req: PostBody, slugify: string -> string,
                      fails: Faults, now: DateTime) returns (resp: Response)
    requires db.Valid() && 1 <= post.id <= |db.posts| && db.posts[post.id - 1] == post
    modifies db
    ensures db.Valid()
    ensures Outcome(resp, db.State()) == UpdateLoadedSpec(old(db.State()), post, req, slugify, fails, now)
  {
    var fields := MergeRequest(post.val, req, slugify);
    // The transaction works on copies and writes them back on commit.
    var posts := db.posts;
    if Write in fails || Taken(posts, PostSlug, fields.slug, post.id) {
      return Fail(500, "更新文章失败");
    }
    RewriteKeepsUnique(posts, PostSlug, post.id, fields, now);
    var updated := post.(val := fields, updatedAt := now);
    posts := posts[post.id - 1 := updated];
    var staged := db.State().(posts := posts);
    assert staged == old(db.State()).(posts := Rewrite(old(db.posts), post.id, fields, now));
    var tx := ReplaceLinks(staged, post.id, req.categories, req.tags, fails);
    if tx.Rollback? {
      return Fail(500, tx.message);
    }
    db.posts, db.postCategories, db.postTags := posts, tx.db.postCategories, tx.db.postTags;
    assert db.State() == tx.db;
    resp := Ok("更新文章成功", PostData(updated));
  }

  // ---------------------------------------------------------------- delete post

  /** DELETE /api/posts/:id: a soft delete; the post's links stay. */
  function DeletePostSpec(db: Db, idStr: string, userId: Option<nat>, fails: Faults, now: DateTime): (o: Outcome)
    requires db.Valid()
    ensures o.db.Valid()
    ensures o.resp.status != 200 ==> o.db == db
    ensures userId.None? ==> o.resp == Fail(401, LoginFirst)
    ensures o.resp.status == 404 <==> userId.Some? && Loaded(db.posts, idStr, fails).None?
    ensures o.resp.status == 403 <==>
      (userId.Some? && Loaded(db.posts, idStr, fails).Some?
       && !MayEdit(db, Loaded(db.posts, idStr, fails).value, userId.value, fails))
    ensures o.resp.status == 403 ==> o.resp == Fail(403, "无权删除该文章")
    ensures o.resp.status == 500 <==>
      (userId.Some? && Loaded(db.posts, idStr, fails).Some?
       && MayEdit(db, Loaded(db.posts, idStr, fails).value, userId.value, fails) && Write in fails)
    ensures o.resp.status == 200 ==>
      (Loaded(db.posts, idStr, fails).Some? && o.resp == Ok("删除文章成功", NoData)
       && o.db == db.(posts := SoftDelete(db.posts, Loaded(db.posts, idStr, fails).value.id, now)))
  {
    if userId.None? then Outcome(Fail(401, LoginFirst), db)
    else match Loaded(db.posts, idStr, fails)
      case None => Outcome(Fail(404, PostMissing), db)
      case Some(post) =>
        if !MayEdit(db, post, userId.value, fails) then Outcome(Fail(403, "无权删除该文章"), db)
        else if Write in fails then Outcome(Fail(500, "删除文章失败"), db)
        else
          var t := SoftDelete(db.posts, post.id, now);
          SameKeysAndFields(db.posts, t, PostSlug);
          Outcome(Ok("删除文章成功", NoData), db.(posts := t))
  }

  method DeletePost(db: Store, idStr: string, userId: Option<nat>, fails: Faults, now: DateTime) returns (resp: Response)
    requires db.Valid()
    modifies db
    ensures db.Valid()
    ensures Outcome(resp, db.State()) == DeletePostSpec(old(db.State()), idStr, userId, fails, now)
  {
    if userId.None? {
      return Fail(401, LoginFirst);
    }
    var found := Loaded(db.posts, idStr, fails);
    if found.None? {
      return Fail(404, PostMissing);
    }
    var post := found.value;
    if post.val.authorId != userId.value {
      var role := if FetchRole in fails then "" else db.State().RoleOf(userId.value);
      if role != AdminRole {
        return Fail(403, "无权删除该文章");
      }
    }
    if Write in fails {
      return Fail(500, "删除文章失败");
    }
    var t := SoftDelete(db.posts, post.id, now);
    SameKeysAndFields(db.posts, t, PostSlug);
    db.posts := t;
    resp := Ok("删除文章成功", NoData);
  }

  /** Once deleted, a post is gone for every later lookup. */
  lemma DeletedPostIsGone(db: Db, idStr: string, userId: Option<nat>, fails: Faults, now: DateTime)
    requires db.Valid() && DeletePostSpec(db, idStr, userId, fails, now).resp.status == 200
    ensures Loaded(DeletePostSpec(db, idStr, userId, fails, now).db.posts, idStr, {}).None?
  {
  }

  // ---------------------------------------------------------------- like

  /** This file's LikePost: any failed lookup is a 404; the loaded count plus one is saved with
      the whole record and reported. */
  function LikePostSpec(db: Db, idStr: string, userId: Option<nat>, fails: Faults, now: DateTime): (o: Outcome)
    requires db.Valid()
    ensures o.db.Valid()
    ensures o.resp.status != 200 ==> o.db == db
    ensures userId.None? ==> o.resp == Fail(401, LoginFirst)
    ensures o.resp.status == 404 <==> userId.Some? && Loaded(db.posts, idStr, fails).None?
    ensures o.resp.status == 500 <==> userId.Some? && Loaded(db.posts, idStr, fails).Some? && Write in fails
    ensures o.resp.status == 200 ==>
      (Loaded(db.posts, idStr, fails).Some?
       && var prior := Loaded(db.posts, idStr, fails).value;
          o.resp == Ok("点赞成功", LikeCount(prior.val.likeCount + 1))
          && o.db == db.(posts := Rewrite(db.posts, prior.id, prior.val.(likeCount := prior.val.likeCount + 1), now)))
  {
    if userId.None? then Outcome(Fail(401, LoginFirst), db)
    else match Loaded(db.posts, idStr, fails)
      case None => Outcome(Fail(404, PostMissing), db)
      case Some(post) =>
        if Write in fails then Outcome(Fail(500, "点赞失败"), db)
        else
          var liked := post.val.(likeCount := post.val.likeCount + 1);
          RewriteSameKey(db.posts, PostSlug, post.id, liked, now);
          Outcome(Ok("点赞成功", LikeCount(liked.likeCount)), db.(posts := Rewrite(db.posts, post.id, liked, now)))
  }

  method LikePost(db: Store, idStr: string, userId: Option<nat>, fails: Faults, now: DateTime) returns (resp: Response)
    requires db.Valid()
    modifies db
    ensures db.Valid()
    ensures Outcome(resp, db.State()) == LikePostSpec(old(db.State()), idStr, userId, fails, now)
  {
    if userId.None? {
      return Fail(401, LoginFirst);
    }
    var found := Loaded(db.posts, idStr, fails);
    if found.None? {
      return Fail(404, PostMissing);
    }
    var post := found.value;
    post := post.(val := post.val.(likeCount := post.val.likeCount + 1));
    if Write in fails {
      return Fail(500, "点赞失败");
    }
    RewriteSameKey(db.posts, PostSlug, post.id, post.val, now);
    post := post.(updatedAt := now);
    db.posts := db.posts[post.id - 1 := post];
    resp := Ok("点赞成功", LikeCount(post.val.likeCount));
  }

  /** Two successful likes raise the stored count by exactly two. */
  lemma LikesAccumulate(db: Db, idStr: string, userId: Option<nat>, fails: Faults, now: DateTime, later: DateTime)
    requires db.Valid()
    requires LikePostSpec(db, idStr, userId, fails, now).resp.status == 200
    requires LikePostSpec(LikePostSpec(db, idStr, userId, fails, now).db, idStr, userId, fails, later).resp.status == 200
    ensures var id := Loaded(db.posts, idStr, fails).value.id;
      var twice := LikePostSpec(LikePostSpec(db, idStr, userId, fails, now).db, idStr, userId, fails, later);
      twice.resp.data == LikeCount(db.posts[id - 1].val.likeCount + 2)
      && twice.db.posts[id - 1].val.likeCount == db.posts[id - 1].val.likeCount + 2
  {
  }

  // ---------------------------------------------------------------- search on keyword

  /** `title LIKE ? OR content LIKE ? OR excerpt LIKE ?` with `%keyword%`. The code applies no
      LOWER and leaves case to the column collation; the model's LIKE compares characters
      exactly. */
  predicate KeywordMatch(p: Row<PostFields>, keyword: string) {
    var pattern := "%" + keyword + "%";
    Like(p.val.title, pattern) || Like(p.val.content, pattern) || Like(p.val.excerpt, pattern)
  }

  /** A keyword without wildcards matches a post exactly when it is a substring of the title,
      the content or the excerpt. */
  lemma KeywordIsSubstring(p: Row<PostFields>, keyword: string)
    requires NoWildcards(keyword)
    ensures KeywordMatch(p, keyword) <==>
      Contains(p.val.title, keyword) || Contains(p.val.content, keyword) || Contains(p.val.excerpt, keyword)
  {
    LikeIsSubstring(p.val.title, keyword);
    LikeIsSubstring(p.val.content, keyword);
    LikeIsSubstring(p.val.excerpt, keyword);
  }

  function KeywordRows(db: Db, keyword: string): (r: seq<Row<PostFields>>)
    ensures forall i | 0 <= i < |r| :: r[i] in db.posts && r[i].Live() && KeywordMatch(r[i], keyword)
    ensures forall i | 0 <= i < |db.posts| :: db.posts[i].Live() && KeywordMatch(db.posts[i], keyword) ==> db.posts[i] in r
    ensures multiset(r) <= multiset(db.posts)
    ensures forall i | 0 <= i < |db.posts| :: db.posts[i].Live() && KeywordMatch(db.posts[i], keyword)
              ==> multiset(r)[db.posts[i]] == multiset(db.posts)[db.posts[i]]
  {
    var keep := (p: Row<PostFields>) => KeywordMatch(p, keyword);
    LiveWhereFacts(db.posts, keep);
    Where(LiveRows(db.posts), keep)
  }

  /** GET /api/posts/search?keyword=… in this file's version: the count's error is not checked,
      but it sticks to the GORM handle and fails the Find, so it still gives 500; the page
      echoes the keyword. */
  function SearchPosts(db: Db, keyword: string, pageStr: Option<string>, pageSizeStr: Option<string>, fails: Faults)
    : (resp: Response)
    ensures keyword == "" ==> resp == Fail(400, "搜索关键词不能为空")
    ensures keyword != "" && (ListQuery in fails || CountQuery in fails) ==> resp == Fail(500, "搜索文章失败")
    ensures resp.status == 200 <==> keyword != "" && ListQuery !in fails && CountQuery !in fails
    ensures resp.status == 200 ==>
      (resp.data.PostPage? && resp.data.keyword == Some(keyword)
       && resp.data.page == Page(pageStr) && resp.data.pageSize == PageSize(pageSizeStr)
       && resp.data.total == |KeywordRows(db, keyword)|
       && resp.data.totalPage == TotalPage(resp.data.total, resp.data.pageSize)
       && |resp.data.posts| <= resp.data.pageSize
       && forall i | 0 <= i < |resp.data.posts| :: resp.data.posts[i] in db.posts && resp.data.posts[i].Live()
            && KeywordMatch(resp.data.posts[i], keyword))
    ensures resp.status == 200 ==>
      resp.data == Post.ListPage(KeywordRows(db, keyword), Page(pageStr), PageSize(pageSizeStr), Some(keyword))
  {
    if keyword == "" then Fail(400, "搜索关键词不能为空")
    else if CountQuery in fails || ListQuery in fails then Fail(500, "搜索文章失败")
    else Ok("搜索文章成功", Post.ListPage(KeywordRows(db, keyword), Page(pageStr), PageSize(pageSizeStr), Some(keyword)))
  }

  // ---------------------------------------------------------------- slugs of categories and tags

  /** Lines 605-634 and 774-803: the slug an update writes. An explicit slug replaces the old
      one; otherwise a new name brings the slug of the new name; otherwise the slug stays. */
  function UpdatedSlug(current: string, name: string, slug: string, slugify: string -> string): (s: string)
    ensures slug != "" ==> s == slug
    ensures slug == "" && name != "" ==> s == slugify(name)
    ensures slug == "" && name == "" ==> s == current
  {
    if slug != "" then slug else if name != "" then slugify(name) else current
  }

  /** Whether the update checks the slug it writes against the other live rows: always for an
      explicit slug, and for a new name only when its slug differs from the current one. */
  predicate SlugChecked(current: string, name: string, slug: string, slugify: string -> string) {
    slug != "" || (name != "" && slugify(name) != current)
  }

  /** An unchecked slug is the current one: the check is skipped only when nothing changes. */
  lemma UncheckedSlugUnchanged(current: string, name: string, slug: string, slugify: string -> string)
    ensures !SlugChecked(current, name, slug, slugify) ==> UpdatedSlug(current, name, slug, slugify) == current
    ensures UpdatedSlug(current, name, slug, slugify) != current ==> SlugChecked(current, name, slug, slugify)
  {
  }

  // ---------------------------------------------------------------- categories

  /** This file's CreateCategory: the slug is the request's or the slug of the name; a live
      category holding it gives 400 before anything is written. A slug held only by a deleted
      row passes the check and then fails the unique index. */
  function CreateCategorySpec(db: Db, body: Option<Category.CategoryBody>, slugify: string -> string,
                              fails: Faults, now: DateTime): (o: Outcome)
    requires db.Valid()
    ensures o.db.Valid()
    ensures o.resp.status != 200 ==> o.db == db && o.resp.data == NoData
    ensures body.None? ==> o.resp == Fail(400, BadRequest)
    ensures body.Some? ==>
      (var v := CategoryFields(body.value.name, GivenSlug(body.value.slug, body.value.name, slugify), body.value.description);
       var inUse := SlugCheck !in fails && Visible(db.categories, CategorySlug, v.slug, 0);
       (inUse <==> o.resp.status == 400)
       && (inUse ==> o.resp == Fail(400, "分类别名已存在"))
       && (!inUse && (Write in fails || db.CategoryClash(v, 0)) <==> o.resp.status == 500)
       && (o.resp.status == 200 ==>
             o.resp == Ok("创建分类成功", CategoryData(Row(|db.categories| + 1, now, now, None, v)))
             && o.db == db.(categories := Insert(db.categories, now, v))))
  {
    if body.None? then Outcome(Fail(400, BadRequest), db)
    else
      var v := CategoryFields(body.value.name, GivenSlug(body.value.slug, body.value.name, slugify), body.value.description);
      if SlugCheck !in fails && Visible(db.categories, CategorySlug, v.slug, 0) then Outcome(Fail(400, "分类别名已存在"), db)
      else if Write in fails || db.CategoryClash(v, 0) then Outcome(Fail(500, "创建分类失败"), db)
      else
        InsertKeepsDense(db.categories, now, v);
        InsertKeepsUnique(db.categories, CategoryName, now, v);
        InsertKeepsUnique(db.categories, CategorySlug, now, v);
        var t := Insert(db.categories, now, v);
        Outcome(Ok("创建分类成功", CategoryData(t[|t| - 1])), db.(categories := t))
  }

  method CreateCategory(db: Store, body: Option<Category.CategoryBody>, slugify: string -> string,
                        fails: Faults, now: DateTime) returns (resp: Response)
    requires db.Valid()
    modifies db
    ensures db.Valid()
    ensures Outcome(resp, db.State()) == CreateCategorySpec(old(db.State()), body, slugify, fails, now)
  {
    if body.None? {
      return Fail(400, BadRequest);
    }
    var req := body.value;
    var categorySlug := req.slug;
    if categorySlug == "" {
      categorySlug := slugify(req.name);
    }
    if SlugCheck !in fails && Visible(db.categories, CategorySlug, categorySlug, 0) {
      return Fail(400, "分类别名已存在");
    }
    var category := CategoryFields(req.name, categorySlug, req.description);
    if Write in fails || db.State().CategoryClash(category, 0) {
      return Fail(500, "创建分类失败");
    }
    InsertKeepsUnique(db.categories, CategoryName, now, category);
    InsertKeepsUnique(db.categories, CategorySlug, now, category);
    var row := Row(|db.categories| + 1, now, now, None, category);
    db.categories := db.categories + [row];
    resp := Ok("创建分类成功", CategoryData(row));
  }

  /** Lines 597-634: name and description take the request's values when non-empty; the slug
      is as UpdatedSlug says. */
  function MergeCategory(c: CategoryFields, b: Category.CategoryBody, slugify: string -> string): (r: CategoryFields)
    ensures r.name == (if b.name != "" then b.name else c.name)
    ensures r.description == (if b.description != "" then b.description else c.description)
    ensures r.slug == UpdatedSlug(c.slug, b.name, b.slug, slugify)
  {
    CategoryFields(if b.name != "" then b.name else c.name, UpdatedSlug(c.slug, b.name, b.slug, slugify),
                   if b.description != "" then b.description else c.description)
  }

  /** This file's UpdateCategory: the body is bound before the row is loaded; the merged slug
      is checked against the other live rows when SlugChecked says; Save writes the whole row. */
  function UpdateCategorySpec(db: Db, idStr: string, body: Option<Category.CategoryBody>, slugify: string -> string,
                              fails: Faults, now: DateTime): (o: Outcome)
    requires db.Valid()
    ensures o.db.Valid()
    ensures o.resp.status != 200 ==> o.db == db && o.resp.data == NoData
  {
    if body.None? then Outcome(Fail(400, BadRequest), db)
    else match Loaded(db.categories, idStr, fails)
      case None => Outcome(Fail(404, "分类不存在"), db)
      case Some(c) =>
        var b := body.value;
        var v := MergeCategory(c.val, b, slugify);
        if SlugChecked(c.val.slug, b.name, b.slug, slugify) && SlugCheck !in fails
           && Visible(db.categories, CategorySlug, v.slug, c.id) then
          Outcome(Fail(400, if b.slug != "" then "分类别名已存在" else "根据新名称生成的分类别名已存在"), db)
        else if Write in fails || db.CategoryClash(v, c.id) then Outcome(Fail(500, "更新分类失败"), db)
        else
          RewriteKeepsUnique(db.categories, CategoryName, c.id, v, now);
          RewriteKeepsUnique(db.categories, CategorySlug, c.id, v, now);
          Outcome(Ok("更新分类成功", CategoryData(c.(val := v, updatedAt := now))),
                  db.(categories := Rewrite(db.categories, c.id, v, now)))
  }

  /** The outcomes of UpdateCategory: 400 for a body that does not bind, 404 for any failed
      lookup, 400 when the checked slug is held by another live category, 500 when the write
      fails or breaks a unique index, and otherwise the merged row written and returned. */
  lemma UpdateCategoryCases(db: Db, idStr: string, body: Option<Category.CategoryBody>, slugify: string -> string,
                            fails: Faults, now: DateTime)
    requires db.Valid()
    ensures var o := UpdateCategorySpec(db, idStr, body, slugify, fails, now);
      (body.None? ==> o.resp == Fail(400, BadRequest))
      && (o.resp.status == 404 <==> body.Some? && Loaded(db.categories, idStr, fails).None?)
      && (body.Some? && Loaded(db.categories, idStr, fails).Some? ==>
            var b := body.value;
            var prior := Loaded(db.categories, idStr, fails).value;
            var v := MergeCategory(prior.val, b, slugify);
            var inUse := SlugChecked(prior.val.slug, b.name, b.slug, slugify) && SlugCheck !in fails
                         && Visible(db.categories, CategorySlug, v.slug, prior.id);
            (inUse <==> o.resp.status == 400)
            && (inUse && b.slug != "" ==> o.resp == Fail(400, "分类别名已存在"))
            && (inUse && b.slug == "" ==> o.resp == Fail(400, "根据新名称生成的分类别名已存在"))
            && (!inUse && (Write in fails || db.CategoryClash(v, prior.id)) <==> o.resp == Fail(500, "更新分类失败"))
            && (o.resp.status == 200 ==>
                  o.resp == Ok("更新分类成功", CategoryData(prior.(val := v, updatedAt := now)))
                  && o.db == db.(categories := Rewrite(db.categories, prior.id, v, now))))
  {
  }

  /** Lines 597-634 step by step: the merged fields, or the message of the slug clash. */
  method MergeCategoryRequest(db: Db, category: Row<CategoryFields>, req: Category.CategoryBody,
                              slugify: string -> string, fails: Faults)
    returns (refusal: Option<string>, fields: CategoryFields)
    ensures fields == MergeCategory(category.val, req, slugify)
    ensures refusal.Some? <==>
      (SlugChecked(category.val.slug, req.name, req.slug, slugify) && SlugCheck !in fails
       && Visible(db.categories, CategorySlug, fields.slug, category.id))
    ensures refusal.Some? ==> refusal.value == (if req.slug != "" then "分类别名已存在" else "根据新名称生成的分类别名已存在")
  {
    refusal := None;
    fields := category.val;
    if req.name != "" {
      fields := fields.(name := req.name);
    }
    if req.description != "" {
      fields := fields.(description := req.description);
    }
    if req.slug != "" {
      if SlugCheck !in fails && Visible(db.categories, CategorySlug, req.slug, category.id) {
        refusal := Some("分类别名已存在");
      }
      fields := fields.(slug := req.slug);
    } else if req.name != "" {
      var newSlug := slugify(fields.name);
      if newSlug != fields.slug {
        if SlugCheck !in fails && Visible(db.categories, CategorySlug, newSlug, category.id) {
          refusal := Some("根据新名称生成的分类别名已存在");
        }
        fields := fields.(slug := newSlug);
      }
    }
  }

  method UpdateCategory(db: Store, idStr: string, body: Option<Category.CategoryBody>, slugify: string -> string,
                        fails: Faults, now: DateTime) returns (resp: Response)
    requires db.Valid()
    modifies db
    ensures db.Valid()
    ensures Outcome(resp, db.State()) == UpdateCategorySpec(old(db.State()), idStr, body, slugify, fails, now)
  {
    if body.None? {
      return Fail(400, BadRequest);
    }
    var req := body.value;
    var found := Loaded(db.categories, idStr, fails);
    if found.None? {
      return Fail(404, "分类不存在");
    }
    var category := found.value;
    var refusal, fields := MergeCategoryRequest(db.State(), category, req, slugify, fails);
    if refusal.Some? {
      return Fail(400, refusal.value);
    }
    if Write in fails || db.State().CategoryClash(fields, category.id) {
      return Fail(500, "更新分类失败");
    }
    RewriteKeepsUnique(db.categories, CategoryName, category.id, fields, now);
    RewriteKeepsUnique(db.categories, CategorySlug, category.id, fields, now);
    ghost var after := db.State().(categories := Rewrite(db.categories, category.id, fields, now));
    category := category.(val := fields, updatedAt := now);
    db.categories := db.categories[category.id - 1 := category];
    assert db.State() == after;
    resp := Ok("更新分类成功", CategoryData(category));
  }

  /** An explicit slug is refused exactly when another live category holds it (the check
      running), and an update naming neither a name nor a slug keeps the slug. */
  lemma CategorySlugRules(db: Db, idStr: string, body: Option<Category.CategoryBody>, slugify: string -> string,
                          fails: Faults, now: DateTime)
    requires db.Valid() && SlugCheck !in fails && body.Some? && Loaded(db.categories, idStr, fails).Some?
    ensures var o := UpdateCategorySpec(db, idStr, body, slugify, fails, now);
      var prior := Loaded(db.categories, idStr, fails).value;
      (body.value.slug != "" ==>
         (o.resp == Fail(400, "分类别名已存在") <==> Visible(db.categories, CategorySlug, body.value.slug, prior.id)))
      && (body.value.slug == "" && body.value.name == "" && o.resp.status == 200 ==>
            o.db.categories[prior.id - 1].val.slug == prior.val.slug)
  {
    UpdateCategoryCases(db, idStr, body, slugify, fails, now);
  }

  /** This file's DeleteCategory: a soft delete that leaves the post links in place. */
  function DeleteCategorySpec(db: Db, idStr: string, fails: Faults, now: DateTime): (o: Outcome)
    requires db.Valid()
    ensures o.db.Valid()
    ensures o.resp.status != 200 ==> o.db == db
    ensures o.resp.status == 404 <==> Loaded(db.categories, idStr, fails).None?
    ensures o.resp.status == 500 <==> Loaded(db.categories, idStr, fails).Some? && Write in fails
    ensures o.resp.status == 200 ==>
      (Loaded(db.categories, idStr, fails).Some? && o.resp == Ok("删除分类成功", NoData)
       && o.db == db.(categories := SoftDelete(db.categories, Loaded(db.categories, idStr, fails).value.id, now))
       && o.db.postCategories == db.postCategories)
  {
    match Loaded(db.categories, idStr, fails)
    case None => Outcome(Fail(404, "分类不存在"), db)
    case Some(c) =>
      if Write in fails then Outcome(Fail(500, "删除分类失败"), db)
      else
        var t := SoftDelete(db.categories, c.id, now);
        SameKeysAndFields(db.categories, t, CategoryName);
        SameKeysAndFields(db.categories, t, CategorySlug);
        Outcome(Ok("删除分类成功", NoData), db.(categories := t))
  }

  method DeleteCategory(db: Store, idStr: string, fails: Faults, now: DateTime) returns (resp: Response)
    requires db.Valid()
    modifies db
    ensures db.Valid()
    ensures Outcome(resp, db.State()) == DeleteCategorySpec(old(db.State()), idStr, fails, now)
  {
    var found := Loaded(db.categories, idStr, fails);
    if found.None? {
      return Fail(404, "分类不存在");
    }
    if Write in fails {
      return Fail(500, "删除分类失败");
    }
    var t := SoftDelete(db.categories, found.value.id, now);
    SameKeysAndFields(db.categories, t, CategoryName);
    SameKeysAndFields(db.categories, t, CategorySlug);
    db.categories := t;
    resp := Ok("删除分类成功", NoData);
  }

  /** The two DeleteCategory handlers soft-delete the same row, but only the one in
      backend/api/category.go removes the category's post links. */
  lemma DeleteCategoryVariants(db: Db, idStr: string, now: DateTime)
    requires db.Valid() && Atoi(idStr).Some? && Lookup(db.categories, Atoi(idStr).value).Some?
    ensures DeleteCategorySpec(db, idStr, {}, now).db.categories == Category.DeleteCategorySpec(db, idStr, {}, now).db.categories
    ensures DeleteCategorySpec(db, idStr, {}, now).db.postCategories == db.postCategories
    ensures Category.DeleteCategorySpec(db, idStr, {}, now).db.postCategories == Unlinked(db.postCategories, Atoi(idStr).value)
  {
  }

  /** This file's GetCategory: every failure is a 404. */
  function GetCategory(db: Db, idStr: string, fails: Faults): (resp: Response)
    requires db.Valid()
    ensures resp.status in {200, 404}
    ensures resp.status == 404 <==> Loaded(db.categories, idStr, fails).None?
    ensures resp.status == 404 ==> resp == Fail(404, "分类不存在")
    ensures resp.status == 200 ==> resp.data == CategoryData(Loaded(db.categories, idStr, fails).value)
  {
    match Loaded(db.categories, idStr, fails)
    case None => Fail(404, "分类不存在")
    case Some(c) => Ok("获取分类详情成功", CategoryData(c))
  }

  /** Where backend/api/category.go answers 400 or 500, this version answers 404; otherwise the
      two agree. */
  lemma GetCategoryVariants(db: Db, idStr: string, fails: Faults)
    requires db.Valid()
    ensures Atoi(idStr).Some? && Fetch !in fails ==> GetCategory(db, idStr, fails) == Category.GetCategory(db, idStr, fails)
    ensures Category.GetCategory(db, idStr, fails).status in {400, 500} ==> GetCategory(db, idStr, fails).status == 404
  {
  }

  // ---------------------------------------------------------------- tags

  /** This file's CreateTag, the same as its CreateCategory over name and slug. */
  function CreateTagSpec(db: Db, body: Option<Tag.TagBody>, slugify: string -> string,
                         fails: Faults, now: DateTime): (o: Outcome)
    requires db.Valid()
    ensures o.db.Valid()
    ensures o.resp.status != 200 ==> o.db == db && o.resp.data == NoData
    ensures body.None? ==> o.resp == Fail(400, BadRequest)
    ensures body.Some? ==>
      (var v := TagFields(body.value.name, GivenSlug(body.value.slug, body.value.name, slugify));
       var inUse := SlugCheck !in fails && Visible(db.tags, TagSlug, v.slug, 0);
       (inUse <==> o.resp.status == 400)
       && (inUse ==> o.resp == Fail(400, "标签别名已存在"))
       && (!inUse && (Write in fails || db.TagClash(v, 0)) <==> o.resp.status == 500)
       && (o.resp.status == 200 ==>
             o.resp == Ok("创建标签成功", TagData(Row(|db.tags| + 1, now, now, None, v)))
             && o.db == db.(tags := Insert(db.tags, now, v))))
  {
    if body.None? then Outcome(Fail(400, BadRequest), db)
    else
      var v := TagFields(body.value.name, GivenSlug(body.value.slug, body.value.name, slugify));
      if SlugCheck !in fails && Visible(db.tags, TagSlug, v.slug, 0) then Outcome(Fail(400, "标签别名已存在"), db)
      else if Write in fails || db.TagClash(v, 0) then Outcome(Fail(500, "创建标签失败"), db)
      else
        InsertKeepsDense(db.tags, now, v);
        InsertKeepsUnique(db.tags, TagName, now, v);
        InsertKeepsUnique(db.tags, TagSlug, now, v);
        var t := Insert(db.tags, now, v);
        Outcome(Ok("创建标签成功", TagData(t[|t| - 1])), db.(tags := t))
  }

  method CreateTag(db: Store, body: Option<Tag.TagBody>, slugify: string -> string,
                   fails: Faults, now: DateTime) returns (resp: Response)
    requires db.Valid()
    modifies db
    ensures db.Valid()
    ensures Outcome(resp, db.State()) == CreateTagSpec(old(db.State()), body, slugify, fails, now)
  {
    if body.None? {
      return Fail(400, BadRequest);
    }
    var req := body.value;
    var tagSlug := req.slug;
    if tagSlug == "" {
      tagSlug := slugify(req.name);
    }
    if SlugCheck !in fails && Visible(db.tags, TagSlug, tagSlug, 0) {
      return Fail(400, "标签别名已存在");
    }
    var tag := TagFields(req.name, tagSlug);
    if Write in fails || db.State().TagClash(tag, 0) {
      return Fail(500, "创建标签失败");
    }
    InsertKeepsUnique(db.tags, TagName, now, tag);
    InsertKeepsUnique(db.tags, TagSlug, now, tag);
    var row := Row(|db.tags| + 1, now, now, None, tag);
    db.tags := db.tags + [row];
    resp := Ok("创建标签成功", TagData(row));
  }

  /** Lines 769-803: the name is taken when non-empty; the slug is as UpdatedSlug says. */
  function MergeTag(g: TagFields, b: Tag.TagBody, slugify: string -> string): (r: TagFields)
    ensures r.name == (if b.name != "" then b.name else g.name)
    ensures r.slug == UpdatedSlug(g.slug, b.name, b.slug, slugify)
  {
    TagFields(if b.name != "" then b.name else g.name, UpdatedSlug(g.slug, b.name, b.slug, slugify))
  }

  /** This file's UpdateTag, the same as its UpdateCategory over name and slug. */
  function UpdateTagSpec(db: Db, idStr: string, body: Option<Tag.TagBody>, slugify: string -> string,
                         fails: Faults, now: DateTime): (o: Outcome)
    requires db.Valid()
    ensures o.db.Valid()
    ensures o.resp.status != 200 ==> o.db == db && o.resp.data == NoData
  {
    if body.None? then Outcome(Fail(400, BadRequest), db)
    else match Loaded(db.tags, idStr, fails)
      case None => Outcome(Fail(404, "标签不存在"), db)
      case Some(g) =>
        var b := body.value;
        var v := MergeTag(g.val, b, slugify);
        if SlugChecked(g.val.slug, b.name, b.slug, slugify) && SlugCheck !in fails
           && Visible(db.tags, TagSlug, v.slug, g.id) then
          Outcome(Fail(400, if b.slug != "" then "标签别名已存在" else "根据新名称生成的标签别名已存在"), db)
        else if Write in fails || db.TagClash(v, g.id) then Outcome(Fail(500, "更新标签失败"), db)
        else
          RewriteKeepsUnique(db.tags, TagName, g.id, v, now);
          RewriteKeepsUnique(db.tags, TagSlug, g.id, v, now);
          Outcome(Ok("更新标签成功", TagData(g.(val := v, updatedAt := now))), db.(tags := Rewrite(db.tags, g.id, v, now)))
  }

  /** The outcomes of UpdateTag, as for UpdateCategory. */
  lemma UpdateTagCases(db: Db, idStr: string, body: Option<Tag.TagBody>, slugify: string -> string,
                       fails: Faults, now: DateTime)
    requires db.Valid()
    ensures var o := UpdateTagSpec(db, idStr, body, slugify, fails, now);
      (body.None? ==> o.resp == Fail(400, BadRequest))
      && (o.resp.status == 404 <==> body.Some? && Loaded(db.tags, idStr, fails).None?)
      && (body.Some? && Loaded(db.tags, idStr, fails).Some? ==>
            var b := body.value;
            var prior := Loaded(db.tags, idStr, fails).value;
            var v := MergeTag(prior.val, b, slugify);
            var inUse := SlugChecked(prior.val.slug, b.name, b.slug, slugify) && SlugCheck !in fails
                         && Visible(db.tags, TagSlug, v.slug, prior.id);
            (inUse <==> o.resp.status == 400)
            && (inUse && b.slug != "" ==> o.resp == Fail(400, "标签别名已存在"))
            && (inUse && b.slug == "" ==> o.resp == Fail(400, "根据新名称生成的标签别名已存在"))
            && (!inUse && (Write in fails || db.TagClash(v, prior.id)) <==> o.resp == Fail(500, "更新标签失败"))
            && (o.resp.status == 200 ==>
                  o.resp == Ok("更新标签成功", TagData(prior.(val := v, updatedAt := now)))
                  && o.db == db.(tags := Rewrite(db.tags, prior.id, v, now))))
  {
  }

  /** Lines 769-803 step by step: the merged fields, or the message of the slug clash. */
  method MergeTagRequest(db: Db, tag: Row<TagFields>, req: Tag.TagBody, slugify: string -> string, fails: Faults)
    returns (refusal: Option<string>, fields: TagFields)
    ensures fields == MergeTag(tag.val, req, slugify)
    ensures refusal.Some? <==>
      (SlugChecked(tag.val.slug, req.name, req.slug, slugify) && SlugCheck !in fails
       && Visible(db.tags, TagSlug, fields.slug, tag.id))
    ensures refusal.Some? ==> refusal.value == (if req.slug != "" then "标签别名已存在" else "根据新名称生成的标签别名已存在")
  {
    refusal := None;
    fields := tag.val;
    if req.name != "" {
      fields := fields.(name := req.name);
    }
    if req.slug != "" {
      if SlugCheck !in fails && Visible(db.tags, TagSlug, req.slug, tag.id) {
        refusal := Some("标签别名已存在");
      }
      fields := fields.(slug := req.slug);
    } else if req.name != "" {
      var newSlug := slugify(fields.name);
      if newSlug != fields.slug {
        if SlugCheck !in fails && Visible(db.tags, TagSlug, newSlug, tag.id) {
          refusal := Some("根据新名称生成的标签别名已存在");
        }
        fields := fields.(slug := newSlug);
      }
    }
  }

  method UpdateTag(db: Store, idStr: string, body: Option<Tag.TagBody>, slugify: string -> string,
                   fails: Faults, now: DateTime) returns (resp: Response)
    requires db.Valid()
    modifies db
    ensures db.Valid()
    ensures Outcome(resp, db.State()) == UpdateTagSpec(old(db.State()), idStr, body, slugify, fails, now)
  {
    if body.None? {
      return Fail(400, BadRequest);
    }
    var req := body.value;
    var found := Loaded(db.tags, idStr, fails);
    if found.None? {
      return Fail(404, "标签不存在");
    }
    var tag := found.value;
    var refusal, fields := MergeTagRequest(db.State(), tag, req, slugify, fails);
    if refusal.Some? {
      return Fail(400, refusal.value);
    }
    if Write in fails || db.State().TagClash(fields, tag.id) {
      return Fail(500, "更新标签失败");
    }
    RewriteKeepsUnique(db.tags, TagName, tag.id, fields, now);
    RewriteKeepsUnique(db.tags, TagSlug, tag.id, fields, now);
    ghost var after := db.State().(tags := Rewrite(db.tags, tag.id, fields, now));
    tag := tag.(val := fields, updatedAt := now);
    db.tags := db.tags[tag.id - 1 := tag];
    assert db.State() == after;
    resp := Ok("更新标签成功", TagData(tag));
  }

  /** This file's DeleteTag: a soft delete that leaves the post links in place. */
  function DeleteTagSpec(db: Db, idStr: string, fails: Faults, now: DateTime): (o: Outcome)
    requires db.Valid()
    ensures o.db.Valid()
    ensures o.resp.status != 200 ==> o.db == db
    ensures o.resp.status == 404 <==> Loaded(db.tags, idStr, fails).None?
    ensures o.resp.status == 500 <==> Loaded(db.tags, idStr, fails).Some? && Write in fails
    ensures o.resp.status == 200 ==>
      (Loaded(db.tags, idStr, fails).Some? && o.resp == Ok("删除标签成功", NoData)
       && o.db == db.(tags := SoftDelete(db.tags, Loaded(db.tags, idStr, fails).value.id, now))
       && o.db.postTags == db.postTags)
  {
    match Loaded(db.tags, idStr, fails)
    case None => Outcome(Fail(404, "标签不存在"), db)
    case Some(g) =>
      if Write in fails then Outcome(Fail(500, "删除标签失败"), db)
      else
        var t := SoftDelete(db.tags, g.id, now);
        SameKeysAndFields(db.tags, t, TagName);
        SameKeysAndFields(db.tags, t, TagSlug);
        Outcome(Ok("删除标签成功", NoData), db.(tags := t))
  }

  method DeleteTag(db: Store, idStr: string, fails: Faults, now: DateTime) returns (resp: Response)
    requires db.Valid()
    modifies db
    ensures db.Valid()
    ensures Outcome(resp, db.State()) == DeleteTagSpec(old(db.State()), idStr, fails, now)
  {
    var found := Loaded(db.tags, idStr, fails);
    if found.None? {
      return Fail(404, "标签不存在");
    }
    if Write in fails {
      return Fail(500, "删除标签失败");
    }
    var t := SoftDelete(db.tags, found.value.id, now);
    SameKeysAndFields(db.tags, t, TagName);
    SameKeysAndFields(db.tags, t, TagSlug);
    db.tags := t;
    resp := Ok("删除标签成功", NoData);
  }

  /** This file's GetTag: every failure is a 404. */
  function GetTag(db: Db, idStr: string, fails: Faults): (resp: Response)
    requires db.Valid()
    ensures resp.status in {200, 404}
    ensures resp.status == 404 <==> Loaded(db.tags, idStr, fails).None?
    ensures resp.status == 404 ==> resp == Fail(404, "标签不存在")
    ensures resp.status == 200 ==> resp.data == TagData(Loaded(db.tags, idStr, fails).value)
  {
    match Loaded(db.tags, idStr, fails)
    case None => Fail(404, "标签不存在")
    case Some(g) => Ok("获取标签详情成功", TagData(g))
  }

  // ---------------------------------------------------------------- users

  /** GET users: the live users as they serialise, without their passwords. */
  function GetUsers(db: Db, fails: Faults): (resp: Response)
    ensures ListQuery in fails ==> resp == Fail(500, "获取用户列表失败")
    ensures ListQuery !in fails ==>
      (resp.status == 200 && resp.data.UserList? && |resp.data.userList| == |LiveRows(db.users)|
       && forall i | 0 <= i < |resp.data.userList| ::
            "password" !in resp.data.userList[i] && resp.data.userList[i] == UserJson(LiveRows(db.users)[i]))
  {
    var live := LiveRows(db.users);
    if ListQuery in fails then Fail(500, "获取用户列表失败")
    else Ok("获取用户列表成功", UserList(seq(|live|, i requires 0 <= i < |live| => UserJson(live[i]))))
  }

  /** GET user: one live user as it serialises; every failure is a 404. */
  function GetUser(db: Db, idStr: string, fails: Faults): (resp: Response)
    requires db.Valid()
    ensures resp.status == 404 <==> Loaded(db.users, idStr, fails).None?
    ensures resp.status == 404 ==> resp == Fail(404, "用户不存在")
    ensures resp.status == 200 ==>
      (resp.data.UserData? && "password" !in resp.data.user
       && resp.data.user == UserJson(Loaded(db.users, idStr, fails).value))
  {
    match Loaded(db.users, idStr, fails)
    case None => Fail(404, "用户不存在")
    case Some(u) => Ok("获取用户详情成功", UserData(UserJson(u)))
  }

  /** The two unimplemented user handlers: 200 and no change. */
  function UpdateUser(db: Db): (o: Outcome)
    ensures o.db == db && o.resp.status == 200 && o.resp.data == NoData
  {
    Outcome(Ok("更新用户信息成功 (待实现)", NoData), db)
  }

  function DeleteUser(db: Db): (o: Outcome)
    ensures o.db == db && o.resp.status == 200 && o.resp.data == NoData
  {
    Outcome(Ok("删除用户成功 (待实现)", NoData), db)
  }
}
