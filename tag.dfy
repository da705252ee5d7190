/** backend/api/tag.go: the tag handlers, built like the category ones of
    backend/api/category.go over two fields, name and slug. */
module Tag {
  import opened Wrappers
  import opened Text
  import opened Models

  const BadId := "无效的标签ID"
  const BadParams := "参数错误"
  const NotFound := "标签不存在"
  const FetchFailed := "查询标签失败"

  /** The bodies decoded by `BindAndValidate`; a body that does not decode is None. */
  datatype TagBody = TagBody(name: string, slug: string)

  /** The `vd` rules of the create request: name and slug of 1 to 50 bytes. */
  predicate CreateRules(b: TagBody) {
    0 < Utf8Len(b.name) <= 50 && 0 < Utf8Len(b.slug) <= 50
  }

  /** The `vd` rules of the update request: at most 50 bytes each, both optional. */
  predicate UpdateRules(b: TagBody) {
    Utf8Len(b.name) <= 50 && Utf8Len(b.slug) <= 50
  }

  // ---------------------------------------------------------------- reads

  /** GET /api/tags. */
  function GetTags(db: Db, fails: Faults): (resp: Response)
    ensures ListQuery in fails ==> resp == Fail(500, "获取标签列表失败")
    ensures ListQuery !in fails ==>
      (resp.status == 200 && resp.data.TagList?
       && (forall i | 0 <= i < |resp.data.tags| :: resp.data.tags[i] in db.tags && resp.data.tags[i].Live())
       && (forall i | 0 <= i < |db.tags| :: db.tags[i].Live() ==> db.tags[i] in resp.data.tags))
  {
    if ListQuery in fails then Fail(500, "获取标签列表失败")
    else Ok("获取标签列表成功", TagList(LiveRows(db.tags)))
  }

  /** GET /api/tags/:id. */
  function GetTag(db: Db, idStr: string, fails: Faults): (resp: Response)
    requires db.Valid()
    ensures Atoi(idStr).None? ==> resp == Fail(400, BadId)
    ensures Atoi(idStr).Some? && Fetch in fails ==> resp == Fail(500, FetchFailed)
    ensures resp.status == 404 <==> Atoi(idStr).Some? && Fetch !in fails && Lookup(db.tags, Atoi(idStr).value).None?
    ensures resp.status == 200 ==>
      (Atoi(idStr).Some? && resp.data.TagData? && Lookup(db.tags, Atoi(idStr).value) == Some(resp.data.tag))
    ensures resp.status in {200, 400, 404, 500}
  {
    match Atoi(idStr)
    case None => Fail(400, BadId)
    case Some(id) =>
      if Fetch in fails then Fail(500, FetchFailed)
      else match Lookup(db.tags, id)
        case None => Fail(404, NotFound)
        case Some(t) => Ok("获取标签详情成功", TagData(t))
  }

  /** GET /api/tags/hot: at most ten live tags, most linked first. */
  function GetHotTags(db: Db, fails: Faults): (resp: Response)
    ensures HotTagsQuery in fails ==> resp == Fail(500, "获取热门标签失败")
    ensures HotTagsQuery !in fails ==>
      (resp.status == 200 && resp.data.HotTags? && |resp.data.hotTags| <= 10
       && |resp.data.hotTags| == (if |LiveRows(db.tags)| <= 10 then |LiveRows(db.tags)| else 10)
       && (forall i | 0 <= i < |resp.data.hotTags| :: resp.data.hotTags[i].row in db.tags && resp.data.hotTags[i].row.Live()
             && resp.data.hotTags[i].postCount == PostCount(db.postTags, resp.data.hotTags[i].row.id))
       && resp.data.hotTags == HotList(db.tags, db.postTags, 10))
  {
    HotListFacts(db.tags, db.postTags, 10);
    if HotTagsQuery in fails then Fail(500, "获取热门标签失败")
    else Ok("获取热门标签成功", HotTags(HotList(db.tags, db.postTags, 10)))
  }

  // ---------------------------------------------------------------- create

  function Fields(b: TagBody): (t: TagFields)
    ensures t.name == b.name && t.slug == b.slug
  {
    TagFields(b.name, b.slug)
  }

  /** POST /api/tags: the validated body becomes a new row; a clash with the unique name or
      slug index, soft-deleted rows included, fails the insert with 500. */
  function CreateTagSpec(db: Db, body: Option<TagBody>, fails: Faults, now: DateTime): (o: Outcome)
    requires db.Valid()
    ensures o.db.Valid()
    ensures o.resp.status == 400 <==> body.None? || !CreateRules(body.value)
    ensures o.resp.status == 500 <==>
      (body.Some? && CreateRules(body.value) && (Write in fails || db.TagClash(Fields(body.value), 0)))
    ensures o.resp.status != 201 ==> o.db == db && o.resp.data == NoData
    ensures o.resp.status == 201 ==>
      (o.resp.code == 201 && body.Some?
       && o.db == db.(tags := Insert(db.tags, now, Fields(body.value)))
       && o.resp.data == TagData(Row(|db.tags| + 1, now, now, None, Fields(body.value))))
  {
    if body.None? || !CreateRules(body.value) then Outcome(Fail(400, BadParams), db)
    else
      var v := Fields(body.value);
      if Write in fails || db.TagClash(v, 0) then Outcome(Fail(500, "创建标签失败"), db)
      else
        InsertKeepsDense(db.tags, now, v);
        InsertKeepsUnique(db.tags, TagName, now, v);
        InsertKeepsUnique(db.tags, TagSlug, now, v);
        var t := Insert(db.tags, now, v);
        Outcome(Response(201, 201, "创建标签成功", TagData(t[|t| - 1])), db.(tags := t))
  }

  method CreateTag(db: Store, body: Option<TagBody>, fails: Faults, now: DateTime) returns (resp: Response)
    requires db.Valid()
    modifies db
    ensures db.Valid()
    ensures Outcome(resp, db.State()) == CreateTagSpec(old(db.State()), body, fails, now)
  {
    if body.None? || !CreateRules(body.value) {
      return Fail(400, BadParams);
    }
    var tag := Fields(body.value);
    if Write in fails || db.State().TagClash(tag, 0) {
      return Fail(500, "创建标签失败");
    }
    var row := Row(|db.tags| + 1, now, now, None, tag);
    db.tags := db.tags + [row];
    resp := Response(201, 201, "创建标签成功", TagData(row));
  }

  // ---------------------------------------------------------------- update

  /** The `updates` map: exactly the non-empty fields of the request. */
  function Updates(b: TagBody): (u: map<string, string>)
    ensures "name" in u <==> b.name != ""
    ensures "slug" in u <==> b.slug != ""
    ensures u.Keys <= {"name", "slug"}
    ensures "name" in u ==> u["name"] == b.name
    ensures "slug" in u ==> u["slug"] == b.slug
  {
    var u0: map<string, string> := map[];
    var u1 := if b.name != "" then u0["name" := b.name] else u0;
    if b.slug != "" then u1["slug" := b.slug] else u1
  }

  function Apply(t: TagFields, u: map<string, string>): (r: TagFields)
    ensures r.name == (if "name" in u then u["name"] else t.name)
    ensures r.slug == (if "slug" in u then u["slug"] else t.slug)
  {
    TagFields(if "name" in u then u["name"] else t.name, if "slug" in u then u["slug"] else t.slug)
  }

  /** With neither field set the map is empty, and applying an empty map changes nothing. */
  lemma EmptyUpdatesChangeNothing(b: TagBody, t: TagFields)
    ensures |Updates(b)| == 0 <==> b.name == "" && b.slug == ""
    ensures |Updates(b)| == 0 ==> Apply(t, Updates(b)) == t
  {
    if |Updates(b)| == 0 {
      assert "name" !in Updates(b);
    } else {
      var k :| k in Updates(b);
    }
  }

  /** PUT /api/tags/:id: writes only a non-empty name and slug; with neither there is no write
      and the response is still 200. */
  function UpdateTagSpec(db: Db, idStr: string, body: Option<TagBody>, fails: Faults, now: DateTime): (o: Outcome)
    requires db.Valid()
    ensures o.db.Valid()
    ensures o.resp.status != 200 ==> o.db == db && o.resp.data == NoData
    ensures Atoi(idStr).None? ==> o.resp == Fail(400, BadId)
    ensures o.resp.status == 400 <==> Atoi(idStr).None? || body.None? || !UpdateRules(body.value)
    ensures o.resp.status == 404 <==> (Atoi(idStr).Some? && body.Some? && UpdateRules(body.value)
      && Fetch !in fails && Lookup(db.tags, Atoi(idStr).value).None?)
    ensures o.resp.status == 200 ==>
      (body.Some? && Atoi(idStr).Some? && Lookup(db.tags, Atoi(idStr).value).Some?
       && (var prior := Lookup(db.tags, Atoi(idStr).value).value;
           var merged := Apply(prior.val, Updates(body.value));
           (|Updates(body.value)| == 0 ==> o.db == db && o.resp.data == TagData(prior))
           && (|Updates(body.value)| > 0 ==>
                 o.resp.data == TagData(prior.(val := merged, updatedAt := now))
                 && o.db == db.(tags := Rewrite(db.tags, prior.id, merged, now)))))
    ensures o.resp.status == 500 <==>
      (Atoi(idStr).Some? && body.Some? && UpdateRules(body.value)
       && (Fetch in fails
           || (Lookup(db.tags, Atoi(idStr).value).Some? && |Updates(body.value)| > 0
               && (Write in fails
                   || db.TagClash(Apply(Lookup(db.tags, Atoi(idStr).value).value.val, Updates(body.value)),
                                        Atoi(idStr).value)))))
    ensures o.resp.status in {200, 400, 404, 500}
  {
    match Atoi(idStr)
    case None => Outcome(Fail(400, BadId), db)
    case Some(id) =>
      if body.None? || !UpdateRules(body.value) then Outcome(Fail(400, BadParams), db)
      else if Fetch in fails then Outcome(Fail(500, FetchFailed), db)
      else match Lookup(db.tags, id)
        case None => Outcome(Fail(404, NotFound), db)
        case Some(t) =>
          var u := Updates(body.value);
          if |u| == 0 then Outcome(Ok("更新标签成功", TagData(t)), db)
          else
            var v := Apply(t.val, u);
            if Write in fails || db.TagClash(v, t.id) then Outcome(Fail(500, "更新标签失败"), db)
            else
              RewriteKeepsUnique(db.tags, TagName, t.id, v, now);
              RewriteKeepsUnique(db.tags, TagSlug, t.id, v, now);
              Outcome(Ok("更新标签成功", TagData(t.(val := v, updatedAt := now))),
                      db.(tags := Rewrite(db.tags, t.id, v, now)))
  }

  method UpdateTag(db: Store, idStr: string, body: Option<TagBody>, fails: Faults, now: DateTime)
    returns (resp: Response)
    requires db.Valid()
    modifies db
    ensures db.Valid()
    ensures Outcome(resp, db.State()) == UpdateTagSpec(old(db.State()), idStr, body, fails, now)
  {
    var parsed := Atoi(idStr);
    if parsed.None? {
      return Fail(400, BadId);
    }
    var id := parsed.value;
    if body.None? || !UpdateRules(body.value) {
      return Fail(400, BadParams);
    }
    var req := body.value;
    if Fetch in fails {
      return Fail(500, FetchFailed);
    }
    var found := Lookup(db.tags, id);
    if found.None? {
      return Fail(404, NotFound);
    }
    var tag := found.value;
    var updates: map<string, string> := map[];
    if req.name != "" {
      updates := updates["name" := req.name];
    }
    if req.slug != "" {
      updates := updates["slug" := req.slug];
    }
    assert updates == Updates(req);
    if |updates| > 0 {
      var v := Apply(tag.val, updates);
      if Write in fails || db.State().TagClash(v, tag.id) {
        return Fail(500, "更新标签失败");
      }
      RewriteKeepsUnique(db.tags, TagName, tag.id, v, now);
      RewriteKeepsUnique(db.tags, TagSlug, tag.id, v, now);
      ghost var after := db.State().(tags := Rewrite(db.tags, tag.id, v, now));
      tag := tag.(val := v, updatedAt := now);
      db.tags := db.tags[tag.id - 1 := tag];
      assert db.State() == after;
    }
    resp := Ok("更新标签成功", TagData(tag));
  }

  // ---------------------------------------------------------------- delete

  /** DELETE /api/tags/:id: in one transaction, clear the post links and soft-delete the row;
      if either step fails, nothing changes. */
  function DeleteTagSpec(db: Db, idStr: string, fails: Faults, now: DateTime): (o: Outcome)
    requires db.Valid()
    ensures o.db.Valid()
    ensures o.resp.status != 200 ==> o.db == db
    ensures o.resp.status == 400 <==> Atoi(idStr).None?
    ensures o.resp.status == 404 <==> Atoi(idStr).Some? && Fetch !in fails && Lookup(db.tags, Atoi(idStr).value).None?
    ensures o.resp.status == 500 <==> (Atoi(idStr).Some? && (Fetch in fails ||
      (Lookup(db.tags, Atoi(idStr).value).Some? && (Clear in fails || Write in fails))))
    ensures o.resp.status == 200 ==>
      (Atoi(idStr).Some? && 1 <= Atoi(idStr).value <= |db.tags|
       && o.db == db.(tags := SoftDelete(db.tags, Atoi(idStr).value, now),
                      postTags := Unlinked(db.postTags, Atoi(idStr).value)))
  {
    match Atoi(idStr)
    case None => Outcome(Fail(400, BadId), db)
    case Some(id) =>
      if Fetch in fails then Outcome(Fail(500, FetchFailed), db)
      else match Lookup(db.tags, id)
        case None => Outcome(Fail(404, NotFound), db)
        case Some(_) =>
          if Clear in fails || Write in fails then Outcome(Fail(500, "删除标签失败"), db)
          else
            var t := SoftDelete(db.tags, id, now);
            SameKeysAndFields(db.tags, t, TagName);
            SameKeysAndFields(db.tags, t, TagSlug);
            Outcome(Ok("删除标签成功", NoData), db.(tags := t, postTags := Unlinked(db.postTags, id)))
  }

  method DeleteTag(db: Store, idStr: string, fails: Faults, now: DateTime) returns (resp: Response)
    requires db.Valid()
    modifies db
    ensures db.Valid()
    ensures Outcome(resp, db.State()) == DeleteTagSpec(old(db.State()), idStr, fails, now)
  {
    var parsed := Atoi(idStr);
    if parsed.None? {
      return Fail(400, BadId);
    }
    var id := parsed.value;
    if Fetch in fails {
      return Fail(500, FetchFailed);
    }
    if Lookup(db.tags, id).None? {
      return Fail(404, NotFound);
    }
    // The transaction works on copies and writes them back on commit.
    var links := db.postTags;
    var table := db.tags;
    if Clear in fails {
      return Fail(500, "删除标签失败");
    }
    links := Unlinked(links, id);
    if Write in fails {
      return Fail(500, "删除标签失败");
    }
    table := SoftDelete(table, id, now);
    SameKeysAndFields(db.tags, table, TagName);
    SameKeysAndFields(db.tags, table, TagSlug);
    db.postTags, db.tags := links, table;
    resp := Ok("删除标签成功", NoData);
  }
}
