/** backend/api/category.go: the category handlers that take the id from the path with Atoi,
    tell a missing row (404) from any other failure (500), write only the non-empty fields of
    an update and delete inside a transaction. They do no slug checks of their own: a clash
    with a unique index surfaces as a failed write. */
module Category {
  import opened Wrappers
  import opened Text
  import opened Models

  const BadId := "无效的分类ID"
  const BadParams := "参数错误"
  const NotFound := "分类不存在"
  const FetchFailed := "查询分类失败"

  /** The bodies decoded by `BindAndValidate`; a body that does not decode is None. */
  datatype CategoryBody = CategoryBody(name: string, slug: string, description: string)

  /** The `vd` rules of the create request: name and slug of 1 to 50 bytes, a description of
      at most 255 bytes. */
  predicate CreateRules(b: CategoryBody) {
    0 < Utf8Len(b.name) <= 50 && 0 < Utf8Len(b.slug) <= 50 && Utf8Len(b.description) <= 255
  }

  /** The `vd` rules of the update request: the same upper bounds, every field optional. */
  predicate UpdateRules(b: CategoryBody) {
    Utf8Len(b.name) <= 50 && Utf8Len(b.slug) <= 50 && Utf8Len(b.description) <= 255
  }

  /** The update rules are the create rules without the lower bounds. */
  lemma CreateRulesImplyUpdateRules(b: CategoryBody)
    ensures CreateRules(b) ==> UpdateRules(b)
    ensures CreateRules(b) ==> b.name != "" && b.slug != ""
  {
  }

  // ---------------------------------------------------------------- reads

  /** GET /api/categories. */
  function GetCategories(db: Db, fails: Faults): (resp: Response)
    ensures ListQuery in fails ==> resp == Fail(500, "获取分类列表失败")
    ensures ListQuery !in fails ==>
      (resp.status == 200 && resp.data.CategoryList?
       && (forall i | 0 <= i < |resp.data.categories| :: resp.data.categories[i] in db.categories && resp.data.categories[i].Live())
       && (forall i | 0 <= i < |db.categories| :: db.categories[i].Live() ==> db.categories[i] in resp.data.categories))
  {
    if ListQuery in fails then Fail(500, "获取分类列表失败")
    else Ok("获取分类列表成功", CategoryList(LiveRows(db.categories)))
  }

  /** GET /api/categories/:id. */
  function GetCategory(db: Db, idStr: string, fails: Faults): (resp: Response)
    requires db.Valid()
    ensures Atoi(idStr).None? ==> resp == Fail(400, BadId)
    ensures Atoi(idStr).Some? && Fetch in fails ==> resp == Fail(500, FetchFailed)
    ensures resp.status == 404 <==> Atoi(idStr).Some? && Fetch !in fails && Lookup(db.categories, Atoi(idStr).value).None?
    ensures resp.status == 200 ==>
      (Atoi(idStr).Some? && resp.data.CategoryData? && Lookup(db.categories, Atoi(idStr).value) == Some(resp.data.category))
    ensures resp.status in {200, 400, 404, 500}
  {
    match Atoi(idStr)
    case None => Fail(400, BadId)
    case Some(id) =>
      if Fetch in fails then Fail(500, FetchFailed)
      else match Lookup(db.categories, id)
        case None => Fail(404, NotFound)
        case Some(c) => Ok("获取分类详情成功", CategoryData(c))
  }

  /** GET /api/categories/hot: at most five live categories, most linked first. */
  function GetHotCategories(db: Db, fails: Faults): (resp: Response)
    ensures HotCategoriesQuery in fails ==> resp == Fail(500, "获取热门分类失败")
    ensures HotCategoriesQuery !in fails ==>
      (resp.status == 200 && resp.data.HotCategories? && |resp.data.hotCategories| <= 5
       && |resp.data.hotCategories| == (if |LiveRows(db.categories)| <= 5 then |LiveRows(db.categories)| else 5)
       && (forall i | 0 <= i < |resp.data.hotCategories| :: resp.data.hotCategories[i].row in db.categories && resp.data.hotCategories[i].row.Live()
             && resp.data.hotCategories[i].postCount == PostCount(db.postCategories, resp.data.hotCategories[i].row.id))
       && resp.data.hotCategories == HotList(db.categories, db.postCategories, 5))
  {
    HotListFacts(db.categories, db.postCategories, 5);
    if HotCategoriesQuery in fails then Fail(500, "获取热门分类失败")
    else Ok("获取热门分类成功", HotCategories(HotList(db.categories, db.postCategories, 5)))
  }

  // ---------------------------------------------------------------- create

  /** POST /api/categories: the validated body becomes a new row; the unique indexes on name and
      slug, which cover soft-deleted rows, make the insert fail with 500. */
  function CreateCategorySpec(db: Db, body: Option<CategoryBody>, fails: Faults, now: DateTime): (o: Outcome)
    requires db.Valid()
    ensures o.db.Valid()
    ensures o.resp.status == 400 <==> body.None? || !CreateRules(body.value)
    ensures o.resp.status == 500 <==>
      (body.Some? && CreateRules(body.value) && (Write in fails || db.CategoryClash(Fields(body.value), 0)))
    ensures o.resp.status != 201 ==> o.db == db && o.resp.data == NoData
    ensures o.resp.status == 201 ==>
      (o.resp.code == 201 && body.Some?
       && o.db == db.(categories := Insert(db.categories, now, Fields(body.value)))
       && o.resp.data == CategoryData(Row(|db.categories| + 1, now, now, None, Fields(body.value))))
  {
    if body.None? || !CreateRules(body.value) then Outcome(Fail(400, BadParams), db)
    else
      var v := Fields(body.value);
      if Write in fails || db.CategoryClash(v, 0) then Outcome(Fail(500, "创建分类失败"), db)
      else
        InsertKeepsDense(db.categories, now, v);
        InsertKeepsUnique(db.categories, CategoryName, now, v);
        InsertKeepsUnique(db.categories, CategorySlug, now, v);
        var t := Insert(db.categories, now, v);
        Outcome(Response(201, 201, "创建分类成功", CategoryData(t[|t| - 1])), db.(categories := t))
  }

  function Fields(b: CategoryBody): (c: CategoryFields)
    ensures c.name == b.name && c.slug == b.slug && c.description == b.description
  {
    CategoryFields(b.name, b.slug, b.description)
  }

  method CreateCategory(db: Store, body: Option<CategoryBody>, fails: Faults, now: DateTime) returns (resp: Response)
    requires db.Valid()
    modifies db
    ensures db.Valid()
    ensures Outcome(resp, db.State()) == CreateCategorySpec(old(db.State()), body, fails, now)
  {
    if body.None? || !CreateRules(body.value) {
      return Fail(400, BadParams);
    }
    var category := Fields(body.value);
    if Write in fails || db.State().CategoryClash(category, 0) {
      return Fail(500, "创建分类失败");
    }
    var row := Row(|db.categories| + 1, now, now, None, category);
    db.categories := db.categories + [row];
    resp := Response(201, 201, "创建分类成功", CategoryData(row));
  }

  // ---------------------------------------------------------------- update

  /** The `updates` map: exactly the non-empty fields of the request. */
  function Updates(b: CategoryBody): (u: map<string, string>)
    ensures "name" in u <==> b.name != ""
    ensures "slug" in u <==> b.slug != ""
    ensures "description" in u <==> b.description != ""
    ensures u.Keys <= {"name", "slug", "description"}
    ensures forall k | k in u :: u[k] != ""
    ensures "name" in u ==> u["name"] == b.name
    ensures "slug" in u ==> u["slug"] == b.slug
    ensures "description" in u ==> u["description"] == b.description
  {
    var u0: map<string, string> := map[];
    var u1 := if b.name != "" then u0["name" := b.name] else u0;
    var u2 := if b.slug != "" then u1["slug" := b.slug] else u1;
    if b.description != "" then u2["description" := b.description] else u2
  }

  /** `Updates(updates)` on the loaded row: the listed columns take the new values. */
  function Apply(c: CategoryFields, u: map<string, string>): (r: CategoryFields)
    ensures r.name == (if "name" in u then u["name"] else c.name)
    ensures r.slug == (if "slug" in u then u["slug"] else c.slug)
    ensures r.description == (if "description" in u then u["description"] else c.description)
  {
    CategoryFields(
      if "name" in u then u["name"] else c.name,
      if "slug" in u then u["slug"] else c.slug,
      if "description" in u then u["description"] else c.description)
  }

  /** An empty updates map means no field is set, and applying it changes nothing. */
  lemma EmptyUpdatesChangeNothing(b: CategoryBody, c: CategoryFields)
    ensures |Updates(b)| == 0 <==> b.name == "" && b.slug == "" && b.description == ""
    ensures |Updates(b)| == 0 ==> Apply(c, Updates(b)) == c
  {
    if |Updates(b)| == 0 {
      assert "name" !in Updates(b);
    } else {
      var k :| k in Updates(b);
    }
  }

  /** PUT /api/categories/:id. The response carries the row as updated (GORM assigns the map to
      the model it updates); with no non-empty field there is no write and the row is returned
      as it was. */
  function UpdateCategorySpec(db: Db, idStr: string, body: Option<CategoryBody>, fails: Faults, now: DateTime): (o: Outcome)
    requires db.Valid()
    ensures o.db.Valid()
    ensures o.resp.status != 200 ==> o.db == db && o.resp.data == NoData
    ensures Atoi(idStr).None? ==> o.resp == Fail(400, BadId)
    ensures o.resp.status == 400 <==> Atoi(idStr).None? || body.None? || !UpdateRules(body.value)
    ensures o.resp.status == 404 <==> (Atoi(idStr).Some? && body.Some? && UpdateRules(body.value)
      && Fetch !in fails && Lookup(db.categories, Atoi(idStr).value).None?)
    ensures o.resp.status == 200 ==>
      (body.Some? && Atoi(idStr).Some? && Lookup(db.categories, Atoi(idStr).value).Some?
       && (var prior := Lookup(db.categories, Atoi(idStr).value).value;
           var merged := Apply(prior.val, Updates(body.value));
           (|Updates(body.value)| == 0 ==> o.db == db && o.resp.data == CategoryData(prior))
           && (|Updates(body.value)| > 0 ==>
                 o.resp.data == CategoryData(prior.(val := merged, updatedAt := now))
                 && o.db == db.(categories := Rewrite(db.categories, prior.id, merged, now)))))
    ensures o.resp.status == 500 <==>
      (Atoi(idStr).Some? && body.Some? && UpdateRules(body.value)
       && (Fetch in fails
           || (Lookup(db.categories, Atoi(idStr).value).Some? && |Updates(body.value)| > 0
               && (Write in fails
                   || db.CategoryClash(Apply(Lookup(db.categories, Atoi(idStr).value).value.val, Updates(body.value)),
                                        Atoi(idStr).value)))))
    ensures o.resp.status in {200, 400, 404, 500}
  {
    match Atoi(idStr)
    case None => Outcome(Fail(400, BadId), db)
    case Some(id) =>
      if body.None? || !UpdateRules(body.value) then Outcome(Fail(400, BadParams), db)
      else if Fetch in fails then Outcome(Fail(500, FetchFailed), db)
      else match Lookup(db.categories, id)
        case None => Outcome(Fail(404, NotFound), db)
        case Some(c) =>
          var u := Updates(body.value);
          if |u| == 0 then Outcome(Ok("更新分类成功", CategoryData(c)), db)
          else
            var v := Apply(c.val, u);
            if Write in fails || db.CategoryClash(v, c.id) then Outcome(Fail(500, "更新分类失败"), db)
            else
              RewriteKeepsUnique(db.categories, CategoryName, c.id, v, now);
              RewriteKeepsUnique(db.categories, CategorySlug, c.id, v, now);
              Outcome(Ok("更新分类成功", CategoryData(c.(val := v, updatedAt := now))),
                      db.(categories := Rewrite(db.categories, c.id, v, now)))
  }

  method UpdateCategory(db: Store, idStr: string, body: Option<CategoryBody>, fails: Faults, now: DateTime)
    returns (resp: Response)
    requires db.Valid()
    modifies db
    ensures db.Valid()
    ensures Outcome(resp, db.State()) == UpdateCategorySpec(old(db.State()), idStr, body, fails, now)
  {
    var parsed := Atoi(idStr);
    if parsed.None? {
      return Fail(400, BadId);
    }
    var id := parsed.value;
    if body.None? || !UpdateRules(body.value) {
      return Fail(400, BadParams);
    }
    var req := body.value;
    if Fetch in fails {
      return Fail(500, FetchFailed);
    }
    var found := Lookup(db.categories, id);
    if found.None? {
      return Fail(404, NotFound);
    }
    var category := found.value;
    var updates: map<string, string> := map[];
    if req.name != "" {
      updates := updates["name" := req.name];
    }
    if req.slug != "" {
      updates := updates["slug" := req.slug];
    }
    if req.description != "" {
      updates := updates["description" := req.description];
    }
    assert updates == Updates(req);
    if |updates| > 0 {
      var v := Apply(category.val, updates);
      if Write in fails || db.State().CategoryClash(v, category.id) {
        return Fail(500, "更新分类失败");
      }
      RewriteKeepsUnique(db.categories, CategoryName, category.id, v, now);
      RewriteKeepsUnique(db.categories, CategorySlug, category.id, v, now);
      ghost var after := db.State().(categories := Rewrite(db.categories, category.id, v, now));
      category := category.(val := v, updatedAt := now);
      db.categories := db.categories[category.id - 1 := category];
      assert db.State() == after;
    }
    resp := Ok("更新分类成功", CategoryData(category));
  }

  // ---------------------------------------------------------------- delete

  /** DELETE /api/categories/:id: in one transaction, clear the post links and soft-delete the
      row; if either step fails, nothing changes. */
  function DeleteCategorySpec(db: Db, idStr: string, fails: Faults, now: DateTime): (o: Outcome)
    requires db.Valid()
    ensures o.db.Valid()
    ensures o.resp.status != 200 ==> o.db == db
    ensures o.resp.status == 400 <==> Atoi(idStr).None?
    ensures o.resp.status == 404 <==> Atoi(idStr).Some? && Fetch !in fails && Lookup(db.categories, Atoi(idStr).value).None?
    ensures o.resp.status == 500 <==> (Atoi(idStr).Some? && (Fetch in fails ||
      (Lookup(db.categories, Atoi(idStr).value).Some? && (Clear in fails || Write in fails))))
    ensures o.resp.status == 200 ==>
      (Atoi(idStr).Some? && 1 <= Atoi(idStr).value <= |db.categories|
       && o.db == db.(categories := SoftDelete(db.categories, Atoi(idStr).value, now),
                      postCategories := Unlinked(db.postCategories, Atoi(idStr).value)))
  {
    match Atoi(idStr)
    case None => Outcome(Fail(400, BadId), db)
    case Some(id) =>
      if Fetch in fails then Outcome(Fail(500, FetchFailed), db)
      else match Lookup(db.categories, id)
        case None => Outcome(Fail(404, NotFound), db)
        case Some(_) =>
          if Clear in fails || Write in fails then Outcome(Fail(500, "删除分类失败"), db)
          else
            var t := SoftDelete(db.categories, id, now);
            SameKeysAndFields(db.categories, t, CategoryName);
            SameKeysAndFields(db.categories, t, CategorySlug);
            Outcome(Ok("删除分类成功", NoData), db.(categories := t, postCategories := Unlinked(db.postCategories, id)))
  }

  method DeleteCategory(db: Store, idStr: string, fails: Faults, now: DateTime) returns (resp: Response)
    requires db.Valid()
    modifies db
    ensures db.Valid()
    ensures Outcome(resp, db.State()) == DeleteCategorySpec(old(db.State()), idStr, fails, now)
  {
    var parsed := Atoi(idStr);
    if parsed.None? {
      return Fail(400, BadId);
    }
    var id := parsed.value;
    if Fetch in fails {
      return Fail(500, FetchFailed);
    }
    if Lookup(db.categories, id).None? {
      return Fail(404, NotFound);
    }
    // The transaction works on copies and writes them back on commit.
    var links := db.postCategories;
    var table := db.categories;
    if Clear in fails {
      return Fail(500, "删除分类失败");
    }
    links := Unlinked(links, id);
    if Write in fails {
      return Fail(500, "删除分类失败");
    }
    table := SoftDelete(table, id, now);
    SameKeysAndFields(db.categories, table, CategoryName);
    SameKeysAndFields(db.categories, table, CategorySlug);
    db.postCategories, db.categories := links, table;
    resp := Ok("删除分类成功", NoData);
  }
}
