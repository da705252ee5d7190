/** backend/api/comment.go: a post's visible comments, adding a comment (an admin's is
    published at once, anyone else's waits for moderation) and deleting one by its author or
    an admin. The comment table's foreign keys (post, user and parent comment) are enforced by
    the database: an insert naming a row that does not exist fails. */
module Comment {
  import opened Wrappers
  import opened Text
  import opened Models
  import opened Query

  const LoginFirst := "请先登录"

  // ---------------------------------------------------------------- listing

  /** `post_id = ? AND (status = 'approved' OR status IS NULL)`, with the path's string read as
      a decimal id by Atoi. The status column is a non-null string in this model, so the
      `IS NULL` arm never holds. */
  predicate ShownOn(c: Row<CommentFields>, postIdStr: string) {
    Atoi(postIdStr) == Some(c.val.postId as int) && c.val.status == ApprovedStatus
  }

  /** The post's live approved comments, newest first. */
  function ApprovedComments(db: Db, postIdStr: string): (r: seq<Row<CommentFields>>)
    ensures forall i | 0 <= i < |r| :: r[i] in db.comments && r[i].Live() && ShownOn(r[i], postIdStr)
    ensures forall i | 0 <= i < |db.comments| :: db.comments[i].Live() && ShownOn(db.comments[i], postIdStr) ==> db.comments[i] in r
    ensures SortedDesc(r, Created)
  {
    var live := LiveRows(db.comments);
    var shown := Where(live, (c: Row<CommentFields>) => ShownOn(c, postIdStr));
    var r := SortDesc(shown, Created);
    SortDescMembers(shown, Created);
    assert forall i | 0 <= i < |shown| :: shown[i] in live;
    r
  }

  /** GET /api/comments/post/:postId. */
  function GetPostComments(db: Db, postIdStr: string, fails: Faults): (resp: Response)
    ensures ListQuery in fails ==> resp == Fail(500, "获取评论列表失败")
    ensures ListQuery !in fails ==> resp == Ok("获取评论列表成功", CommentList(ApprovedComments(db, postIdStr)))
  {
    if ListQuery in fails then Fail(500, "获取评论列表失败")
    else Ok("获取评论列表成功", CommentList(ApprovedComments(db, postIdStr)))
  }

  /** A pending comment is never listed; once approved (and live) it is. */
  lemma ListedIffApproved(db: Db, postIdStr: string, i: nat)
    requires i < |db.comments| && db.comments[i].Live() && Atoi(postIdStr) == Some(db.comments[i].val.postId as int)
    ensures db.comments[i] in ApprovedComments(db, postIdStr) <==> db.comments[i].val.status == ApprovedStatus
  {
    if db.comments[i] in ApprovedComments(db, postIdStr) {
      var r := ApprovedComments(db, postIdStr);
      var k :| 0 <= k < |r| && r[k] == db.comments[i];
    }
  }

  // ---------------------------------------------------------------- add

  /** The decoded request: the content and the optional ParentID, copied as it is. */
  datatype CommentBody = CommentBody(content: string, parentId: Option<nat>)

  /** The foreign keys of a comment name existing rows (soft-deleted rows still exist). */
  predicate KeysExist(db: Db, c: CommentFields) {
    1 <= c.postId <= |db.posts| && 1 <= c.userId <= |db.users|
    && (c.parentId.Some? ==> 1 <= c.parentId.value <= |db.comments|)
  }

  /** Lines 87-103: the status follows the role the users table records, and a failed lookup
      leaves the role empty. */
  function RoleFor(db: Db, userId: nat, fails: Faults): (role: string)
    requires Dense(db.users)
    ensures FetchRole in fails ==> role == ""
    ensures FetchRole !in fails ==> role == db.RoleOf(userId)
  {
    if FetchRole in fails then "" else db.RoleOf(userId)
  }

  function NewComment(postId: nat, userId: nat, b: CommentBody, role: string): (c: CommentFields)
    ensures c.content == b.content && c.postId == postId && c.userId == userId && c.parentId == b.parentId
    ensures c.status == ApprovedStatus <==> role == AdminRole
    ensures c.status != ApprovedStatus ==> c.status == DefaultCommentStatus
  {
    var c := CommentFields(b.content, postId, userId, b.parentId, "");
    if role == AdminRole then c.(status := ApprovedStatus) else c.(status := DefaultCommentStatus)
  }

  /** Lines 120-123: the message depends on the role alone. */
  function AddedMessage(role: string): (m: string)
    ensures role == AdminRole ==> m == "评论已发布"
    ensures role != AdminRole ==> m == "评论已提交，等待审核"
  {
    if role == AdminRole then "评论已发布" else "评论已提交，等待审核"
  }

  /** POST /api/comments/post/:postId, with its checks in the order the handler makes them. */
  function AddCommentSpec(db: Db, postIdStr: string, userId: Option<nat>, body: Option<CommentBody>,
                          fails: Faults, now: DateTime): (o: Outcome)
    requires db.Valid()
    ensures o.db.Valid()
    ensures o.resp.status != 200 ==> o.db == db && o.resp.data == NoData
    ensures ParseUint(postIdStr).None? ==> o.resp == Fail(400, "无效的文章ID")
    ensures ParseUint(postIdStr).Some? && userId.None? ==> o.resp == Fail(401, LoginFirst)
    ensures ParseUint(postIdStr).Some? && userId.Some? && body.None? ==> o.resp == Fail(400, "请求参数错误")
    ensures ParseUint(postIdStr).Some? && userId.Some? && body.Some? && body.value.content == "" ==>
      o.resp == Fail(400, "评论内容不能为空")
    ensures o.resp.status == 400 <==>
      ParseUint(postIdStr).None? || (userId.Some? && (body.None? || body.value.content == ""))
    ensures o.resp.status == 200 ==>
      (ParseUint(postIdStr).Some? && userId.Some? && body.Some?
       && var role := RoleFor(db, userId.value, fails);
          var c := NewComment(ParseUint(postIdStr).value, userId.value, body.value, role);
          var row := Row(|db.comments| + 1, now, now, None, c);
          KeysExist(db, c) && Write !in fails
          && o.resp == Ok(AddedMessage(role), CommentData(row))
          && o.db == db.(comments := db.comments + [row]))
    ensures o.resp.status == 500 <==>
      (ParseUint(postIdStr).Some? && userId.Some? && body.Some? && body.value.content != ""
       && (Write in fails
           || !KeysExist(db, NewComment(ParseUint(postIdStr).value, userId.value, body.value, RoleFor(db, userId.value, fails)))))
    ensures o.resp.status in {200, 400, 401, 500}
  {
    match ParseUint(postIdStr)
    case None => Outcome(Fail(400, "无效的文章ID"), db)
    case Some(postId) =>
      if userId.None? then Outcome(Fail(401, LoginFirst), db)
      else if body.None? then Outcome(Fail(400, "请求参数错误"), db)
      else if body.value.content == "" then Outcome(Fail(400, "评论内容不能为空"), db)
      else
        var role := RoleFor(db, userId.value, fails);
        var c := NewComment(postId, userId.value, body.value, role);
        if Write in fails || !KeysExist(db, c) then Outcome(Fail(500, "添加评论失败"), db)
        else
          InsertKeepsDense(db.comments, now, c);
          var row := Row(|db.comments| + 1, now, now, None, c);
          Outcome(Ok(AddedMessage(role), CommentData(row)), db.(comments := db.comments + [row]))
  }

  /** Only the empty string is refused: content of spaces alone is accepted. */
  lemma WhitespaceContentAccepted(db: Db, postIdStr: string, userId: nat, parentId: Option<nat>, fails: Faults, now: DateTime)
    requires db.Valid() && ParseUint(postIdStr).Some?
    ensures AddCommentSpec(db, postIdStr, Some(userId), Some(CommentBody(" ", parentId)), fails, now).resp.status != 400
  {
  }

  /** An added comment is approved exactly when its author is an admin, replies to the comment
      the request named, and comes with the message for that role. */
  lemma AddedCommentStatus(db: Db, postIdStr: string, userId: Option<nat>, body: Option<CommentBody>,
                           fails: Faults, now: DateTime)
    requires db.Valid()
    requires AddCommentSpec(db, postIdStr, userId, body, fails, now).resp.status == 200
    ensures var o := AddCommentSpec(db, postIdStr, userId, body, fails, now);
      var admin := FetchRole !in fails && db.RoleOf(userId.value) == AdminRole;
      o.resp.data.CommentData?
      && (o.resp.data.comment.val.status == ApprovedStatus <==> admin)
      && (!admin ==> o.resp.data.comment.val.status == DefaultCommentStatus && o.resp.message == "评论已提交，等待审核")
      && (admin ==> o.resp.message == "评论已发布")
      && o.resp.data.comment.val.parentId == body.value.parentId
  {
  }

  method AddComment(db: Store, postIdStr: string, userId: Option<nat>, body: Option<CommentBody>,
                    fails: Faults, now: DateTime) returns (resp: Response)
    requires db.Valid()
    modifies db
    ensures db.Valid()
    ensures Outcome(resp, db.State()) == AddCommentSpec(old(db.State()), postIdStr, userId, body, fails, now)
  {
    var postId := ParseUint(postIdStr);
    if postId.None? {
      return Fail(400, "无效的文章ID");
    }
    if userId.None? {
      return Fail(401, LoginFirst);
    }
    if body.None? {
      return Fail(400, "请求参数错误");
    }
    var req := body.value;
    if req.content == "" {
      return Fail(400, "评论内容不能为空");
    }
    var role := RoleFor(db.State(), userId.value, fails);
    var comment := CommentFields(req.content, postId.value, userId.value, req.parentId, "");
    if role == AdminRole {
      comment := comment.(status := ApprovedStatus);
    } else {
      comment := comment.(status := DefaultCommentStatus);
    }
    if Write in fails || !KeysExist(db.State(), comment) {
      return Fail(500, "添加评论失败");
    }
    var row := Row(|db.comments| + 1, now, now, None, comment);
    db.comments := db.comments + [row];
    var message := "评论已提交，等待审核";
    if role == AdminRole {
      message := "评论已发布";
    }
    resp := Ok(message, CommentData(row));
  }

  // ---------------------------------------------------------------- delete

  /** DELETE /api/comments/:id: the author or an admin soft-deletes it; its replies stay. */
  function DeleteCommentSpec(db: Db, idStr: string, userId: Option<nat>, fails: Faults, now: DateTime): (o: Outcome)
    requires db.Valid()
    ensures o.db.Valid()
    ensures o.resp.status != 200 ==> o.db == db
    ensures ParseUint(idStr).None? ==> o.resp == Fail(400, "无效的评论ID")
    ensures ParseUint(idStr).Some? && userId.None? ==> o.resp == Fail(401, LoginFirst)
    ensures o.resp.status == 404 <==>
      (ParseUint(idStr).Some? && userId.Some? && (Fetch in fails || Lookup(db.comments, ParseUint(idStr).value).None?))
    ensures o.resp.status == 403 <==>
      (ParseUint(idStr).Some? && userId.Some? && Fetch !in fails && Lookup(db.comments, ParseUint(idStr).value).Some?
       && Lookup(db.comments, ParseUint(idStr).value).value.val.userId != userId.value
       && RoleFor(db, userId.value, fails) != AdminRole)
    ensures o.resp.status == 200 ==>
      (ParseUint(idStr).Some? && 1 <= ParseUint(idStr).value <= |db.comments| && Write !in fails
       && o.resp == Ok("删除评论成功", NoData)
       && o.db == db.(comments := SoftDelete(db.comments, ParseUint(idStr).value, now)))
    ensures o.resp.status == 500 <==>
      (ParseUint(idStr).Some? && userId.Some? && Fetch !in fails && Lookup(db.comments, ParseUint(idStr).value).Some?
       && (Lookup(db.comments, ParseUint(idStr).value).value.val.userId == userId.value
           || RoleFor(db, userId.value, fails) == AdminRole)
       && Write in fails)
    ensures o.resp.status in {200, 400, 401, 403, 404, 500}
  {
    match ParseUint(idStr)
    case None => Outcome(Fail(400, "无效的评论ID"), db)
    case Some(id) =>
      if userId.None? then Outcome(Fail(401, LoginFirst), db)
      else if Fetch in fails || Lookup(db.comments, id).None? then Outcome(Fail(404, "评论不存在"), db)
      else
        var c := Lookup(db.comments, id).value;
        if c.val.userId != userId.value && RoleFor(db, userId.value, fails) != AdminRole then
          Outcome(Fail(403, "无权删除该评论"), db)
        else if Write in fails then Outcome(Fail(500, "删除评论失败"), db)
        else
          var t := SoftDelete(db.comments, id, now);
          SameKeysAndFields(db.comments, t, (x: CommentFields) => x.content);
          Outcome(Ok("删除评论成功", NoData), db.(comments := t))
  }

  method DeleteComment(db: Store, idStr: string, userId: Option<nat>, fails: Faults, now: DateTime) returns (resp: Response)
    requires db.Valid()
    modifies db
    ensures db.Valid()
    ensures Outcome(resp, db.State()) == DeleteCommentSpec(old(db.State()), idStr, userId, fails, now)
  {
    var id := ParseUint(idStr);
    if id.None? {
      return Fail(400, "无效的评论ID");
    }
    if userId.None? {
      return Fail(401, LoginFirst);
    }
    if Fetch in fails || Lookup(db.comments, id.value).None? {
      return Fail(404, "评论不存在");
    }
    var comment := Lookup(db.comments, id.value).value;
    if comment.val.userId != userId.value {
      var role := RoleFor(db.State(), userId.value, fails);
      if role != AdminRole {
        return Fail(403, "无权删除该评论");
      }
    }
    if Write in fails {
      return Fail(500, "删除评论失败");
    }
    var t := SoftDelete(db.comments, id.value, now);
    SameKeysAndFields(db.comments, t, (x: CommentFields) => x.content);
    db.comments := t;
    resp := Ok("删除评论成功", NoData);
  }

  /** A user who neither wrote the comment nor is an admin by the users table cannot delete it. */
  lemma OnlyAuthorOrAdminDeletes(db: Db, idStr: string, userId: Option<nat>, fails: Faults, now: DateTime)
    requires db.Valid() && DeleteCommentSpec(db, idStr, userId, fails, now).resp.status == 200
    ensures userId.Some? && ParseUint(idStr).Some?
    ensures var c := db.comments[ParseUint(idStr).value - 1];
      c.val.userId == userId.value || (FetchRole !in fails && db.RoleOf(userId.value) == AdminRole)
  {
  }
}
