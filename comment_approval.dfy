/** backend/api/comment_approval.go: the moderation queue and approving a comment. Both
    answer with code 0 on success, unlike the other handlers. */
module CommentApproval {
  import opened Wrappers
  import opened Text
  import opened Models
  import opened Query
  import Comment

  /** `Where("status = ?", "pending").Find`: without ORDER BY, in table order. */
  function PendingComments(db: Db): (r: seq<Row<CommentFields>>)
    ensures forall i | 0 <= i < |r| :: r[i] in db.comments && r[i].Live() && r[i].val.status == DefaultCommentStatus
    ensures forall i | 0 <= i < |db.comments| ::
      db.comments[i].Live() && db.comments[i].val.status == DefaultCommentStatus ==> db.comments[i] in r
  {
    var live := LiveRows(db.comments);
    Where(live, (c: Row<CommentFields>) => c.val.status == DefaultCommentStatus)
  }

  /** GET /api/admin/comments/pending. */
  function GetPendingComments(db: Db, fails: Faults): (resp: Response)
    ensures ListQuery in fails ==> resp == Fail(500, "查询待审核评论失败")
    ensures ListQuery !in fails ==> resp == Response(200, 0, "获取待审核评论成功", CommentList(PendingComments(db)))
  {
    if ListQuery in fails then Fail(500, "查询待审核评论失败")
    else Response(200, 0, "获取待审核评论成功", CommentList(PendingComments(db)))
  }

  /** `Model(&comment).Update("status", "approved")`: the row and the value the handler
      returns both get the status and a new updated_at. */
  function Approved(c: Row<CommentFields>, now: DateTime): (r: Row<CommentFields>)
    ensures r.val.status == ApprovedStatus && r.updatedAt == now
    ensures r.id == c.id && r.createdAt == c.createdAt && r.deletedAt == c.deletedAt
    ensures r.val.content == c.val.content && r.val.postId == c.val.postId
    ensures r.val.userId == c.val.userId && r.val.parentId == c.val.parentId
  {
    c.(val := c.val.(status := ApprovedStatus), updatedAt := now)
  }

  /** PUT /api/admin/comments/:id/approve. */
  function ApproveCommentSpec(db: Db, idStr: string, fails: Faults, now: DateTime): (o: Outcome)
    requires db.Valid()
    ensures o.db.Valid()
    ensures o.resp.status != 200 ==> o.db == db && o.resp.data == NoData
    ensures ParseUint(idStr).None? ==> o.resp == Fail(400, "无效的评论ID")
    ensures o.resp.status == 404 <==>
      ParseUint(idStr).Some? && (Fetch in fails || Lookup(db.comments, ParseUint(idStr).value).None?)
    ensures o.resp.status == 404 ==> o.resp == Fail(404, "评论未找到")
    ensures o.resp.status == 500 <==>
      ParseUint(idStr).Some? && Fetch !in fails && Lookup(db.comments, ParseUint(idStr).value).Some? && Write in fails
    ensures o.resp.status == 200 ==>
      (ParseUint(idStr).Some? && 1 <= ParseUint(idStr).value <= |db.comments|
       && var id := ParseUint(idStr).value;
          var row := Approved(db.comments[id - 1], now);
          o.resp == Response(200, 0, "批准评论成功", CommentData(row))
          && o.db == db.(comments := db.comments[id - 1 := row]))
  {
    match ParseUint(idStr)
    case None => Outcome(Fail(400, "无效的评论ID"), db)
    case Some(id) =>
      if Fetch in fails || Lookup(db.comments, id).None? then Outcome(Fail(404, "评论未找到"), db)
      else if Write in fails then Outcome(Fail(500, "批准评论失败"), db)
      else
        var row := Approved(db.comments[id - 1], now);
        Outcome(Response(200, 0, "批准评论成功", CommentData(row)), db.(comments := db.comments[id - 1 := row]))
  }

  method ApproveComment(db: Store, idStr: string, fails: Faults, now: DateTime) returns (resp: Response)
    requires db.Valid()
    modifies db
    ensures db.Valid()
    ensures Outcome(resp, db.State()) == ApproveCommentSpec(old(db.State()), idStr, fails, now)
  {
    var id := ParseUint(idStr);
    if id.None? {
      return Fail(400, "无效的评论ID");
    }
    if Fetch in fails || Lookup(db.comments, id.value).None? {
      return Fail(404, "评论未找到");
    }
    if Write in fails {
      return Fail(500, "批准评论失败");
    }
    var comment := db.comments[id.value - 1];
    comment := Approved(comment, now);
    db.comments := db.comments[id.value - 1 := comment];
    resp := Response(200, 0, "批准评论成功", CommentData(comment));
  }

  /** Approving twice at the same instant leaves the table as approving once. */
  lemma ApproveIdempotent(db: Db, idStr: string, now: DateTime)
    requires db.Valid() && ApproveCommentSpec(db, idStr, {}, now).resp.status == 200
    ensures var once := ApproveCommentSpec(db, idStr, {}, now).db;
      ApproveCommentSpec(once, idStr, {}, now).db == once
  {
    var id := ParseUint(idStr).value;
    var once := ApproveCommentSpec(db, idStr, {}, now).db;
    assert once.comments[id - 1] == Approved(db.comments[id - 1], now);
    assert Approved(once.comments[id - 1], now) == once.comments[id - 1];
    assert once.comments[id - 1 := once.comments[id - 1]] == once.comments;
  }

  /** Moderation moves a live pending comment out of the queue and onto its post's page, and
      touches no other comment. */
  lemma ApprovalPublishes(db: Db, id: nat, now: DateTime)
    requires db.Valid() && 1 <= id <= |db.comments| && id <= MaxUint64
    requires db.comments[id - 1].Live() && db.comments[id - 1].val.status == DefaultCommentStatus
    requires db.comments[id - 1].val.postId <= MaxInt64
    ensures db.comments[id - 1] in PendingComments(db)
    ensures var o := ApproveCommentSpec(db, NatToString(id), {}, now);
      var row := o.db.comments[id - 1];
      var postIdStr := IntToString(row.val.postId);
      o.resp.status == 200
      && row !in PendingComments(o.db)
      && row in Comment.ApprovedComments(o.db, postIdStr)
      && forall i | 0 <= i < |db.comments| && i != id - 1 :: o.db.comments[i] == db.comments[i]
  {
    ParseUintRoundTrip(id);
    var o := ApproveCommentSpec(db, NatToString(id), {}, now);
    var row := o.db.comments[id - 1];
    AtoiRoundTrip(row.val.postId);
    Comment.ListedIffApproved(o.db, IntToString(row.val.postId), id - 1);
  }
}
