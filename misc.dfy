/** backend/api/misc.go: the archive, which groups the published posts by the month they were
    created in, newest first, and the home page aggregate. */
module Misc {
  import opened Wrappers
  import opened Models
  import opened Query

  /** A row of the archive query: `DATE_FORMAT(created_at, '%Y-%m') AS year_month` beside the
      post it was computed from. */
  datatype ArchiveRow = ArchiveRow(yearMonth: string, post: Row<PostFields>)

  /** The Post literal built for each row: id, title, slug and creation time; every other field
      keeps Go's zero value. */
  function Summary(p: Row<PostFields>): (s: Row<PostFields>)
    ensures s.id == p.id && s.createdAt == p.createdAt
    ensures s.val.title == p.val.title && s.val.slug == p.val.slug
    ensures s.updatedAt == ZeroTime && s.deletedAt.None?
  {
    Row(p.id, p.createdAt, ZeroTime, None, PostFields(p.val.title, p.val.slug, "", "", "", "", 0, 0, 0))
  }

  /** Two posts summarise alike exactly when they agree on the four copied fields. */
  lemma SummaryCopiesOnlyFourFields(p: Row<PostFields>, q: Row<PostFields>)
    ensures Summary(p) == Summary(q) <==>
      p.id == q.id && p.createdAt == q.createdAt && p.val.title == q.val.title && p.val.slug == q.val.slug
  {
    if Summary(p) == Summary(q) {
      assert Summary(p).val.title == Summary(q).val.title;
    }
  }

  function Summaries(rows: seq<ArchiveRow>): (s: seq<Row<PostFields>>)
    ensures |s| == |rows|
    ensures forall i | 0 <= i < |rows| :: s[i] == Summary(rows[i].post)
  {
    seq(|rows|, i requires 0 <= i < |rows| => Summary(rows[i].post))
  }

  // ---------------------------------------------------------------- the grouping, specified

  /** The distinct keys of the rows, each where it first occurs. */
  function KeysOf(rows: seq<ArchiveRow>): (r: seq<string>)
    ensures forall k :: k in r <==> exists i | 0 <= i < |rows| :: rows[i].yearMonth == k
    ensures forall a, b | 0 <= a < b < |r| :: r[a] != r[b]
  {
    if rows == [] then []
    else
      var prev := KeysOf(rows[..|rows| - 1]);
      var k := rows[|rows| - 1].yearMonth;
      assert forall i | 0 <= i < |rows| - 1 :: rows[..|rows| - 1][i] == rows[i];
      if k in prev then prev else prev + [k]
  }

  /** The summaries of the rows with key k, in the order of the rows. */
  function GroupOf(rows: seq<ArchiveRow>, k: string): seq<Row<PostFields>> {
    if rows == [] then []
    else
      var last := rows[|rows| - 1];
      GroupOf(rows[..|rows| - 1], k) + (if last.yearMonth == k then [Summary(last.post)] else [])
  }

  /** Appending a row extends its own key's group and lists its key if it is new. */
  lemma GroupSnoc(rows: seq<ArchiveRow>, r: ArchiveRow)
    ensures KeysOf(rows + [r]) == if r.yearMonth in KeysOf(rows) then KeysOf(rows) else KeysOf(rows) + [r.yearMonth]
    ensures forall k :: GroupOf(rows + [r], k) == GroupOf(rows, k) + (if r.yearMonth == k then [Summary(r.post)] else [])
  {
    assert (rows + [r])[..|rows|] == rows;
  }

  /** The archive: one item per key, in first-occurrence order, holding that key's group. */
  function Grouped(rows: seq<ArchiveRow>): seq<ArchiveItem> {
    var keys := KeysOf(rows);
    seq(|keys|, j requires 0 <= j < |keys| => ArchiveItem(keys[j], GroupOf(rows, keys[j])))
  }

  /** One pass of the first loop keeps the map and the key list in step with the rows read. */
  lemma MapStep(pre: seq<ArchiveRow>, r: ArchiveRow, m: map<string, seq<Row<PostFields>>>, keys: seq<string>)
    requires keys == KeysOf(pre)
    requires forall k :: k in m <==> k in keys
    requires forall k | k in m :: m[k] == GroupOf(pre, k)
    ensures var m0 := if r.yearMonth in m then m else m[r.yearMonth := []];
      var m1 := m0[r.yearMonth := m0[r.yearMonth] + [Summary(r.post)]];
      var keys1 := if r.yearMonth in m then keys else keys + [r.yearMonth];
      keys1 == KeysOf(pre + [r])
      && (forall k :: k in m1 <==> k in keys1)
      && (forall k | k in m1 :: m1[k] == GroupOf(pre + [r], k))
  {
    GroupSnoc(pre, r);
    if r.yearMonth !in m {
      GroupEmptyIffAbsent(pre, r.yearMonth);
    }
  }

  /** After the first loop, reading the map in key order gives the archive. */
  lemma MapIsGrouped(rows: seq<ArchiveRow>, m: map<string, seq<Row<PostFields>>>, keys: seq<string>)
    requires keys == KeysOf(rows)
    requires forall k :: k in m <==> k in keys
    requires forall k | k in m :: m[k] == GroupOf(rows, k)
    ensures |Grouped(rows)| == |keys|
    ensures forall j | 0 <= j < |keys| :: keys[j] in m && ArchiveItem(keys[j], m[keys[j]]) == Grouped(rows)[j]
  {
  }

  // ---------------------------------------------------------------- the loops of GetArchiveData

  /** The two loops of GetArchiveData: a map from key to summaries plus the list of keys in
      the order they were first met, then one item per listed key. */
  method GroupArchive(rows: seq<ArchiveRow>) returns (archiveData: seq<ArchiveItem>)
    ensures archiveData == Grouped(rows)
  {
    var archiveMap: map<string, seq<Row<PostFields>>> := map[];
    var orderedKeys: seq<string> := [];
    var i := 0;
    while i < |rows|
      invariant 0 <= i <= |rows|
      invariant orderedKeys == KeysOf(rows[..i])
      invariant forall k :: k in archiveMap <==> k in orderedKeys
      invariant forall k | k in archiveMap :: archiveMap[k] == GroupOf(rows[..i], k)
    {
      var r := rows[i];
      assert rows[..i + 1] == rows[..i] + [r];
      MapStep(rows[..i], r, archiveMap, orderedKeys);
      if r.yearMonth !in archiveMap {
        archiveMap := archiveMap[r.yearMonth := []];
        orderedKeys := orderedKeys + [r.yearMonth];
      }
      archiveMap := archiveMap[r.yearMonth := archiveMap[r.yearMonth] + [Summary(r.post)]];
      i := i + 1;
    }
    assert rows[..i] == rows;
    ghost var grouped := Grouped(rows);
    MapIsGrouped(rows, archiveMap, orderedKeys);
    archiveData := [];
    var j := 0;
    while j < |orderedKeys|
      invariant 0 <= j <= |orderedKeys|
      invariant archiveData == grouped[..j]
    {
      assert grouped[..j + 1] == grouped[..j] + [grouped[j]];
      archiveData := archiveData + [ArchiveItem(orderedKeys[j], archiveMap[orderedKeys[j]])];
      j := j + 1;
    }
    assert grouped[..j] == grouped;
  }

  // ---------------------------------------------------------------- properties of the grouping

  lemma {:induction false} GroupEmptyIffAbsent(rows: seq<ArchiveRow>, k: string)
    ensures GroupOf(rows, k) == [] <==> k !in KeysOf(rows)
  {
    if rows != [] {
      var init := rows[..|rows| - 1];
      GroupEmptyIffAbsent(init, k);
      assert forall i | 0 <= i < |init| :: init[i] == rows[i];
    }
  }

  /** Each key heads exactly one item and no item is empty. */
  lemma GroupsDistinctAndNonEmpty(rows: seq<ArchiveRow>)
    ensures forall a, b | 0 <= a < b < |Grouped(rows)| :: Grouped(rows)[a].yearMonth != Grouped(rows)[b].yearMonth
    ensures forall a | 0 <= a < |Grouped(rows)| :: |Grouped(rows)[a].posts| > 0
  {
    var keys := KeysOf(rows);
    forall a | 0 <= a < |keys| ensures |Grouped(rows)[a].posts| > 0 {
      GroupEmptyIffAbsent(rows, keys[a]);
    }
  }

  /** A group holds the summaries of exactly the rows bearing its key, in their input order:
      the loop agrees with a filter over the rows. */
  lemma {:induction false} GroupIsFilteredRows(rows: seq<ArchiveRow>, k: string)
    ensures GroupOf(rows, k) == Summaries(Where(rows, (r: ArchiveRow) => r.yearMonth == k))
  {
    var p := (r: ArchiveRow) => r.yearMonth == k;
    if rows != [] {
      var init := rows[..|rows| - 1];
      var last := rows[|rows| - 1];
      var tail := if last.yearMonth == k then [last] else [];
      GroupIsFilteredRows(init, k);
      assert Where(rows, p) == Where(init, p) + tail by {
        assert rows == init + [last];
        WhereSnoc(init, last, p);
      }
      SummariesAppend(Where(init, p), tail);
      assert Summaries(tail) == if last.yearMonth == k then [Summary(last.post)] else [];
    }
  }

  lemma SummariesAppend(a: seq<ArchiveRow>, b: seq<ArchiveRow>)
    ensures Summaries(a + b) == Summaries(a) + Summaries(b)
  {
    assert forall i | 0 <= i < |a + b| :: Summaries(a + b)[i] == (Summaries(a) + Summaries(b))[i];
  }

  /** A summary sits in an item only if some row bearing the item's key produced it. */
  lemma GroupMembersHaveItsKey(rows: seq<ArchiveRow>, b: nat, s: Row<PostFields>)
    requires b < |Grouped(rows)| && s in Grouped(rows)[b].posts
    ensures exists j | 0 <= j < |rows| :: rows[j].yearMonth == Grouped(rows)[b].yearMonth && Summary(rows[j].post) == s
  {
    var k := Grouped(rows)[b].yearMonth;
    GroupIsFilteredRows(rows, k);
    var w := Where(rows, (r: ArchiveRow) => r.yearMonth == k);
    var m :| 0 <= m < |w| && Summaries(w)[m] == s;
    assert w[m] in rows;
  }

  /** Every row lands in the item whose key is its own, and in no other: an item holds the
      row's summary only when some row with the item's key has the same summary. */
  lemma EveryRowInItsGroup(rows: seq<ArchiveRow>, i: nat)
    requires i < |rows|
    ensures exists a | 0 <= a < |Grouped(rows)| ::
      (Grouped(rows)[a].yearMonth == rows[i].yearMonth && Summary(rows[i].post) in Grouped(rows)[a].posts)
    ensures forall b | 0 <= b < |Grouped(rows)| && Summary(rows[i].post) in Grouped(rows)[b].posts ::
      exists j | 0 <= j < |rows| :: rows[j].yearMonth == Grouped(rows)[b].yearMonth && Summary(rows[j].post) == Summary(rows[i].post)
  {
    forall b | 0 <= b < |Grouped(rows)| && Summary(rows[i].post) in Grouped(rows)[b].posts
      ensures exists j | 0 <= j < |rows| :: rows[j].yearMonth == Grouped(rows)[b].yearMonth && Summary(rows[j].post) == Summary(rows[i].post)
    {
      GroupMembersHaveItsKey(rows, b, Summary(rows[i].post));
    }
    var keys := KeysOf(rows);
    var k := rows[i].yearMonth;
    assert k in keys;
    var a :| 0 <= a < |keys| && keys[a] == k;
    GroupIsFilteredRows(rows, k);
    var p := (r: ArchiveRow) => r.yearMonth == k;
    var w := Where(rows, p);
    assert rows[i] in w;
    var m :| 0 <= m < |w| && w[m] == rows[i];
    assert Summaries(w)[m] == Summary(rows[i].post);
    assert Grouped(rows)[a].yearMonth == k;
  }

  /** The number of posts in the items for the given keys. */
  function Total(rows: seq<ArchiveRow>, keys: seq<string>): nat {
    if keys == [] then 0 else |GroupOf(rows, keys[0])| + Total(rows, keys[1..])
  }

  function Occurrences(keys: seq<string>, k: string): nat {
    if keys == [] then 0 else (if keys[0] == k then 1 else 0) + Occurrences(keys[1..], k)
  }

  lemma {:induction false} OccursOnce(keys: seq<string>, k: string)
    requires forall a, b | 0 <= a < b < |keys| :: keys[a] != keys[b]
    ensures Occurrences(keys, k) == if k in keys then 1 else 0
  {
    if keys != [] {
      OccursOnce(keys[1..], k);
      if keys[0] == k {
        assert k !in keys[1..] by {
          forall b | 0 <= b < |keys[1..]| ensures keys[1..][b] != k { assert keys[1..][b] == keys[b + 1]; }
        }
      }
    }
  }

  lemma {:induction false} TotalSnoc(rows: seq<ArchiveRow>, r: ArchiveRow, keys: seq<string>)
    ensures Total(rows + [r], keys) == Total(rows, keys) + Occurrences(keys, r.yearMonth)
  {
    var s := rows + [r];
    assert s[..|s| - 1] == rows;
    if keys != [] {
      TotalSnoc(rows, r, keys[1..]);
    }
  }

  lemma {:induction false} TotalCountsRows(rows: seq<ArchiveRow>, keys: seq<string>)
    requires forall a, b | 0 <= a < b < |keys| :: keys[a] != keys[b]
    requires forall i | 0 <= i < |rows| :: rows[i].yearMonth in keys
    ensures Total(rows, keys) == |rows|
  {
    if rows == [] {
      TotalOfEmpty(keys);
    } else {
      var init := rows[..|rows| - 1];
      var last := rows[|rows| - 1];
      assert rows == init + [last];
      TotalCountsRows(init, keys);
      TotalSnoc(init, last, keys);
      OccursOnce(keys, last.yearMonth);
    }
  }

  lemma {:induction false} TotalOfEmpty(keys: seq<string>)
    ensures Total([], keys) == 0
  {
    if keys != [] {
      TotalOfEmpty(keys[1..]);
    }
  }

  function SizeSum(items: seq<ArchiveItem>): nat {
    if items == [] then 0 else |items[0].posts| + SizeSum(items[1..])
  }

  lemma {:induction false} SizeSumIsTotal(rows: seq<ArchiveRow>, keys: seq<string>)
    ensures SizeSum(seq(|keys|, j requires 0 <= j < |keys| => ArchiveItem(keys[j], GroupOf(rows, keys[j]))))
      == Total(rows, keys)
  {
    var items := seq(|keys|, j requires 0 <= j < |keys| => ArchiveItem(keys[j], GroupOf(rows, keys[j])));
    if keys != [] {
      SizeSumIsTotal(rows, keys[1..]);
      assert items[1..] == seq(|keys[1..]|, j requires 0 <= j < |keys[1..]| => ArchiveItem(keys[1..][j], GroupOf(rows, keys[1..][j])));
    }
  }

  /** The group sizes add up to the number of rows. */
  lemma GroupSizesSumToRowCount(rows: seq<ArchiveRow>)
    ensures SizeSum(Grouped(rows)) == |rows|
  {
    SizeSumIsTotal(rows, KeysOf(rows));
    TotalCountsRows(rows, KeysOf(rows));
  }

  /** The position at which key k first occurs. */
  function FirstIndex(rows: seq<ArchiveRow>, k: string): (i: nat)
    requires k in KeysOf(rows)
    ensures i < |rows| && rows[i].yearMonth == k
    ensures forall j | 0 <= j < i :: rows[j].yearMonth != k
  {
    if rows[0].yearMonth == k then 0
    else
      assert k in KeysOf(rows[1..]) by {
        var i :| 0 <= i < |rows| && rows[i].yearMonth == k;
        assert rows[1..][i - 1] == rows[i];
      }
      1 + FirstIndex(rows[1..], k)
  }

  /** Items come in the order in which their keys first occur in the rows. */
  lemma {:induction false} KeysInFirstOccurrenceOrder(rows: seq<ArchiveRow>, a: nat, b: nat)
    requires a < b < |KeysOf(rows)|
    ensures FirstIndex(rows, KeysOf(rows)[a]) < FirstIndex(rows, KeysOf(rows)[b])
  {
    var keys := KeysOf(rows);
    var init := rows[..|rows| - 1];
    var last := rows[|rows| - 1];
    var prev := KeysOf(init);
    assert forall i | 0 <= i < |init| :: init[i] == rows[i];
    var fa := FirstIndex(rows, keys[a]);
    var fb := FirstIndex(rows, keys[b]);
    if b < |prev| {
      KeysInFirstOccurrenceOrder(init, a, b);
      var ia := FirstIndex(init, keys[a]);
      var ib := FirstIndex(init, keys[b]);
      assert fa <= ia by { assert rows[ia].yearMonth == keys[a]; }
      assert fa == ia;
      assert fb == ib;
    } else {
      assert keys[b] == last.yearMonth && keys[b] !in prev;
      assert fb == |rows| - 1;
      assert keys[a] in prev;
      var ia := FirstIndex(init, keys[a]);
      assert rows[ia].yearMonth == keys[a];
    }
  }

  /** If the rows come newest first and each row's key is the month of its creation time, the
      items come in strictly decreasing month order. */
  lemma MonthsDescend(rows: seq<ArchiveRow>, a: nat, b: nat, p: Row<PostFields>, q: Row<PostFields>)
    requires forall i | 0 <= i < |rows| :: rows[i].post.createdAt.Valid() && rows[i].yearMonth == YearMonth(rows[i].post.createdAt)
    requires forall i, j | 0 <= i < j < |rows| :: rows[i].post.createdAt.Instant() >= rows[j].post.createdAt.Instant()
    requires a < b < |Grouped(rows)|
    requires p in Grouped(rows)[a].posts && q in Grouped(rows)[b].posts
    ensures p.createdAt.MonthIndex() > q.createdAt.MonthIndex()
  {
    var keys := KeysOf(rows);
    KeysInFirstOccurrenceOrder(rows, a, b);
    var fa := FirstIndex(rows, keys[a]);
    var fb := FirstIndex(rows, keys[b]);
    var da := rows[fa].post.createdAt;
    var db := rows[fb].post.createdAt;
    LaterInstantNotEarlierMonth(db, da);
    YearMonthIdentifiesMonth(da, db);
    MemberHasKeyMonth(rows, keys[a], p, da);
    MemberHasKeyMonth(rows, keys[b], q, db);
  }

  lemma MemberHasKeyMonth(rows: seq<ArchiveRow>, k: string, p: Row<PostFields>, d: DateTime)
    requires forall i | 0 <= i < |rows| :: rows[i].post.createdAt.Valid() && rows[i].yearMonth == YearMonth(rows[i].post.createdAt)
    requires d.Valid() && YearMonth(d) == k
    requires p in GroupOf(rows, k)
    ensures p.createdAt.MonthIndex() == d.MonthIndex()
  {
    GroupIsFilteredRows(rows, k);
    var w := Where(rows, (r: ArchiveRow) => r.yearMonth == k);
    var m :| 0 <= m < |w| && Summaries(w)[m] == p;
    assert w[m] in rows;
    YearMonthIdentifiesMonth(w[m].post.createdAt, d);
  }

  // ---------------------------------------------------------------- GetArchiveData

  function IsPublished(p: Row<PostFields>): bool { p.val.status == PublishedStatus }

  /** `Model(&Post{}).Where("status = ?", "published").Order("created_at DESC")`, each row with
      `DATE_FORMAT(created_at, '%Y-%m')`. */
  function ArchiveRows(db: Db): (rows: seq<ArchiveRow>)
    ensures forall i | 0 <= i < |rows| :: rows[i].yearMonth == YearMonth(rows[i].post.createdAt)
  {
    var posts := SortDesc(Where(LiveRows(db.posts), IsPublished), Created);
    seq(|posts|, i requires 0 <= i < |posts| => ArchiveRow(YearMonth(posts[i].createdAt), posts[i]))
  }

  /** The archive query returns the live published posts and nothing else, newest first. */
  lemma ArchiveRowsFacts(db: Db)
    ensures forall i | 0 <= i < |ArchiveRows(db)| ::
      ArchiveRows(db)[i].post in db.posts && ArchiveRows(db)[i].post.Live() && IsPublished(ArchiveRows(db)[i].post)
    ensures forall i | 0 <= i < |db.posts| :: db.posts[i].Live() && IsPublished(db.posts[i]) ==>
      exists j | 0 <= j < |ArchiveRows(db)| :: ArchiveRows(db)[j].post == db.posts[i]
    ensures forall i, j | 0 <= i < j < |ArchiveRows(db)| ::
      ArchiveRows(db)[i].post.createdAt.Instant() >= ArchiveRows(db)[j].post.createdAt.Instant()
  {
    var w := Where(LiveRows(db.posts), IsPublished);
    var posts := SortDesc(w, Created);
    SortDescMembers(w, Created);
    ArchiveRowsSelected(db, w, posts);
    ArchiveRowsComplete(db, w, posts);
    var rows := ArchiveRows(db);
    forall i, j | 0 <= i < j < |rows| ensures rows[i].post.createdAt.Instant() >= rows[j].post.createdAt.Instant() {
      assert Created(posts[i]) >= Created(posts[j]);
    }
  }

  lemma ArchiveRowsSelected(db: Db, w: seq<Row<PostFields>>, posts: seq<Row<PostFields>>)
    requires w == Where(LiveRows(db.posts), IsPublished) && posts == SortDesc(w, Created)
    requires forall i | 0 <= i < |posts| :: posts[i] in w
    ensures forall i | 0 <= i < |ArchiveRows(db)| ::
      ArchiveRows(db)[i].post in db.posts && ArchiveRows(db)[i].post.Live() && IsPublished(ArchiveRows(db)[i].post)
  {
    var rows := ArchiveRows(db);
    forall i | 0 <= i < |rows| ensures rows[i].post in db.posts && rows[i].post.Live() && IsPublished(rows[i].post) {
      assert rows[i].post == posts[i];
      var k :| 0 <= k < |w| && w[k] == posts[i];
    }
  }

  lemma ArchiveRowsComplete(db: Db, w: seq<Row<PostFields>>, posts: seq<Row<PostFields>>)
    requires w == Where(LiveRows(db.posts), IsPublished) && posts == SortDesc(w, Created)
    requires forall i | 0 <= i < |w| :: w[i] in posts
    ensures forall i | 0 <= i < |db.posts| :: db.posts[i].Live() && IsPublished(db.posts[i]) ==>
      exists j | 0 <= j < |ArchiveRows(db)| :: ArchiveRows(db)[j].post == db.posts[i]
  {
    var rows := ArchiveRows(db);
    forall i | 0 <= i < |db.posts| && db.posts[i].Live() && IsPublished(db.posts[i])
      ensures exists j | 0 <= j < |rows| :: rows[j].post == db.posts[i]
    {
      var live := LiveRows(db.posts);
      assert db.posts[i] in live;
      var k :| 0 <= k < |live| && live[k] == db.posts[i];
      assert db.posts[i] in w;
      var m :| 0 <= m < |w| && w[m] == db.posts[i];
      var j :| 0 <= j < |posts| && posts[j] == db.posts[i];
      assert rows[j].post == db.posts[i];
    }
  }

  /** In the archive of a database, a post's summary sits in exactly one item: the one whose key
      is the post's month. */
  lemma ArchivePostInOneItem(db: Db, i: nat, b: nat)
    requires i < |ArchiveRows(db)| && b < |Grouped(ArchiveRows(db))|
    ensures Summary(ArchiveRows(db)[i].post) in Grouped(ArchiveRows(db))[b].posts
      <==> Grouped(ArchiveRows(db))[b].yearMonth == ArchiveRows(db)[i].yearMonth
  {
    var rows := ArchiveRows(db);
    var s := Summary(rows[i].post);
    EveryRowInItsGroup(rows, i);
    GroupsDistinctAndNonEmpty(rows);
    if s in Grouped(rows)[b].posts {
      GroupMembersHaveItsKey(rows, b, s);
      var j :| 0 <= j < |rows| && rows[j].yearMonth == Grouped(rows)[b].yearMonth && Summary(rows[j].post) == s;
      assert rows[j].post.createdAt == rows[i].post.createdAt;
    }
  }

  /** With valid timestamps, the archive of a database lists its months strictly newest first. */
  lemma ArchiveNewestMonthFirst(db: Db, a: nat, b: nat, p: Row<PostFields>, q: Row<PostFields>)
    requires forall i | 0 <= i < |db.posts| :: db.posts[i].createdAt.Valid()
    requires a < b < |Grouped(ArchiveRows(db))|
    requires p in Grouped(ArchiveRows(db))[a].posts && q in Grouped(ArchiveRows(db))[b].posts
    ensures p.createdAt.MonthIndex() > q.createdAt.MonthIndex()
  {
    var rows := ArchiveRows(db);
    ArchiveRowsFacts(db);
    forall i | 0 <= i < |rows| ensures rows[i].post.createdAt.Valid() {
      var k :| 0 <= k < |db.posts| && db.posts[k] == rows[i].post;
    }
    MonthsDescend(rows, a, b, p, q);
  }

  /** The archive response: 500 on a query error; otherwise the groups, or JSON null (a nil
      slice) when there is no published post. */
  function ArchiveResponse(db: Db, fails: Faults): (resp: Response)
    ensures ListQuery in fails ==> resp == Fail(500, "获取归档数据失败")
    ensures ListQuery !in fails ==> (resp.status == 200 && resp.data.Archive?)
    ensures ListQuery !in fails ==> (resp.data.items.None? <==> ArchiveRows(db) == [])
  {
    if ListQuery in fails then Fail(500, "获取归档数据失败")
    else
      var items := Grouped(ArchiveRows(db));
      assert ArchiveRows(db) != [] ==> ArchiveRows(db)[0].yearMonth in KeysOf(ArchiveRows(db));
      Ok("获取归档数据成功", Archive(if items == [] then None else Some(items)))
  }

  /** GET /api/archive: the query, then the grouping loops. */
  method GetArchiveData(db: Store, fails: Faults) returns (resp: Response)
    ensures resp == ArchiveResponse(db.State(), fails)
  {
    if ListQuery in fails {
      return Fail(500, "获取归档数据失败");
    }
    var results := ArchiveRows(db.State());
    var archiveData := GroupArchive(results);
    resp := Ok("获取归档数据成功", Archive(if archiveData == [] then None else Some(archiveData)));
  }

  // ---------------------------------------------------------------- GetHomePageData

  function LatestPosts(db: Db): seq<Row<PostFields>> { Take(SortDesc(LiveRows(db.posts), Created), 5) }

  function HotPosts(db: Db): seq<Row<PostFields>> { Take(SortDesc(LiveRows(db.posts), Views), 5) }

  /** GET /api/home: four queries in turn, the first that fails deciding the 500 message. */
  function GetHomePageData(db: Db, fails: Faults): (resp: Response)
    ensures LatestQuery in fails ==> resp == Fail(500, "获取最新文章失败")
    ensures LatestQuery !in fails && HotPostsQuery in fails ==> resp == Fail(500, "获取热门文章失败")
    ensures resp.status == 200 <==>
      (LatestQuery !in fails && HotPostsQuery !in fails && HotCategoriesQuery !in fails && HotTagsQuery !in fails)
    ensures resp.status == 200 ==>
      (resp.data.Home? && |resp.data.latest| <= 5 && |resp.data.hot| <= 5
       && |resp.data.hotCategoryList| <= 5 && |resp.data.hotTagList| <= 10
       && resp.data.latest == LatestPosts(db) && resp.data.hot == HotPosts(db)
       && resp.data.hotCategoryList == HotList(db.categories, db.postCategories, 5)
       && resp.data.hotTagList == HotList(db.tags, db.postTags, 10))
  {
    if LatestQuery in fails then Fail(500, "获取最新文章失败")
    else if HotPostsQuery in fails then Fail(500, "获取热门文章失败")
    else if HotCategoriesQuery in fails then Fail(500, "获取热门分类失败")
    else if HotTagsQuery in fails then Fail(500, "获取热门标签失败")
    else
      HotListFacts(db.categories, db.postCategories, 5);
      HotListFacts(db.tags, db.postTags, 10);
      Ok("获取首页数据成功", Home(LatestPosts(db), HotPosts(db),
        HotList(db.categories, db.postCategories, 5), HotList(db.tags, db.postTags, 10)))
  }

  /** The latest and hot lists each hold five live posts of the table, or every live post when
      there are fewer. */
  lemma HomeListsHoldFive(db: Db)
    ensures |LatestPosts(db)| == |HotPosts(db)| == (if |LiveRows(db.posts)| <= 5 then |LiveRows(db.posts)| else 5)
    ensures forall i | 0 <= i < |LatestPosts(db)| :: LatestPosts(db)[i] in db.posts && LatestPosts(db)[i].Live()
    ensures forall i | 0 <= i < |HotPosts(db)| :: HotPosts(db)[i] in db.posts && HotPosts(db)[i].Live()
  {
    var live := LiveRows(db.posts);
    forall i | 0 <= i < |LatestPosts(db)| ensures LatestPosts(db)[i] in db.posts && LatestPosts(db)[i].Live() {
      assert LatestPosts(db)[i] in multiset(SortDesc(live, Created));
    }
    forall i | 0 <= i < |HotPosts(db)| ensures HotPosts(db)[i] in db.posts && HotPosts(db)[i].Live() {
      assert HotPosts(db)[i] in multiset(SortDesc(live, Views));
    }
  }

  /** The latest and hot lists are top fives of the live posts, by creation time (any status)
      and by view count: a live post left out is no newer, or has no more views, than any post
      listed. */
  lemma HomeListsAreTopFive(db: Db, p: Row<PostFields>)
    requires p in db.posts && p.Live()
    ensures p !in LatestPosts(db) ==> forall i | 0 <= i < |LatestPosts(db)| :: Created(LatestPosts(db)[i]) >= Created(p)
    ensures p !in HotPosts(db) ==> forall i | 0 <= i < |HotPosts(db)| :: HotPosts(db)[i].val.viewCount >= p.val.viewCount
  {
    var live := LiveRows(db.posts);
    assert p in live by {
      var k :| 0 <= k < |db.posts| && db.posts[k] == p;
    }
    if p !in LatestPosts(db) {
      TopK(live, Created, 5, p);
      forall i | 0 <= i < |LatestPosts(db)| ensures Created(LatestPosts(db)[i]) >= Created(p) {
        assert LatestPosts(db)[i] in LatestPosts(db);
      }
    }
    if p !in HotPosts(db) {
      TopK(live, Views, 5, p);
      forall i | 0 <= i < |HotPosts(db)| ensures HotPosts(db)[i].val.viewCount >= p.val.viewCount {
        assert HotPosts(db)[i] in HotPosts(db);
      }
    }
  }
}
