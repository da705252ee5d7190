/** The records of the blog (users, categories, tags, posts, comments), the many-to-many join
    tables between posts and categories and between posts and tags, the unique indexes over
    them, and the response envelope every handler writes.

    Every record carries GORM's bookkeeping columns: an auto-increment primary key, creation
    and update times, and a soft-delete time. A soft-deleted row stays in its table (so it
    still occupies its unique keys) but is invisible to every ordinary query. */
module Models {
  import opened Wrappers
  import opened Text
  import opened Json
  import Query

  // ---------------------------------------------------------------- time

  /** A DATETIME column value: MySQL keeps years 1000-9999; Go's zero time is year 1. */
  datatype DateTime = DateTime(year: nat, month: nat, day: nat, hour: nat, minute: nat, second: nat)
  {
    predicate Valid() {
      year < 10000 && 1 <= month <= 12 && 1 <= day <= 31 && hour < 24 && minute < 60 && second < 60
    }

    /** Months since year 0, January. */
    function MonthIndex(): int { year * 12 + month - 1 }

    function WithinMonth(): int { (((day - 1) * 24 + hour) * 60 + minute) * 60 + second }

    /** Seconds on a calendar whose months all have 31 days. It orders valid date-times as
        real time does, which is all that ORDER BY created_at needs. */
    function Instant(): int { MonthIndex() * SlotSeconds + WithinMonth() }
  }

  const SlotSeconds: int := 31 * 24 * 3600

  /** Go's zero `time.Time`, which a struct literal leaves in fields it does not set. */
  const ZeroTime := DateTime(1, 1, 1, 0, 0, 0)

  lemma {:induction false} LaterInstantNotEarlierMonth(a: DateTime, b: DateTime)
    requires a.Valid() && b.Valid() && a.Instant() <= b.Instant()
    ensures a.MonthIndex() <= b.MonthIndex()
  {
    assert 0 <= a.WithinMonth() && b.WithinMonth() < SlotSeconds;
  }

  /** MySQL `DATE_FORMAT(created_at, '%Y-%m')`. */
  function YearMonth(d: DateTime): string {
    Pad(d.year, 4) + "-" + Pad(d.month, 2)
  }

  /** Go's `Format("20060102150405")`. */
  function Stamp(d: DateTime): string {
    Pad(d.year, 4) + Pad(d.month, 2) + Pad(d.day, 2) + Pad(d.hour, 2) + Pad(d.minute, 2) + Pad(d.second, 2)
  }

  /** The JSON string a `time.Time` marshals to (RFC 3339; the zone is taken to be UTC). */
  function TimeJson(d: DateTime): string {
    Pad(d.year, 4) + "-" + Pad(d.month, 2) + "-" + Pad(d.day, 2) + "T"
    + Pad(d.hour, 2) + ":" + Pad(d.minute, 2) + ":" + Pad(d.second, 2) + "Z"
  }

  lemma Pow10Values()
    ensures Pow10(2) == 100 && Pow10(4) == 10000
  {
    assert Pow10(1) == 10;
    assert Pow10(3) == 1000;
  }

  /** Two valid date-times format to the same `YYYY-MM` exactly when they fall in the same month. */
  lemma YearMonthIdentifiesMonth(a: DateTime, b: DateTime)
    requires a.Valid() && b.Valid()
    ensures YearMonth(a) == YearMonth(b) <==> a.MonthIndex() == b.MonthIndex()
  {
    Pow10Values();
    PadExact(a.year, 4);
    PadExact(b.year, 4);
    PadExact(a.month, 2);
    PadExact(b.month, 2);
    if YearMonth(a) == YearMonth(b) {
      assert YearMonth(a)[..4] == Pad(a.year, 4);
      assert YearMonth(b)[..4] == Pad(b.year, 4);
      assert YearMonth(a)[5..] == Pad(a.month, 2);
      assert YearMonth(b)[5..] == Pad(b.month, 2);
      PadInjective(a.year, b.year, 4);
      PadInjective(a.month, b.month, 2);
    }
    if a.MonthIndex() == b.MonthIndex() {
      assert a.year == b.year;
    }
  }

  /** The suffix CreatePost appends to a taken slug is always 14 digits. */
  lemma StampIsFourteenDigits(d: DateTime)
    requires d.Valid()
    ensures |Stamp(d)| == 14 && AllDigits(Stamp(d))
  {
    Pow10Values();
    PadExact(d.year, 4);
    PadExact(d.month, 2);
    PadExact(d.day, 2);
    PadExact(d.hour, 2);
    PadExact(d.minute, 2);
    PadExact(d.second, 2);
  }

  // ---------------------------------------------------------------- records

  datatype UserFields = UserFields(
    username: string, email: string, password: string, nickname: string, avatar: string, role: string)

  datatype CategoryFields = CategoryFields(name: string, slug: string, description: string)

  datatype TagFields = TagFields(name: string, slug: string)

  datatype PostFields = PostFields(
    title: string, slug: string, content: string, excerpt: string, coverImage: string,
    status: string, viewCount: int, likeCount: int, authorId: nat)

  /** `parentId` is the optional *uint ParentID: a reply names the comment it answers. */
  datatype CommentFields = CommentFields(
    content: string, postId: nat, userId: nat, parentId: Option<nat>, status: string)

  /** A table row: GORM's primary key, timestamps and soft-delete mark around the fields. */
  datatype Row<T> = Row(id: nat, createdAt: DateTime, updatedAt: DateTime, deletedAt: Option<DateTime>, val: T)
  {
    predicate Live() { deletedAt.None? }
  }

  const DefaultRole := "user"
  const DefaultPostStatus := "draft"
  const DefaultCommentStatus := "pending"
  const ApprovedStatus := "approved"
  const PublishedStatus := "published"
  const AdminRole := "admin"

  /** The column defaults, which INSERT applies to fields left at Go's zero value. */
  function UserDefaults(u: UserFields): (r: UserFields)
    ensures r.role != ""
    ensures r.role == (if u.role == "" then DefaultRole else u.role)
    ensures r.(role := u.role) == u
  {
    if u.role == "" then u.(role := DefaultRole) else u
  }

  function PostDefaults(p: PostFields): (r: PostFields)
    ensures r.status != ""
    ensures r.status == (if p.status == "" then DefaultPostStatus else p.status)
    ensures r.(status := p.status) == p
  {
    if p.status == "" then p.(status := DefaultPostStatus) else p
  }

  function CommentDefaults(c: CommentFields): (r: CommentFields)
    ensures r.status != ""
    ensures r.status == (if c.status == "" then DefaultCommentStatus else c.status)
    ensures r.(status := c.status) == c
  {
    if c.status == "" then c.(status := DefaultCommentStatus) else c
  }

  /** The fields of a Post struct literal that names only title, slug, content, excerpt, cover
      image, status and author: the two counters start at 0. */
  function NewPost(title: string, slug: string, content: string, excerpt: string, coverImage: string,
                   status: string, authorId: nat): (p: PostFields)
    ensures p.viewCount == 0 && p.likeCount == 0
    ensures p.title == title && p.slug == slug && p.content == content && p.status == status
    ensures p.excerpt == excerpt && p.coverImage == coverImage && p.authorId == authorId
  {
    PostFields(title, slug, content, excerpt, coverImage, status, 0, 0, authorId)
  }

  function Username(u: UserFields): string { u.username }
  function Email(u: UserFields): string { u.email }
  function CategoryName(c: CategoryFields): string { c.name }
  function CategorySlug(c: CategoryFields): string { c.slug }
  function TagName(t: TagFields): string { t.name }
  function TagSlug(t: TagFields): string { t.slug }
  function PostSlug(p: PostFields): string { p.slug }

  // ---------------------------------------------------------------- tables

  /** Auto-increment keys with no gaps: the row at position i has id i + 1. Rows are never
      removed, only soft-deleted. */
  predicate Dense<T>(t: seq<Row<T>>) {
    forall i | 0 <= i < |t| :: t[i].id == i + 1
  }

  /** A unique index on `key`: it covers soft-deleted rows too. */
  predicate UniqueBy<T>(t: seq<Row<T>>, key: T -> string) {
    forall i, j | 0 <= i < j < |t| :: key(t[i].val) != key(t[j].val)
  }

  /** The unique index on `key` already holds `k` for a row other than `except` (ids start at
      1, so `except` 0 excludes nothing). */
  predicate Taken<T>(t: seq<Row<T>>, key: T -> string, k: string, except: nat) {
    exists i | 0 <= i < |t| :: t[i].id != except && key(t[i].val) == k
  }

  /** What `WHERE key = k [AND id != except]` finds: GORM adds `deleted_at IS NULL`. */
  predicate Visible<T>(t: seq<Row<T>>, key: T -> string, k: string, except: nat) {
    exists i | 0 <= i < |t| :: t[i].Live() && t[i].id != except && key(t[i].val) == k
  }

  /** The live rows: what `Find(&rows)` returns. */
  function LiveRows<T>(t: seq<Row<T>>): (r: seq<Row<T>>)
    ensures forall i | 0 <= i < |r| :: r[i] in t && r[i].Live()
    ensures forall i | 0 <= i < |t| :: t[i].Live() ==> t[i] in r
    ensures multiset(r) <= multiset(t)
    ensures forall i | 0 <= i < |t| :: t[i].Live() ==> multiset(r)[t[i]] == multiset(t)[t[i]]
  {
    Query.WhereCounts(t, (x: Row<T>) => x.Live());
    Query.Where(t, (x: Row<T>) => x.Live())
  }

  /** A filter over the live rows keeps exactly the live matching rows, every copy of each,
      so its length is what `COUNT(*)` reports for the same conditions. */
  lemma LiveWhereFacts<T>(t: seq<Row<T>>, p: Row<T> -> bool)
    ensures var r := Query.Where(LiveRows(t), p);
      (forall i | 0 <= i < |r| :: r[i] in t && r[i].Live() && p(r[i]))
      && (forall i | 0 <= i < |t| :: t[i].Live() && p(t[i]) ==> t[i] in r)
      && multiset(r) <= multiset(t)
      && (forall i | 0 <= i < |t| :: t[i].Live() && p(t[i]) ==> multiset(r)[t[i]] == multiset(t)[t[i]])
  {
    var live := LiveRows(t);
    var r := Query.Where(live, p);
    Query.WhereCounts(live, p);
    assert forall i | 0 <= i < |r| :: r[i] in live;
    forall i | 0 <= i < |t| && t[i].Live() && p(t[i])
      ensures multiset(r)[t[i]] == multiset(t)[t[i]]
    {
      var j :| 0 <= j < |live| && live[j] == t[i];
    }
  }

  /** `First(&row, id)`: the live row with that primary key, if there is one. */
  function Lookup<T>(t: seq<Row<T>>, id: int): (r: Option<Row<T>>)
    requires Dense(t)
    ensures r.Some? <==> exists i | 0 <= i < |t| :: t[i].id == id && t[i].Live()
    ensures r.Some? ==> r.value == t[id - 1] && r.value.id == id && r.value.Live()
  {
    if 1 <= id <= |t| && t[id - 1].Live() then Some(t[id - 1]) else None
  }

  /** `Where("key = ?", k).First(&row)`: the first live row, in table order, whose key is k. */
  function FirstBy<T>(t: seq<Row<T>>, key: T -> string, k: string): (r: Option<Row<T>>)
    ensures r.Some? ==> r.value in t && r.value.Live() && key(r.value.val) == k
    ensures r.None? <==> forall i | 0 <= i < |t| :: !(t[i].Live() && key(t[i].val) == k)
    ensures r.Some? ==> exists i | 0 <= i < |t| :: t[i] == r.value
                          && forall j | 0 <= j < i :: !(t[j].Live() && key(t[j].val) == k)
    decreases |t|
  {
    if t == [] then None
    else if t[0].Live() && key(t[0].val) == k then Some(t[0])
    else
      var r := FirstBy(t[1..], key, k);
      assert forall i | 1 <= i < |t| :: t[i] == t[1..][i - 1];
      assert r.Some? ==> exists i | 0 <= i < |t| :: t[i] == r.value
                                && forall j | 0 <= j < i :: !(t[j].Live() && key(t[j].val) == k) by {
        if r.Some? {
          var i :| 0 <= i < |t[1..]| && t[1..][i] == r.value
            && forall j | 0 <= j < i :: !(t[1..][j].Live() && key(t[1..][j].val) == k);
          assert t[i + 1] == r.value;
        }
      }
      r
  }

  /** INSERT: the next id, both timestamps set to now, not deleted. */
  function Insert<T>(t: seq<Row<T>>, now: DateTime, v: T): (r: seq<Row<T>>)
    ensures |r| == |t| + 1 && r[..|t|] == t
    ensures r[|t|] == Row(|t| + 1, now, now, None, v)
  {
    t + [Row(|t| + 1, now, now, None, v)]
  }

  lemma InsertKeepsDense<T>(t: seq<Row<T>>, now: DateTime, v: T)
    requires Dense(t)
    ensures Dense(Insert(t, now, v))
  {
  }

  lemma {:induction false} InsertKeepsUnique<T>(t: seq<Row<T>>, key: T -> string, now: DateTime, v: T)
    requires UniqueBy(t, key) && !Taken(t, key, key(v), 0) && Dense(t)
    ensures UniqueBy(Insert(t, now, v), key)
  {
    var r := Insert(t, now, v);
    forall i, j | 0 <= i < j < |r| ensures key(r[i].val) != key(r[j].val) {
      if j == |t| {
        assert r[i] == t[i] && t[i].id != 0;
      } else {
        assert r[i] == t[i] && r[j] == t[j];
      }
    }
  }

  /** UPDATE of row i (Save writes the whole record). */
  lemma {:induction false} SetKeepsUnique<T>(t: seq<Row<T>>, key: T -> string, i: nat, v: T)
    requires UniqueBy(t, key) && Dense(t) && i < |t| && !Taken(t, key, key(v), i + 1)
    ensures UniqueBy(t[i := t[i].(val := v)], key)
  {
    var r := t[i := t[i].(val := v)];
    forall a, b | 0 <= a < b < |r| ensures key(r[a].val) != key(r[b].val) {
      if a == i {
        assert r[b] == t[b] && t[b].id != i + 1;
      } else if b == i {
        assert r[a] == t[a] && t[a].id != i + 1;
      } else {
        assert r[a] == t[a] && r[b] == t[b];
      }
    }
  }

  /** Soft delete of the row with key id: only its deleted_at changes. */
  function SoftDelete<T>(t: seq<Row<T>>, id: nat, now: DateTime): (r: seq<Row<T>>)
    requires 1 <= id <= |t|
    ensures |r| == |t| && r[id - 1] == t[id - 1].(deletedAt := Some(now))
    ensures forall i | 0 <= i < |t| && i != id - 1 :: r[i] == t[i]
    ensures forall i | 0 <= i < |t| :: r[i].id == t[i].id && r[i].val == t[i].val
  {
    t[id - 1 := t[id - 1].(deletedAt := Some(now))]
  }

  /** UPDATE of the row with key id: new fields and updated_at. */
  function Rewrite<T>(t: seq<Row<T>>, id: nat, v: T, now: DateTime): (r: seq<Row<T>>)
    requires 1 <= id <= |t|
    ensures |r| == |t| && r[id - 1] == t[id - 1].(val := v, updatedAt := now)
    ensures forall i | 0 <= i < |t| && i != id - 1 :: r[i] == t[i]
  {
    t[id - 1 := t[id - 1].(val := v, updatedAt := now)]
  }

  /** Tables whose rows keep their keys and fields satisfy the same index constraints. */
  lemma SameKeysAndFields<T>(t: seq<Row<T>>, r: seq<Row<T>>, key: T -> string)
    requires |r| == |t| && forall i | 0 <= i < |t| :: r[i].id == t[i].id && r[i].val == t[i].val
    ensures Dense(r) == Dense(t) && UniqueBy(r, key) == UniqueBy(t, key)
  {
  }

  lemma RewriteKeepsUnique<T>(t: seq<Row<T>>, key: T -> string, id: nat, v: T, now: DateTime)
    requires UniqueBy(t, key) && Dense(t) && 1 <= id <= |t| && !Taken(t, key, key(v), id)
    ensures UniqueBy(Rewrite(t, id, v, now), key) && Dense(Rewrite(t, id, v, now))
  {
    SetKeepsUnique(t, key, id - 1, v);
    var r := Rewrite(t, id, v, now);
    var r' := t[id - 1 := t[id - 1].(val := v)];
    SameKeysAndFields(r', r, key);
  }

  /** Rewriting a row without changing its key keeps the index unique. */
  lemma RewriteSameKey<T>(t: seq<Row<T>>, key: T -> string, id: nat, v: T, now: DateTime)
    requires UniqueBy(t, key) && Dense(t) && 1 <= id <= |t| && key(v) == key(t[id - 1].val)
    ensures UniqueBy(Rewrite(t, id, v, now), key) && Dense(Rewrite(t, id, v, now))
  {
    assert !Taken(t, key, key(v), id);
    RewriteKeepsUnique(t, key, id, v, now);
  }

  /** `Association("Posts").Clear()` on a category or tag: the join rows that remain once the
      links naming that owner are removed. */
  function Unlinked(links: set<(nat, nat)>, id: nat): (r: set<(nat, nat)>)
    ensures r <= links
    ensures forall l | l in links :: l in r <==> l.1 != id
  {
    set l | l in links && l.1 != id
  }

  /** The sort keys of `ORDER BY created_at DESC` and `ORDER BY view_count DESC`. */
  function Created<T>(r: Row<T>): int { r.createdAt.Instant() }

  function Views(p: Row<PostFields>): int { p.val.viewCount }

  // ---------------------------------------------------------------- hot lists

  /** `count(link.post_id)` over `left join link on link.owner_id = row.id`: the number of join
      rows naming the row, soft-deleted posts included. */
  function PostCount(links: set<(nat, nat)>, id: nat): nat {
    |set l | l in links && l.1 == id|
  }

  function CountOf<T>(r: Ranked<T>): int { r.postCount }

  /** `GROUP BY row.id`: each live row with its link count, in table order. */
  function RankByLinks<T>(rows: seq<Row<T>>, links: set<(nat, nat)>): (r: seq<Ranked<T>>)
    ensures |r| == |rows|
    ensures forall i | 0 <= i < |rows| :: r[i] == Ranked(rows[i], PostCount(links, rows[i].id))
  {
    seq(|rows|, i requires 0 <= i < |rows| => Ranked(rows[i], PostCount(links, rows[i].id)))
  }

  /** `WHERE row.deleted_at IS NULL GROUP BY row.id ORDER BY post_count DESC LIMIT limit`. */
  function HotList<T>(rows: seq<Row<T>>, links: set<(nat, nat)>, limit: nat): seq<Ranked<T>> {
    Query.Take(Query.SortDesc(RankByLinks(LiveRows(rows), links), CountOf), limit)
  }

  /** A hot list holds `limit` live rows, or every live row when there are fewer, with their
      true link counts, most linked first, and no live row left out has more links than any row
      listed. */
  lemma HotListFacts<T>(rows: seq<Row<T>>, links: set<(nat, nat)>, limit: nat)
    ensures |HotList(rows, links, limit)| <= limit
    ensures |HotList(rows, links, limit)| == if |LiveRows(rows)| <= limit then |LiveRows(rows)| else limit
    ensures forall i | 0 <= i < |HotList(rows, links, limit)| ::
      HotList(rows, links, limit)[i].row in rows && HotList(rows, links, limit)[i].row.Live()
      && HotList(rows, links, limit)[i].postCount == PostCount(links, HotList(rows, links, limit)[i].row.id)
    ensures Query.SortedDesc(HotList(rows, links, limit), CountOf)
    ensures forall i, j | 0 <= i < |rows| && 0 <= j < |HotList(rows, links, limit)| ::
      rows[i].Live() && Ranked(rows[i], PostCount(links, rows[i].id)) !in HotList(rows, links, limit)
      ==> HotList(rows, links, limit)[j].postCount >= PostCount(links, rows[i].id)
  {
    var all := RankByLinks(LiveRows(rows), links);
    var sorted := Query.SortDesc(all, CountOf);
    var h := HotList(rows, links, limit);
    assert h <= sorted;
    forall i | 0 <= i < |h|
      ensures h[i].row in rows && h[i].row.Live() && h[i].postCount == PostCount(links, h[i].row.id)
    {
      assert h[i] == sorted[i];
      assert sorted[i] in multiset(all);
      var k :| 0 <= k < |all| && all[k] == sorted[i];
      assert LiveRows(rows)[k] in rows;
    }
    forall i, j | 0 <= i < |rows| && 0 <= j < |h| && rows[i].Live() && Ranked(rows[i], PostCount(links, rows[i].id)) !in h
      ensures h[j].postCount >= PostCount(links, rows[i].id)
    {
      var x := Ranked(rows[i], PostCount(links, rows[i].id));
      assert rows[i] in LiveRows(rows);
      var k :| 0 <= k < |LiveRows(rows)| && LiveRows(rows)[k] == rows[i];
      assert all[k] == x;
      Query.TopK(all, CountOf, limit, x);
      assert h[j] in h;
    }
    forall i, j | 0 <= i < j < |h| ensures CountOf(h[i]) >= CountOf(h[j]) {
      assert h[i] == sorted[i] && h[j] == sorted[j];
    }
  }

  // ---------------------------------------------------------------- the database

  datatype Db = Db(
    users: seq<Row<UserFields>>,
    categories: seq<Row<CategoryFields>>,
    tags: seq<Row<TagFields>>,
    posts: seq<Row<PostFields>>,
    comments: seq<Row<CommentFields>>,
    postCategories: set<(nat, nat)>,
    postTags: set<(nat, nat)>)
  {
    /** Dense keys in every table and every unique index of the schema. */
    predicate Valid() {
      Dense(users) && Dense(categories) && Dense(tags) && Dense(posts) && Dense(comments)
      && UniqueBy(users, Username) && UniqueBy(users, Email)
      && UniqueBy(categories, CategoryName) && UniqueBy(categories, CategorySlug)
      && UniqueBy(tags, TagName) && UniqueBy(tags, TagSlug)
      && UniqueBy(posts, PostSlug)
    }

    /** The role of the user a handler loads with `First(&user, userID)`, ignoring the error:
        a missing user leaves Role at "". */
    function RoleOf(userId: nat): (role: string)
      requires Dense(users)
      ensures Lookup(users, userId).None? ==> role == ""
      ensures Lookup(users, userId).Some? ==> role == users[userId - 1].val.role
    {
      match Lookup(users, userId)
      case Some(u) => u.val.role
      case None => ""
    }

    /** The unique indexes a new or rewritten user would violate. */
    predicate UserClash(u: UserFields, except: nat) {
      Taken(users, Username, u.username, except) || Taken(users, Email, u.email, except)
    }

    predicate CategoryClash(c: CategoryFields, except: nat) {
      Taken(categories, CategoryName, c.name, except) || Taken(categories, CategorySlug, c.slug, except)
    }

    predicate TagClash(g: TagFields, except: nat) {
      Taken(tags, TagName, g.name, except) || Taken(tags, TagSlug, g.slug, except)
    }

    predicate PostClash(p: PostFields, except: nat) {
      Taken(posts, PostSlug, p.slug, except)
    }
  }

  const EmptyDb := Db([], [], [], [], [], {}, {})

  /** The comments that answer comment `id` (the Replies association). */
  function Replies(comments: seq<Row<CommentFields>>, id: nat): (r: seq<Row<CommentFields>>)
    ensures forall i | 0 <= i < |r| :: r[i] in comments && r[i].Live() && r[i].val.parentId == Some(id)
    ensures forall i | 0 <= i < |comments| ::
      comments[i].Live() && comments[i].val.parentId == Some(id) ==> comments[i] in r
  {
    Query.Where(comments, (c: Row<CommentFields>) => c.Live() && c.val.parentId == Some(id))
  }

  /** The store the handlers share (GORM's global connection). Each table is a field that a
      handler reassigns; a transaction works on local copies and writes them back on commit. */
  class Store {
    var users: seq<Row<UserFields>>
    var categories: seq<Row<CategoryFields>>
    var tags: seq<Row<TagFields>>
    var posts: seq<Row<PostFields>>
    var comments: seq<Row<CommentFields>>
    var postCategories: set<(nat, nat)>
    var postTags: set<(nat, nat)>

    function State(): Db
      reads this
    {
      Db(users, categories, tags, posts, comments, postCategories, postTags)
    }

    predicate Valid()
      reads this
    {
      State().Valid()
    }

    constructor ()
      ensures State() == EmptyDb && Valid()
    {
      users, categories, tags, posts, comments := [], [], [], [], [];
      postCategories, postTags := {}, {};
    }
  }

  // ---------------------------------------------------------------- serialisation

  /** The JSON object a User marshals to. Password and DeletedAt are tagged `json:"-"`, and the
      Posts and Comments associations too. */
  function UserJson(u: Row<UserFields>): (j: map<string, Json>)
    ensures j.Keys == {"id", "created_at", "updated_at", "username", "email", "nickname", "avatar", "role"}
    ensures "password" !in j
    ensures j["id"] == Num(u.id) && j["username"] == Str(u.val.username) && j["role"] == Str(u.val.role)
  {
    map["id" := Num(u.id), "created_at" := Str(TimeJson(u.createdAt)),
        "updated_at" := Str(TimeJson(u.updatedAt)), "username" := Str(u.val.username),
        "email" := Str(u.val.email), "nickname" := Str(u.val.nickname),
        "avatar" := Str(u.val.avatar), "role" := Str(u.val.role)]
  }

  /** The other five keys of a serialised user hold the row's own email, nickname, avatar and
      timestamps. */
  lemma UserJsonFields(u: Row<UserFields>)
    ensures UserJson(u)["email"] == Str(u.val.email) && UserJson(u)["nickname"] == Str(u.val.nickname)
    ensures UserJson(u)["avatar"] == Str(u.val.avatar)
    ensures UserJson(u)["created_at"] == Str(TimeJson(u.createdAt)) && UserJson(u)["updated_at"] == Str(TimeJson(u.updatedAt))
  {
  }

  /** The `user` object of the Register and Login responses. */
  function PublicUser(u: Row<UserFields>): (j: map<string, Json>)
    ensures j.Keys == {"id", "username", "email", "nickname", "role"}
    ensures "password" !in j
    ensures j["id"] == Num(u.id) && j["username"] == Str(u.val.username) && j["email"] == Str(u.val.email)
    ensures j["nickname"] == Str(u.val.nickname) && j["role"] == Str(u.val.role)
  {
    map["id" := Num(u.id), "username" := Str(u.val.username), "email" := Str(u.val.email),
        "nickname" := Str(u.val.nickname), "role" := Str(u.val.role)]
  }

  /** No value the password can take changes what a user serialises to. */
  lemma PasswordNeverSerialised(u: Row<UserFields>, other: string)
    ensures UserJson(u) == UserJson(u.(val := u.val.(password := other)))
    ensures PublicUser(u) == PublicUser(u.(val := u.val.(password := other)))
  {
  }

  // ---------------------------------------------------------------- responses

  /** The failure points of a handler's database calls: a call whose label is in the fault
      set returns an error (a lost connection, a failed statement) instead of its result. */
  datatype Call =
    | Fetch | FetchRole | SlugCheck | CountQuery | ListQuery | Write | Reload
    | FindCategories | ReplaceCategories | FindTags | ReplaceTags | Clear
    | LatestQuery | HotPostsQuery | HotCategoriesQuery | HotTagsQuery
    | UsernameCheck | EmailCheck

  type Faults = set<Call>

  /** A category or tag with the number of post links the hot queries count for it. */
  datatype Ranked<T> = Ranked(row: Row<T>, postCount: nat)

  /** One month of the archive: its `YYYY-MM` key and the post summaries in it. */
  datatype ArchiveItem = ArchiveItem(yearMonth: string, posts: seq<Row<PostFields>>)

  datatype Payload =
    | NoData
    | PostData(post: Row<PostFields>)
    | PostPage(posts: seq<Row<PostFields>>, total: int, page: int, pageSize: int, totalPage: int, keyword: Option<string>)
    | LikeCount(likeCount: int)
    | CategoryData(category: Row<CategoryFields>)
    | CategoryList(categories: seq<Row<CategoryFields>>)
    | HotCategories(hotCategories: seq<Ranked<CategoryFields>>)
    | TagData(tag: Row<TagFields>)
    | TagList(tags: seq<Row<TagFields>>)
    | HotTags(hotTags: seq<Ranked<TagFields>>)
    | CommentData(comment: Row<CommentFields>)
    | CommentList(comments: seq<Row<CommentFields>>)
    | UserData(user: map<string, Json>)
    | UserList(userList: seq<map<string, Json>>)
    | Session(user: map<string, Json>, token: string)
    | Home(latest: seq<Row<PostFields>>, hot: seq<Row<PostFields>>,
           hotCategoryList: seq<Ranked<CategoryFields>>, hotTagList: seq<Ranked<TagFields>>)
    /** None is the JSON null a nil slice marshals to when there are no published posts. */
    | Archive(items: Option<seq<ArchiveItem>>)

  /** The HTTP status, and the `code`, `message` and `data` members of the JSON body. */
  datatype Response = Response(status: nat, code: int, message: string, data: Payload)

  /** An error envelope whose `code` repeats the HTTP status. */
  function Fail(status: nat, message: string): (r: Response)
    ensures r.status == status && r.code == status && r.data == NoData
  {
    Response(status, status, message, NoData)
  }

  function Ok(message: string, data: Payload): (r: Response)
    ensures r.status == 200 && r.code == 200
  {
    Response(200, 200, message, data)
  }

  /** What a handler leaves behind: its response and the database after it. */
  datatype Outcome = Outcome(resp: Response, db: Db)
}
