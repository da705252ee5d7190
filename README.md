# A verified model of a blog's API and its client

The system is a blog whose server is written in Go on the Hertz web framework with GORM over
MySQL, and whose client is a React application talking to it through axios. This project models
in Dafny the parts of both that make decisions, and proves what those decisions guarantee.

The server side:

- **Records and the store** (`models.dfy`, `query.dfy`). The five records are users, categories,
  tags, posts and comments, plus the post–category and post–tag join tables.
  - Every table is a sequence of rows carrying GORM's primary key, timestamps and soft-delete time.
  - The unique indexes and the column defaults are invariants of the `Store` class.
  - WHERE, ORDER BY … DESC and LIMIT/OFFSET are a filter, a stable sort and a window over a table.
- **The handlers** (`post.dfy`, `post_management.dfy`, `category.dfy`, `tag.dfy`, `comment.dfy`,
  `comment_approval.dfy`, `auth.dfy`, `misc.dfy`).
  - Each handler is a function from the store and the request to the response and the new store.
  - Each also has a method that makes the same change on the `Store` object and is proved to
    agree with that function.
  - Database failures are a parameter: the set of queries that fail.
  - The file `backend/api/post_management.go` declares its own versions of handlers that also
    exist in the other files, and they behave differently. This model keeps them apart, each in
    the module named after its file.
  - As given, the Go package `api` does not compile. Twelve names are declared twice in it:
    CreateCategory, UpdateCategory, DeleteCategory, GetCategories and GetCategory
    (`category.go` and lines 516, 570, 655, 858 and 876 of `post_management.go`), the five Tag
    handlers of the same names (`tag.go` and lines 689, 742, 824, 895 and 913), and LikePost and SearchPosts (`post.go:131`,
    `post.go:200` and `post_management.go:370`, `post_management.go:442`).
  - Register, Login and Logout (`auth.go:27`, `auth.go:119`, `auth.go:180`) and the LikePost
    of `post_management.go:370` take only the request context. `routes.go:30-32` and
    `routes.go:52` nevertheless register them as two-argument Hertz handlers.
  - The route table (`Routes.Handler`) reads each name as the version in its resource's own
    file: Register, Login and Logout are `Auth`'s; GetPosts, SearchPosts, GetPost and LikePost
    are `Post`'s; CreatePost, UpdatePost and DeletePost are `PostManagement`'s; the category and
    tag names are `Category`'s and `Tag`'s. The other versions in `PostManagement` are modelled
    but reached by no route.
- **Paging** (`pagination.dfy`). This is the page, page-size and offset arithmetic, with Go's
  64-bit wrap-around and truncating division written out. The list handlers use the intended
  offset and page count; the two differ only on overflow, as the Findings show.
- **Access control** (`middleware.dfy`, `routes.dfy`).
  - `middleware.dfy` holds the JWTAuth and AdminAuth chains and the token claims.
  - `routes.dfy` holds the route table.
  - Together they decide which requests reach which handler.

The client side:

- **The gateway** (`gateway.dfy`). This is the axios instance with its two interceptors, the
  stored token, logout and the fixed method and path of every API helper.
- **The pages** (`login.dfy`, `post_list_page.dfy`, `post_detail_page.dfy`, `archive_page.dfy`,
  `popular_tags_categories.dfy`, `collection_pages.dfy`).
  - Each page is a class whose fields are its React state and the toasts it raises.
  - Each effect or handler is a method proved against a function of the old state and of how
    its requests settled.

Library code and the outside world are parameters:

- `slugify`, for slug.Make.
- `hash` and `check`, for bcrypt.
- `sign` and `verify`, for signing and parsing JWTs.
- `now` and `nowUnix`, for time.Now.
- `format`, for dayjs formatting.
- `server` on the client side: a function from the request that leaves the browser to what comes
  back.

Several lemmas link the two sides by applying the client's models to the server's answers. For
example, a token that a login stores authenticates the requests that follow.

Some things a reader might expect are not in the code, and the model does not add them:

- The client does not restore a session on startup.
- A like is not shown before the server answers, and nothing is rolled back.
- A list response that arrives late is not discarded.
- The gateway does not look at a body's `code`: axios resolves on any 2xx status.
- Success envelopes carry `code` 200, 201 or 0, depending on the handler.
- The route table has no route for the current user, for a post's comments or for deleting a
  comment. The model states that these requests find no route.

## Model

| member | source | states |
|---|---|---|
| Text.AtoiRoundTrip | backend/api/category.go:35 | `strconv.Atoi` reads back every 64-bit integer's decimal spelling |
| Text.ParseUintRoundTrip | backend/api/comment.go:42 | `strconv.ParseUint(s, 10, 64)` reads back every 64-bit unsigned integer's decimal spelling |
| Text.Utf8Len | backend/api/category.go:92-94 | the byte length `len($)` checks lies between the number of characters and four times that |
| Text.LikeIsSubstring | backend/api/post.go:160 | `LIKE '%q%'` with no wildcard in q matches exactly the strings that contain q, under a binary collation |
| Text.TrimEmptyIffBlank | frontend/src/pages/PostDetailPage.jsx:44 | `trim() === ''` holds exactly for the strings made only of whitespace |
| Query.TopK | backend/api/category.go:67-68 | `ORDER BY … DESC LIMIT n` keeps a top n: no row left out ranks above a row kept |
| Query.WhereCounts | backend/api/post.go:55 | a WHERE keeps every copy of a row that meets the condition and no copy of one that does not |
| Query.SortDescMembers | backend/api/category.go:67 | ordering the rows neither adds nor loses one |
| Models.LaterInstantNotEarlierMonth | backend/api/misc.go:94-96 | a valid date-time created no earlier than another falls in the same month or a later one |
| Models.YearMonthIdentifiesMonth | backend/api/misc.go:94 | two valid date-times format to the same `YYYY-MM` exactly when they fall in the same calendar month |
| Models.StampIsFourteenDigits | backend/api/post_management.go:70-72 | the timestamp suffix a taken post slug gets is always fourteen decimal digits |
| Models.UserDefaults | backend/models/models.go:20 | an inserted user whose role is empty gets role "user"; every other field is kept |
| Models.PostDefaults | backend/models/models.go:59 | an inserted post whose status is empty gets status "draft"; every other field is kept |
| Models.CommentDefaults | backend/models/models.go:83 | an inserted comment whose status is empty gets status "pending"; every other field is kept |
| Models.NewPost | backend/models/models.go:54-62 | a post literal that names only title, slug, content, excerpt, cover image, status and author starts with view and like counts of 0 |
| Models.LiveRows | backend/models/models.go:14 | an ordinary query sees exactly the rows that are not soft-deleted, every copy of each |
| Models.LiveWhereFacts | backend/api/post.go:32-48 | a condition over the live rows keeps exactly the live rows that meet it, every copy of each, so its length is the count `COUNT(*)` gives |
| Models.Lookup | backend/models/models.go:11-14 | `First(&row, id)` finds a row exactly when a live row has that primary key, and returns that row |
| Models.FirstBy | backend/models/models.go:15-16 | a live row of the table whose key equals the value and before which, in table order, no live row has that key; none exactly when no live row has that key |
| Models.Insert | backend/models/models.go:11-13 | an insert appends one row with the next id and both timestamps at the current time, and keeps every earlier row |
| Models.InsertKeepsDense | backend/models/models.go:11 | an insert keeps the primary keys consecutive from 1 |
| Models.InsertKeepsUnique | backend/models/models.go:15-16 | inserting a value whose key no row holds keeps a unique index unique |
| Models.SetKeepsUnique | backend/models/models.go:31-32 | rewriting one row with a key no other row holds keeps a unique index unique |
| Models.SoftDelete | backend/models/models.go:14 | a delete sets only the row's deleted_at; ids, fields and every other row stay |
| Models.Rewrite | backend/models/models.go:13 | an update changes only that row's fields and updated_at |
| Models.SameKeysAndFields | backend/models/models.go:11-16 | tables that agree on every row's id and fields satisfy the same key and index constraints |
| Models.RewriteKeepsUnique | backend/models/models.go:31-55 | an update whose key no other row holds keeps unique indexes unique and ids consecutive |
| Models.RewriteSameKey | backend/models/models.go:31-55 | an update that keeps a row's key keeps the index unique |
| Models.Unlinked | backend/models/models.go:34-45 | clearing an owner's association removes exactly the join rows that name it |
| Models.RankByLinks | backend/api/category.go:62-67 | each row paired with the number of join rows that name it, in table order |
| Models.HotListFacts | backend/api/category.go:62-69 | a hot list holds `limit` live rows, or all of them when there are fewer, with their true link counts, most linked first, and no live row left out has more links than one listed |
| Models.Db.RoleOf | backend/api/post_management.go:189-200 | the role stored on the live user with that id when there is one, and the empty role exactly when there is none |
| Models.Replies | backend/models/models.go:80-82 | the comments whose parent is the given comment, exactly |
| Models.Store.constructor | backend/models/models.go:9-84 | the store starts with every table empty |
| Models.UserJson | backend/models/models.go:10-22 | a user marshals to exactly the keys id, created_at, updated_at, username, email, nickname, avatar and role, with no password or deleted_at; id, username and role hold the row's own values |
| Models.UserJsonFields | backend/models/models.go:10-22 | the email, nickname, avatar, created_at and updated_at keys hold the row's own values, the timestamps in RFC 3339 form |
| Models.PublicUser | backend/api/auth.go:106-113 | the `user` object of a session holds exactly id, username, email, nickname and role |
| Models.PasswordNeverSerialised | backend/models/models.go:17 | changing only the password changes neither serialised form of a user |
| Models.Fail | backend/api/category.go:36-39 | an error envelope: the given status repeated as `code`, and no data |
| Models.Ok | backend/api/category.go:52-56 | a success envelope: status 200 with code 200 |
| Misc.Summary | backend/api/misc.go:118-123 | the summary keeps the post's id, title, slug and created_at, and leaves every other field at its zero value |
| Misc.SummaryCopiesOnlyFourFields | backend/api/misc.go:118-123 | two posts summarise alike exactly when they agree on id, title, slug and created_at |
| Misc.Summaries | backend/api/misc.go:112-125 | one summary per row, in row order |
| Misc.KeysOf | backend/api/misc.go:113-116 | the keys recorded are exactly the keys of the rows, each once |
| Misc.GroupSnoc | backend/api/misc.go:112-125 | one more row extends only its own key's group, and records its key only when the key is new |
| Misc.GroupArchive | backend/api/misc.go:108-134 | the two loops produce one item per key in first-occurrence order, each holding the summaries of that key's rows |
| Misc.GroupEmptyIffAbsent | backend/api/misc.go:113-124 | a key's group is empty exactly when no row carries the key |
| Misc.GroupsDistinctAndNonEmpty | backend/api/misc.go:113-134 | no two items share a key and no item is empty |
| Misc.GroupIsFilteredRows | backend/api/misc.go:124 | a group is the summaries of exactly the rows bearing its key, in their input order |
| Misc.SummariesAppend | backend/api/misc.go:112-125 | summarising concatenated rows concatenates their summaries |
| Misc.EveryRowInItsGroup | backend/api/misc.go:112-125 | every row's summary sits in the item whose key is the row's; any item holding that summary has a row with the item's key and the same summary |
| Misc.GroupMembersHaveItsKey | backend/api/misc.go:112-125 | a summary sits in an item only if some row bearing the item's key produced it |
| Misc.ArchivePostInOneItem | backend/api/misc.go:94-125 | in a database's archive, a post's summary is in an item exactly when the item's key is the post's month, so it is in one item and no other |
| Misc.OccursOnce | backend/api/misc.go:110-115 | in a list of distinct keys, a key occurs once or not at all |
| Misc.TotalSnoc | backend/api/misc.go:124 | one more row adds one post to the total exactly when its key is listed |
| Misc.TotalCountsRows | backend/api/misc.go:112-125 | over distinct keys covering every row, the groups hold as many posts as there are rows |
| Misc.TotalOfEmpty | backend/api/misc.go:109 | without rows every group is empty |
| Misc.SizeSumIsTotal | backend/api/misc.go:128-134 | the item sizes add up to the per-key totals |
| Misc.GroupSizesSumToRowCount | backend/api/misc.go:112-134 | the group sizes add up to the number of rows |
| Misc.FirstIndex | backend/api/misc.go:113-116 | the position where a key first occurs: no earlier row carries it |
| Misc.KeysInFirstOccurrenceOrder | backend/api/misc.go:110-129 | items come in the order in which their keys first occur in the rows |
| Misc.MonthsDescend | backend/api/misc.go:94-134 | rows newest first, keyed by their own month, give items whose months strictly descend |
| Misc.MemberHasKeyMonth | backend/api/misc.go:94-124 | every post in a key's group was created in that key's month |
| Misc.ArchiveRows | backend/api/misc.go:93-97 | each queried row carries the `YYYY-MM` of its post's creation time |
| Misc.ArchiveRowsFacts | backend/api/misc.go:93-97 | the query returns the live published posts, all of them and nothing else, newest first |
| Misc.ArchiveRowsSelected | backend/api/misc.go:95 | every queried row is a live published post |
| Misc.ArchiveRowsComplete | backend/api/misc.go:95 | every live published post is among the queried rows |
| Misc.ArchiveNewestMonthFirst | backend/api/misc.go:94-134 | with valid timestamps, the archive lists its months strictly newest first |
| Misc.ArchiveResponse | backend/api/misc.go:99-140 | a query error gives 500 with no data; otherwise 200 with the groups, which marshal to null exactly when no post is published |
| Misc.GetArchiveData | backend/api/misc.go:76-141 | the handler answers what the archive response specifies |
| Misc.GetHomePageData | backend/api/misc.go:13-73 | the first failing query decides the 500 message; otherwise 200 with the latest posts, the most viewed posts, the hot categories and the hot tags, as the top-five and hot-list lemmas describe them |
| Misc.HomeListsHoldFive | backend/api/misc.go:26-32 | the latest and hot lists each hold five live posts of the table, or all of them when there are fewer |
| Misc.HomeListsAreTopFive | backend/api/misc.go:26-32 | a live post left out of the latest list is not newer, and one left out of the hot list not more viewed, than any post listed |
| Pagination.Wrap64 | backend/api/post.go:58-75 | Go's int64 arithmetic: the result lies in the int64 range, is congruent to the exact value modulo 2^64, and equals it when it fits |
| Pagination.Quot | backend/api/post.go:75 | Go's division truncates toward zero: Euclidean division for a non-negative dividend, 0 for a small negative one |
| Pagination.AtLeastOne | backend/api/post.go:22-29 | Atoi's value when it parses and is at least 1, otherwise the fallback; always between 1 and 2^63 - 1 |
| Pagination.Page | backend/api/post.go:17-25 | the normalised page is at least 1 |
| Pagination.PageSize | backend/api/post.go:18-29 | the normalised page size is at least 1 |
| Pagination.AbsentPageDefaults | backend/api/post.go:17-18 | without the parameters, page 1 and page size 10 |
| Pagination.PageParses | backend/api/post.go:22-29 | an unparsable value becomes 1 or 10, a positive one is kept, a value below 1 becomes 1 or 10 |
| Pagination.OffsetAsWritten | backend/api/post.go:58-61 | the written offset: 64-bit product of (page - 1) and page size, clamped at zero |
| Pagination.Offset | backend/api/post.go:58-61 | the intended offset: 0 on the first page, and the rows of all earlier pages |
| Pagination.OffsetAgrees | backend/api/post.go:58-61 | where the product fits in 64 bits the written offset is the intended one |
| Pagination.OffsetWrapsAround | backend/api/post.go:58-61 | page 2^62 + 1 of size 4 wraps to offset 0 instead of 2^64 |
| Pagination.TotalPage | backend/api/post.go:73-76 | the intended page count is the ceiling of total / page size: 0 exactly for no rows, and enough pages with none to spare |
| Pagination.TotalPageIsLeast | backend/api/post.go:73-76 | no smaller page count covers every row |
| Pagination.TotalPageAgrees | backend/api/post.go:73-76 | where the sum fits in 64 bits the written count is the ceiling |
| Pagination.TotalPageOverflows | backend/api/post.go:18-76 | `page_size=9223372036854775807` with 5 rows gives a page count of 0 instead of 1 |
| Post.IdFilter | backend/api/post.go:35-48 | a filter value applies exactly when it parses as an integer, and then with that integer |
| Post.Filtered | backend/api/post.go:32-48 | exactly the live posts linked to the category and to the tag that apply, each as often as in the table; both filters combine with AND |
| Post.ListPage | backend/api/post.go:55-89 | the page is the window of the newest-first order that starts after the earlier pages: it is page-size long while rows remain for it, shorter on the last page, and empty beyond it. The row count is the number of rows, and the page count is the ceiling |
| Post.PagesAreConsecutive | backend/api/post.go:58-62 | a full page k is followed by page k + 1 continuing the same newest-first order |
| Post.GetPosts | backend/api/post.go:15-90 | a failed count or list query gives 500, the count's error failing the Find on the shared GORM handle, and only those do; otherwise 200 with the requested page of the filtered posts, their count and the page count |
| Post.GetPostSpec | backend/api/post.go:93-128 | 404 exactly when the id does not name a live post; otherwise 200 with the post, its view count raised by one unless the increment fails, which is only logged |
| Post.GetPost | backend/api/post.go:93-128 | the handler answers and updates the store as the specification says |
| Post.LowerAppend | backend/api/post.go:160 | lower-casing distributes over concatenation |
| Post.LowerIdempotent | backend/api/post.go:160 | lower-casing twice is lower-casing once |
| Post.SearchIsCaseInsensitiveSubstring | backend/api/post.go:159-160 | a term without wildcards matches exactly when, ignoring case, it is a substring of the title or the content |
| Post.SearchRows | backend/api/post.go:156-160 | exactly the live posts the search matches, each as often as in the table |
| Post.SearchPosts | backend/api/post.go:131-197 | an empty `q` gives 400 before any query; a failed count or list query 500, and only those; otherwise 200 with the requested page of the matching posts, their count and the page count |
| Post.LikePostSpec | backend/api/post.go:200-251 | a non-numeric id gives 400, a missing post 404, a failed query or increment 500; otherwise the like count rises by one and the answer is the stored count plus one |
| Post.LikePost | backend/api/post.go:200-251 | the handler answers and updates the store as the specification says |
| PostManagement.Loaded | backend/api/post_management.go:178-187 | `First(&row, id)` finds a row exactly when the query runs, the id parses and names a live row, and then it is that row |
| PostManagement.GivenSlug | backend/api/post_management.go:62-66 | the request's slug when it has one, otherwise the slug of the title or name |
| PostManagement.Found | backend/api/post_management.go:103-104 | the `id IN ?` lookup returns exactly the requested ids of live rows |
| PostManagement.Replaced | backend/api/post_management.go:112 | replacing an association makes the post's links exactly the found rows and keeps every other post's links |
| PostManagement.Associate | backend/api/post_management.go:101-145 | the transaction rolls back exactly when a find or replace step of a non-empty id list fails, with that step's message; a commit changes only the link tables, and an empty list leaves its links alone |
| PostManagement.ReplaceLinks | backend/api/post_management.go:101-145 | the step-by-step association code computes what Associate says |
| PostManagement.AssociateLinks | backend/api/post_management.go:101-145 | after a commit the post is linked to category c exactly when c was requested and is live; an empty list keeps the old links |
| PostManagement.MissingIdsClearLinks | backend/api/post_management.go:102-112 | a list that names only missing categories still replaces, leaving the post with no category links |
| PostManagement.CreateSlugShape | backend/api/post_management.go:62-74 | the created slug extends the requested one; it is unchanged when no live post holds it, and otherwise gains a dash and fourteen digits |
| PostManagement.NewPostOf | backend/api/post_management.go:77-85 | the new post carries the request's fields, the derived slug, the author, zero counters and the default status for an empty one |
| PostManagement.CreatePostSpec | backend/api/post_management.go:40-159 | 401 without a user, 400 for a bad body, 500 when the insert or a link step fails (nothing changes), and otherwise 200 with the inserted post and its links committed |
| PostManagement.CreatedPostFacts | backend/api/post_management.go:77-159 | a created post gets the next id, the author, zero counters, and a slug no live post held |
| PostManagement.DeriveSlug | backend/api/post_management.go:62-74 | the step-by-step slug code computes CreateSlug |
| PostManagement.CreatePost | backend/api/post_management.go:40-159 | the handler answers and updates the store as CreatePostSpec says |
| PostManagement.Merge | backend/api/post_management.go:214-235 | each text field takes the request's value exactly when it is non-empty; the slug is the request's or the slug of the merged title; counters and author stay |
| PostManagement.MergeIdempotent | backend/api/post_management.go:214-235 | merging a request twice is merging it once |
| PostManagement.EmptyRequestResetsSlug | backend/api/post_management.go:231-235 | an all-empty update changes only the slug, re-derived from the title |
| PostManagement.UpdatePostSpec | backend/api/post_management.go:162-309 | 401, 404, 403 when neither the author nor an admin, 400 for a bad body; 500 exactly when, past those checks, the write fails, the merged slug clashes or a link step rolls back; otherwise 200 with the merged post written and its links committed |
| PostManagement.UpdateLoadedSpec | backend/api/post_management.go:214-309 | the transaction answers 200 or 500, 500 exactly when the write fails, the merged slug clashes or a link step rolls back, with nothing written; on 200 the merged post is returned and the links committed |
| PostManagement.MergeRequest | backend/api/post_management.go:214-235 | the field-by-field assignments compute Merge |
| PostManagement.UpdatePost | backend/api/post_management.go:162-309 | the handler answers and updates the store as UpdatePostSpec says |
| PostManagement.DeletePostSpec | backend/api/post_management.go:312-367 | 401, 404, 403 as for update, 500 exactly when the delete fails; otherwise the post is soft-deleted and its links stay |
| PostManagement.DeletePost | backend/api/post_management.go:312-367 | the handler answers and updates the store as DeletePostSpec says |
| PostManagement.DeletedPostIsGone | backend/api/post_management.go:353 | after a successful delete every later lookup of that id fails |
| PostManagement.LikePostSpec | backend/api/post_management.go:370-413 | 401 without a user, 404 for any failed lookup, 500 exactly when the save fails; otherwise the like count rises by one and is reported |
| PostManagement.LikePost | backend/api/post_management.go:370-413 | the handler answers and updates the store as LikePostSpec says |
| PostManagement.LikesAccumulate | backend/api/post_management.go:395-398 | two successful likes raise the stored count by exactly two |
| PostManagement.KeywordIsSubstring | backend/api/post_management.go:471-474 | a keyword without wildcards matches exactly when it is a substring of the title, content or excerpt, with characters compared as the model's binary collation compares them |
| PostManagement.KeywordRows | backend/api/post_management.go:470-475 | exactly the live posts the keyword matches, each as often as in the table |
| PostManagement.SearchPosts | backend/api/post_management.go:442-513 | an empty keyword gives 400, a failed count or list query 500 (the unchecked count's error fails the Find), and only those; otherwise 200 with the requested page of the matching posts, their count, the page count and the keyword echoed |
| PostManagement.UpdatedSlug | backend/api/post_management.go:605-634 | an explicit slug wins, else a new name brings its slug, else the slug stays |
| PostManagement.UncheckedSlugUnchanged | backend/api/post_management.go:605-634 | the uniqueness check is skipped only when the slug does not change |
| PostManagement.CreateCategorySpec | backend/api/post_management.go:516-567 | 400 for a bad body or a slug held by a live category, 500 when the insert fails, and otherwise 200 with the new row inserted |
| PostManagement.CreateCategory | backend/api/post_management.go:516-567 | the handler answers and updates the store as CreateCategorySpec says |
| PostManagement.MergeCategory | backend/api/post_management.go:597-634 | name and description take non-empty request values; the slug follows UpdatedSlug |
| PostManagement.UpdateCategoryCases | backend/api/post_management.go:570-652 | 400 for a bad body, 404 for a failed lookup, 400 with the right message when the checked slug is held, 500 for a failed write, and otherwise the merged row written |
| PostManagement.MergeCategoryRequest | backend/api/post_management.go:597-634 | the step-by-step code computes MergeCategory and refuses exactly when the checked slug is held elsewhere |
| PostManagement.UpdateCategory | backend/api/post_management.go:570-652 | the handler answers and updates the store as UpdateCategorySpec says |
| PostManagement.CategorySlugRules | backend/api/post_management.go:605-634 | an explicit slug is refused exactly when another live category holds it; an update without name or slug keeps the slug |
| PostManagement.DeleteCategorySpec | backend/api/post_management.go:655-686 | 404 for a failed lookup, 500 for a failed delete, otherwise a soft delete that keeps the post links |
| PostManagement.DeleteCategory | backend/api/post_management.go:655-686 | the handler answers and updates the store as DeleteCategorySpec says |
| PostManagement.DeleteCategoryVariants | backend/api/post_management.go:655-686 | both DeleteCategory handlers soft-delete the same row; only the one in backend/api/category.go unlinks posts |
| PostManagement.GetCategory | backend/api/post_management.go:876-892 | 404 exactly when the lookup fails, else 200 with the row |
| PostManagement.GetCategoryVariants | backend/api/post_management.go:876-892 | agrees with the backend/api/category.go handler on a numeric id when the query runs, and answers 404 where that one answers 400 or 500 |
| PostManagement.CreateTagSpec | backend/api/post_management.go:689-739 | 400 for a bad body or a slug held by a live tag, 500 when the insert fails, and otherwise 200 with the new row inserted |
| PostManagement.CreateTag | backend/api/post_management.go:689-739 | the handler answers and updates the store as CreateTagSpec says |
| PostManagement.MergeTag | backend/api/post_management.go:769-803 | the name takes a non-empty request value; the slug follows UpdatedSlug |
| PostManagement.UpdateTagCases | backend/api/post_management.go:742-821 | 400 for a bad body, 404 for a failed lookup, 400 with the right message when the checked slug is held, 500 for a failed write, and otherwise the merged row written |
| PostManagement.MergeTagRequest | backend/api/post_management.go:769-803 | the step-by-step code computes MergeTag and refuses exactly when the checked slug is held elsewhere |
| PostManagement.UpdateTag | backend/api/post_management.go:742-821 | the handler answers and updates the store as UpdateTagSpec says |
| PostManagement.DeleteTagSpec | backend/api/post_management.go:824-855 | 404 for a failed lookup, 500 for a failed delete, otherwise a soft delete that keeps the post links |
| PostManagement.DeleteTag | backend/api/post_management.go:824-855 | the handler answers and updates the store as DeleteTagSpec says |
| PostManagement.GetTag | backend/api/post_management.go:913-929 | 404 exactly when the lookup fails, else 200 with the row |
| PostManagement.GetUsers | backend/api/post_management.go:932-947 | 500 when the query fails, else every live user in order, serialised without the password |
| PostManagement.GetUser | backend/api/post_management.go:950-966 | 404 exactly when the lookup fails, else the user serialised without the password |
| PostManagement.UpdateUser | backend/api/post_management.go:969-975 | 200 and nothing changes |
| PostManagement.DeleteUser | backend/api/post_management.go:978-984 | 200 and nothing changes |
| Category.CreateRulesImplyUpdateRules | backend/api/category.go:92-94 | a body the create rules accept also passes the update rules, and has a non-empty name and slug |
| Category.GetCategories | backend/api/category.go:15-30 | 500 when the query fails, otherwise 200 with exactly the live categories |
| Category.GetCategory | backend/api/category.go:33-51 | 400 for a non-numeric id, 500 for a failed query, 404 exactly when no live row has the id, otherwise 200 with that row |
| Category.GetHotCategories | backend/api/category.go:54-85 | 500 when the query fails; otherwise the hot list of five: five live categories, or all of them when there are fewer, each with its link count |
| Category.CreateCategorySpec | backend/api/category.go:90-115 | 400 exactly when the body fails to bind or breaks the length rules, 500 exactly when the insert fails or hits a unique index, otherwise 201 with the new row inserted |
| Category.CreateCategory | backend/api/category.go:90-115 | the handler answers and updates the store as CreateCategorySpec says |
| Category.Updates | backend/api/category.go:147-156 | the updates map holds exactly the request's non-empty fields |
| Category.Apply | backend/api/category.go:159 | applying the map sets exactly the listed columns |
| Category.EmptyUpdatesChangeNothing | backend/api/category.go:147-158 | the map is empty exactly when every field is empty, and then the row is unchanged |
| Category.UpdateCategorySpec | backend/api/category.go:118-166 | 400 for a bad id or body, 404 exactly when no live row has the id; 500 exactly when the lookup fails, or a non-empty update's write fails or clashes with a unique name or slug; no write for an empty map, otherwise the listed columns rewritten and the updated row returned |
| Category.UpdateCategory | backend/api/category.go:118-166 | the handler answers and updates the store as UpdateCategorySpec says |
| Category.DeleteCategorySpec | backend/api/category.go:169-207 | 400, 404 and 500 as for the lookup; otherwise one transaction soft-deletes the row and removes its post links, and a failed step changes nothing |
| Category.DeleteCategory | backend/api/category.go:169-207 | the handler answers and updates the store as DeleteCategorySpec says |
| Tag.GetTags | backend/api/tag.go:15-30 | 500 when the query fails, otherwise 200 with exactly the live tags |
| Tag.GetTag | backend/api/tag.go:33-51 | 400 for a non-numeric id, 500 for a failed query, 404 exactly when no live row has the id, otherwise 200 with that row |
| Tag.GetHotTags | backend/api/tag.go:54-84 | 500 when the query fails; otherwise the hot list of ten: ten live tags, or all of them when there are fewer, each with its link count |
| Tag.CreateTagSpec | backend/api/tag.go:89-111 | 400 exactly when the body fails to bind or breaks the length rules, 500 exactly when the insert fails or hits a unique index, otherwise 201 with the new row inserted |
| Tag.CreateTag | backend/api/tag.go:89-111 | the handler answers and updates the store as CreateTagSpec says |
| Tag.Updates | backend/api/tag.go:142-148 | the updates map holds exactly the request's non-empty fields |
| Tag.Apply | backend/api/tag.go:151 | applying the map sets exactly the listed columns |
| Tag.EmptyUpdatesChangeNothing | backend/api/tag.go:142-155 | the map is empty exactly when every field is empty, and then the row is unchanged |
| Tag.UpdateTagSpec | backend/api/tag.go:114-158 | 400 for a bad id or body, 404 exactly when no live row has the id; 500 exactly when the lookup fails, or a non-empty update's write fails or clashes with a unique name or slug; no write for an empty map, otherwise the listed columns rewritten and the updated row returned |
| Tag.UpdateTag | backend/api/tag.go:114-158 | the handler answers and updates the store as UpdateTagSpec says |
| Tag.DeleteTagSpec | backend/api/tag.go:161-197 | 400, 404 and 500 as for the lookup; otherwise one transaction soft-deletes the row and removes its post links, and a failed step changes nothing |
| Tag.DeleteTag | backend/api/tag.go:161-197 | the handler answers and updates the store as DeleteTagSpec says |
| Auth.NewUser | backend/api/auth.go:71-77 | the new user carries the request's username, email and nickname, the hashed password, role "user" and no avatar |
| Auth.RegisterSpec | backend/api/auth.go:27-116 | 400 for a bad body, a username in use or an email in use (checked in that order, nothing written); the store changes exactly when every check passes, the hash succeeds, the write succeeds and no unique index clashes, and then holds exactly the new user; after the insert the answer is 200 exactly when a token is signed; 200 carries the public fields of the inserted row and its token; a token failure leaves the user inserted |
| Auth.Register | backend/api/auth.go:27-116 | the handler answers and updates the store as RegisterSpec says |
| Auth.Login | backend/api/auth.go:119-177 | 400 for a bad body; 401 with one message exactly when the lookup fails, the username is unknown or the password does not match; past the 401 cases the answer is 200 exactly when a token is signed for the found user, else 500; 200 carries the found user's public fields and that token |
| Auth.Logout | backend/api/auth.go:180-186 | 200 and nothing changes |
| Auth.SessionIsPublic | backend/api/auth.go:105-114 | the register answer holds exactly id, username, email, nickname and role, with role "user" and no password |
| Auth.RegisterThenLogin | backend/api/auth.go:27-177 | after registering, logging in with the same password gives 401 exactly when bcrypt rejects it against the stored hash and 200 exactly when it accepts and signing succeeds |
| Middleware.UintOf | backend/middleware/auth.go:79 | `uint(f)` truncates a claim in range toward zero; out of range it gives 0 |
| Middleware.TokenOf | backend/middleware/auth.go:33 | one leading "Bearer " is removed; any other header is the token itself |
| Middleware.BearerStrippedOnce | backend/middleware/auth.go:33 | "Bearer t" yields t, and a doubled prefix is removed only once |
| Middleware.JWTAuth | backend/middleware/auth.go:18-99 | an empty header gives 401; the chain goes on exactly when the token parses, is valid, carries a numeric user id and that id names a live user, and then the context holds that user and id; every abort is a 401 |
| Middleware.AdminAuth | backend/middleware/auth.go:124-163 | 401 without a user, 500 for a value of the wrong type, 403 for a non-admin, and the chain goes on exactly for a stored admin user |
| Middleware.TokenClaims | backend/middleware/auth.go:104-109 | the claims carry the user's id, username and role and expire seven days after issue |
| Middleware.GenerateToken | backend/middleware/auth.go:102-121 | the token is the HS256 signature of those claims, or the signing error |
| Middleware.IssuedTokenAuthenticates | backend/middleware/auth.go:18-121 | a token issued for a live user and sent as "Bearer <token>" passes JWTAuth and stores that user |
| Middleware.AdminChain | backend/middleware/auth.go:18-163 | JWTAuth then AdminAuth lets a request through exactly when the token names a live user whose role is admin |
| Comment.ApprovedComments | backend/api/comment.go:20 | exactly the post's live comments whose status is approved or null, newest first |
| Comment.GetPostComments | backend/api/comment.go:14-36 | 500 when the query fails, otherwise 200 with the approved comments |
| Comment.ListedIffApproved | backend/api/comment.go:18-20 | a live comment of the post is listed exactly when its status is approved |
| Comment.RoleFor | backend/api/comment.go:86-88 | the role the users table records, or the empty role when the lookup fails |
| Comment.NewComment | backend/api/comment.go:90-103 | the comment carries the request's content and parent, the post and the user, and is approved exactly for an admin, pending otherwise |
| Comment.AddedMessage | backend/api/comment.go:119-123 | an admin is told the comment is published, anyone else that it awaits review |
| Comment.AddCommentSpec | backend/api/comment.go:39-129 | 400 exactly for a bad post id, a bad body or empty content; 401 without a user; 500 exactly when, past those checks, the insert fails or a key names no row; otherwise the new comment inserted and returned with the role's message |
| Comment.WhitespaceContentAccepted | backend/api/comment.go:77-78 | content of spaces alone passes the emptiness check |
| Comment.AddedCommentStatus | backend/api/comment.go:98-123 | an added comment is approved exactly when its author is an admin, keeps the requested parent, and comes with the message for that role |
| Comment.AddComment | backend/api/comment.go:39-129 | the handler answers and updates the store as AddCommentSpec says |
| Comment.DeleteCommentSpec | backend/api/comment.go:132-197 | 400 for a bad id, 401 without a user, 404 for a failed lookup, 403 exactly when the user is neither the author nor an admin, 500 exactly when an allowed delete's write fails; on 200 the comment is soft-deleted and nothing else changes |
| Comment.DeleteComment | backend/api/comment.go:132-197 | the handler answers and updates the store as DeleteCommentSpec says |
| Comment.OnlyAuthorOrAdminDeletes | backend/api/comment.go:167-179 | a successful delete was made by the comment's author or by an admin |
| CommentApproval.PendingComments | backend/api/comment_approval.go:16 | exactly the live comments whose status is pending, in table order |
| CommentApproval.GetPendingComments | backend/api/comment_approval.go:14-30 | 500 when the query fails, otherwise HTTP 200 with code 0 and the pending comments |
| CommentApproval.Approved | backend/api/comment_approval.go:57 | the approved row has status approved and a new update time, and every other field as before |
| CommentApproval.ApproveCommentSpec | backend/api/comment_approval.go:33-71 | 400 for a bad id, 404 exactly for a failed lookup, 500 exactly for a failed update; otherwise code 0 with the approved row, which replaces the old one |
| CommentApproval.ApproveComment | backend/api/comment_approval.go:33-71 | the handler answers and updates the store as ApproveCommentSpec says |
| CommentApproval.ApproveIdempotent | backend/api/comment_approval.go:57 | approving a comment a second time at the same instant changes nothing (a later one refreshes `updated_at`) |
| CommentApproval.ApprovalPublishes | backend/api/comment_approval.go:33-71 | approving a live pending comment takes it off the queue, lists it on its post, and touches no other comment |
| Routes.WordOf | backend/routes/routes.go:26-110 | a segment is read as a word of the table only when it is spelled exactly as that word |
| Routes.SpellingRoundTrip | backend/routes/routes.go:26-110 | every word of the table is read back from its own spelling |
| Routes.Scan | backend/routes/routes.go:26-110 | a request segment is a known word spelled as such, or other text, and empty exactly when blank |
| Routes.Tokens | backend/routes/routes.go:11-23 | a path is read segment by segment, keeping its length |
| Routes.PrecedesTotal | backend/routes/routes.go:49-51 | of any two patterns one is preferred, so the router's choice is defined |
| Routes.PrecedesTransitive | backend/routes/routes.go:49-51 | the router's preference is transitive on patterns of one length |
| Routes.Pick | backend/routes/routes.go:11-110 | the chosen route serves the request and is preferred over every other serving route; None only when no route serves it |
| Routes.Resolve | backend/routes/routes.go:11-110 | the same for the whole table: None, the router's 404, exactly when no route serves the request |
| Routes.RunChain | backend/routes/routes.go:52-55 | an empty chain lets the request through unchanged, and a guard that aborts ends the chain |
| Routes.AccessOf | backend/routes/routes.go:11-110 | no route exactly when Resolve finds none; an admitted request goes to the resolved route's handler |
| Routes.AllUnderApi | backend/routes/routes.go:13 | every route sits under "/api" |
| Routes.GuardsByHandler | backend/routes/routes.go:46-104 | every content write runs JWTAuth then AdminAuth, liking and commenting run JWTAuth alone, and every GET and auth route runs no middleware |
| Routes.NoneServes | backend/routes/routes.go:16-22 | a request none of the six register functions serves has no route |
| Routes.OnlyServer | backend/routes/routes.go:16-22 | a request served by exactly one registered route is routed to it |
| Routes.UnroutedHandlers | backend/routes/routes.go:35-43 | the user handlers, comment listing and deletion and the pending queue are reached by no route |
| Routes.NoCurrentUserRoute | frontend/src/api/index.js:43 | the client's `GET /auth/user` finds no route |
| Routes.NoCommentListRoute | frontend/src/api/index.js:68 | the client's `GET /posts/:id/comments` finds no route |
| Routes.NoCommentDeleteRoute | frontend/src/api/index.js:69 | the client's `DELETE /comments/:id` finds no route |
| Routes.IdsMatchLiterals | backend/routes/routes.go:50-51 | the `:id` routes also match "search" and "hot" |
| Routes.LiteralsBeforeIds | backend/routes/routes.go:50-51 | yet "/posts/search", "/categories/hot" and "/tags/hot" reach their own handlers |
| Routes.Fill | backend/routes/routes.go:11-110 | the request a pattern stands for has the pattern's length, its literals and a plain id for each parameter |
| Routes.MatchesFill | backend/routes/routes.go:11-110 | only generalisations of a pattern match the request it stands for |
| Routes.PrecedesGeneralised | backend/routes/routes.go:11-110 | of a pattern and a generalisation of it, only the pattern itself comes first |
| Routes.RouteWins | backend/routes/routes.go:11-110 | a route is chosen for the request it stands for unless another route has its method and pattern |
| Routes.TableDistinct | backend/routes/routes.go:16-22 | no two registrations share a method and a pattern |
| Routes.Reachable | backend/routes/routes.go:11-110 | every registered route is reached by the request it stands for |
| Routes.Reached | backend/routes/routes.go:11-110 | a request that spells a route's pattern, with that route's method, reaches that route |
| Routes.AdminChainFacts | backend/routes/routes.go:55 | the admin chain lets a request through only with a live admin user in the context |
| Routes.LoginChainFacts | backend/routes/routes.go:52 | the login chain is JWTAuth alone |
| Routes.AdmittedManagerIsAdmin | backend/routes/routes.go:55-58 | an admitted request to a content-writing handler carries a live admin user |
| Routes.PublicAdmitsAll | backend/routes/routes.go:49-51 | a public route admits every request with an empty context |
| Routes.LoginRoutesNeedUser | backend/routes/routes.go:52 | liking and commenting are admitted exactly when JWTAuth lets the token through |
| Routes.RoutedEditorMayEdit | backend/routes/routes.go:55-58 | through the routes, the author-or-admin check of UpdatePost and DeletePost never refuses |
| Gateway.Failure.Message | frontend/src/pages/Login.jsx:31 | `error.response?.data?.message`: the answer's message when the error has an answer, otherwise `undefined` |
| Gateway.Endpoint | frontend/src/api/index.js:40-96 | every helper's request lies under "/api", a GET has no body, and each helper has its fixed method, path, parameters and body |
| Gateway.Authorize | frontend/src/api/index.js:13-18 | a non-empty stored token adds "Bearer <token>" as the Authorization header; a missing or empty one leaves the headers alone |
| Gateway.AttachedTokenReadBack | frontend/src/api/index.js:15-17 | the token the interceptor attaches is exactly the one JWTAuth reads back after stripping "Bearer " |
| Gateway.NoTokenNoHeader | frontend/src/api/index.js:16 | without a token the server sees no Authorization header |
| Gateway.Interpret | frontend/src/api/index.js:27-36 | the promise resolves exactly for a 2xx answer, with the body alone; anything else rejects with the answer, if any |
| Gateway.Issue | frontend/src/api/index.js:13-24 | the request a helper sends carries the helper's method, path, parameters and body with the stored token attached |
| Gateway.Browser.Outgoing | frontend/src/api/index.js:13-24 | the request a helper sends from this browser is Issue with its stored token |
| Gateway.Browser.Settle | frontend/src/api/index.js:27-36 | a 401 removes the token and goes to "/login" before rejecting; anything else leaves the browser alone |
| Gateway.Browser.Send | frontend/src/api/index.js:4-37 | one helper call sends exactly one request, and the browser changes only as Settle says |
| Gateway.Browser.Logout | frontend/src/api/index.js:44-56 | the token is removed whether the call resolves or rejects, and the promise settles as the call did |
| Gateway.Envelope | backend/api/tag.go:79-83 | a body holds the response's code and message, and `data` exactly when it is given, with the given value |
| Gateway.EnvelopeJson | backend/api/auth.go:102-115 | the serialised body carries code and message, and data exactly when the response has some |
| Gateway.Deliver | backend/api/auth.go:102-115 | a server response reaches the browser with its status and serialised body |
| Gateway.DecimalIdIsPlain | backend/routes/routes.go:51 | every decimal id reaches a `:id` route as a parameter, never as one of the route words |
| Gateway.Served | frontend/src/api/index.js:40-96 | every helper has a server handler of the same name except the current-user, comment-list and comment-delete helpers |
| Gateway.RouteOf | frontend/src/api/index.js:40-96 | a helper has a route exactly when it has a handler |
| Gateway.AuthWritten | frontend/src/api/index.js:41-46 | the auth helpers' requests spell their routes and reach their handlers |
| Gateway.AuthPathSpelled | frontend/src/api/index.js:41-46 | each auth helper's path spells `/api/auth/` and its route's last word |
| Gateway.PostReadsWritten | frontend/src/api/index.js:61-62 | the post reading helpers spell their routes and reach their handlers |
| Gateway.PostWritesWritten | frontend/src/api/index.js:63-65 | the post writing helpers spell their routes and reach their handlers |
| Gateway.CategoryListsWritten | frontend/src/api/index.js:74-75 | the category list helpers spell their routes and reach their handlers |
| Gateway.CategoryItemWritten | frontend/src/api/index.js:76 | getCategoryById spells its route and reaches GetCategory |
| Gateway.CategorySavesWritten | frontend/src/api/index.js:77-79 | the category writing helpers spell their routes and reach their handlers |
| Gateway.TagListsWritten | frontend/src/api/index.js:84-85 | the tag list helpers spell their routes and reach their handlers |
| Gateway.TagItemWritten | frontend/src/api/index.js:86 | getTagById spells its route and reaches GetTag |
| Gateway.TagSavesWritten | frontend/src/api/index.js:87-89 | the tag writing helpers spell their routes and reach their handlers |
| Gateway.CommentWritten | frontend/src/api/index.js:67 | addComment spells the comment route and reaches AddComment |
| Gateway.MiscWritten | frontend/src/api/index.js:94-95 | the home and archive helpers spell their routes and reach their handlers |
| Gateway.EndpointsReachHandlers | frontend/src/api/index.js:40-96 | every helper with a handler reaches that handler through the router, and the three without one get the router's 404 |
| Login.LoginEffect | frontend/src/pages/Login.jsx:16-35 | a token is stored, the session dispatched, a success toast shown and the browser sent home exactly when the answer resolves with code 200 and readable data; a rejection shows the server's message, another code the body's message, a thrown TypeError the fallback text |
| Login.LoginPage.constructor | frontend/src/pages/Login.jsx:14 | the page starts not loading, with no toast and no session |
| Login.LoginPage.OnFinish | frontend/src/pages/Login.jsx:16-35 | one login call; loading ends false; exactly one toast is added; the session, the stored token and the location change as LoginEffect says, on top of what the response interceptor does on a 401 |
| Login.LoginStoresIssuedToken | backend/api/auth.go:162-176 | a successful server login makes the page store exactly the issued token with the public user fields beside it |
| Login.BadCredentialsDropToken | backend/api/auth.go:132-149 | wrong credentials reach the page as a 401: the stored token is dropped, nothing new is stored, and the toast shows the server's message |
| Login.StoredTokenAuthenticates | frontend/src/pages/Login.jsx:21-23 | the stored token, sent back by the request interceptor, lets the logged-in user through JWTAuth |
| PostListPage.Page.constructor | frontend/src/pages/PostListPage.jsx:10-17 | the page starts not loading, with no posts, no search text, page 1 of size 10 and total 0 |
| PostListPage.Page.HandleSearch | frontend/src/pages/PostListPage.jsx:80-83 | the search text is set and the pager goes back to page 1; the effect reruns exactly when a dependency changed |
| PostListPage.Page.HandlePageChange | frontend/src/pages/PostListPage.jsx:85-87 | the page and page size are set; the effect reruns exactly when a dependency changed |
| PostListPage.Page.FetchPosts | frontend/src/pages/PostListPage.jsx:52-53 | the effect sets loading and nothing else |
| PostListPage.Page.TimerFired | frontend/src/pages/PostListPage.jsx:63-70 | the timer shows the fixed list, sets the total to its length and ends loading |
| PostListPage.InitialState | frontend/src/pages/PostListPage.jsx:10-17 | the first render watches page 1, size 10 and an empty search |
| PostListPage.SearchResetsPage | frontend/src/pages/PostListPage.jsx:80-83 | a search keeps page size, total and posts, and reloads exactly when the text changes or the pager was not on page 1 |
| PostListPage.PageChangeKeepsSearch | frontend/src/pages/PostListPage.jsx:85-87 | a page change keeps the search text, total and posts, and reloads exactly when page or size differ |
| PostListPage.LoadSettles | frontend/src/pages/PostListPage.jsx:50-78 | a load shows the three fixed posts with total 3, ends not loading, and never sets off another load |
| PostListPage.LoadIgnoresDeps | frontend/src/pages/PostListPage.jsx:55-64 | what a load shows does not depend on the page or the search text |
| PostDetailPage.ScreenOf | frontend/src/pages/PostDetailPage.jsx:68-87 | the spinner exactly while loading, the not-found notice exactly when not loading without a truthy post, otherwise the article with the post and its comments |
| PostDetailPage.Spread | frontend/src/pages/PostDetailPage.jsx:54 | `[...v]` gives an array's items or a string's characters, and throws for anything else |
| PostDetailPage.Fetched | frontend/src/pages/PostDetailPage.jsx:20-37 | after the fetch loading is over; a confirmed answer shows its post and comments; an unconfirmed one adds the failure toast, and a rejection or a nullish body the retry toast |
| PostDetailPage.Submitted | frontend/src/pages/PostDetailPage.jsx:49-65 | exactly one toast is added and submitting ends; a confirmed answer appends its data to the comments; otherwise they stay, with the server's message or the retry toast |
| PostDetailPage.Page.constructor | frontend/src/pages/PostDetailPage.jsx:11-15 | the page starts loading, without a post, with no comments and not submitting |
| PostDetailPage.Page.FetchPostDetail | frontend/src/pages/PostDetailPage.jsx:18-40 | one getPostById call; the page becomes Fetched of how it settled, and the browser changes only as the response interceptor says |
| PostDetailPage.Page.HandleSubmitComment | frontend/src/pages/PostDetailPage.jsx:43-66 | empty or blank content adds a warning and sends nothing; otherwise one addComment call and the page becomes Submitted of how it settled |
| PostDetailPage.WhitespaceIsEmpty | frontend/src/pages/PostDetailPage.jsx:44 | content is refused on the client exactly when it is blank after trimming |
| PostDetailPage.FailedFetchShowsNotFound | frontend/src/pages/PostDetailPage.jsx:25-36 | a fetch whose answer is not confirmed leaves the page on the not-found notice |
| PostDetailPage.ConfirmedFetchShowsPost | frontend/src/pages/PostDetailPage.jsx:25-27 | a confirmed fetch shows the post it got, with its comments or an empty list |
| PostDetailPage.SubmitAppendsToList | frontend/src/pages/PostDetailPage.jsx:52-55 | a confirmed comment on a list grows it by one at the end and keeps every earlier comment |
| PostDetailPage.TwoCommentsInOrder | frontend/src/pages/PostDetailPage.jsx:27-54 | after a fetch without comments, two confirmed comments show exactly those two, in order |
| ArchivePage.SpreadFields | frontend/src/pages/ArchivePage.jsx:31 | `{...post}` copies an object's fields, an array's items and a string's characters under their indices, and nothing for anything else |
| ArchivePage.Copy | frontend/src/pages/ArchivePage.jsx:30-34 | copying a post throws exactly for a nullish post, and the copy carries the post's `created_at` |
| ArchivePage.CopyAll | frontend/src/pages/ArchivePage.jsx:30-34 | mapping the copy over a month's posts throws exactly when one is nullish, and otherwise copies each in order |
| ArchivePage.CopyPosts | frontend/src/pages/ArchivePage.jsx:30 | `item.posts.map` runs only on an array |
| ArchivePage.Fetched | frontend/src/pages/ArchivePage.jsx:17-52 | loading ends; an accepted answer whose reduce succeeds keeps the raw data and shows the grouped display; otherwise both are emptied, with the error toast exactly for a rejection or a reduce that throws |
| ArchivePage.ReducedStaysNone | frontend/src/pages/ArchivePage.jsx:27-36 | once the reduce has thrown it throws whatever items follow |
| ArchivePage.Reduce | frontend/src/pages/ArchivePage.jsx:27-36 | the loop of `Array.prototype.reduce` computes the same display as the recursive definition |
| ArchivePage.Page.constructor | frontend/src/pages/ArchivePage.jsx:12-14 | the page starts loading, with no data and an empty display |
| ArchivePage.Page.FetchAllPosts | frontend/src/pages/ArchivePage.jsx:16-55 | one getArchiveData call; the page becomes Fetched of how it settled, and the browser changes only as the response interceptor says |
| ArchivePage.ReducedDefined | frontend/src/pages/ArchivePage.jsx:27-36 | the reduce gets through exactly when every item is displayable |
| ArchivePage.ReducedKeys | frontend/src/pages/ArchivePage.jsx:29-30 | the display's titles are exactly the month titles of the items |
| ArchivePage.LastWriteWins | frontend/src/pages/ArchivePage.jsx:30 | under each title are the posts of the last item with that title |
| ArchivePage.DistinctTitlesKeepEveryMonth | frontend/src/pages/ArchivePage.jsx:29-30 | when no two items share a title there are as many titles as items |
| ArchivePage.CopyKeepsServerPost | frontend/src/pages/ArchivePage.jsx:30-34 | the copy leaves a post object that has `created_at` as it was |
| ArchivePage.CopiesKeepOrder | frontend/src/pages/ArchivePage.jsx:30-34 | the posts under a title keep the server's order, each with its own `created_at` |
| ArchivePage.UnusableAnswerShowsNothing | frontend/src/pages/ArchivePage.jsx:39-43 | an answer that is not a 200 with an array empties the page, with the error toast exactly when the call rejected |
| PopularTagsCategories.Listed | frontend/src/components/PopularTagsCategories.jsx:21-29 | the `data` array of a 200 envelope, a bare array as it is, and an empty list for anything else |
| PopularTagsCategories.TagsFetched | frontend/src/components/PopularTagsCategories.jsx:15-37 | the tags loading flag ends; a resolved answer shows its list; a rejection empties the list and adds the error toast; the categories are untouched |
| PopularTagsCategories.CategoriesFetched | frontend/src/components/PopularTagsCategories.jsx:39-61 | the categories loading flag ends; a resolved answer shows its list; a rejection empties the list and adds the error toast; the tags are untouched |
| PopularTagsCategories.Card.constructor | frontend/src/components/PopularTagsCategories.jsx:9-12 | the card starts with both lists empty and both loading |
| PopularTagsCategories.Card.FetchPopularTags | frontend/src/components/PopularTagsCategories.jsx:15-37 | one getHotTags call with `limit` 10; the card becomes TagsFetched of how it settled |
| PopularTagsCategories.Card.FetchPopularCategories | frontend/src/components/PopularTagsCategories.jsx:39-61 | one getHotCategories call with `limit` 5; the card becomes CategoriesFetched of how it settled |
| PopularTagsCategories.ShapesAgree | frontend/src/components/PopularTagsCategories.jsx:21-25 | the envelope and the bare array give the same list |
| PopularTagsCategories.OtherCodesShowNothing | frontend/src/components/PopularTagsCategories.jsx:26-28 | an envelope with another code shows an empty list |
| PopularTagsCategories.FetchesCommute | frontend/src/components/PopularTagsCategories.jsx:14-64 | the two fetches settle to the same lists and flags in either order |
| PopularTagsCategories.HotTagsBody | backend/api/tag.go:54-84 | the hot-tags answer is an envelope with the code and one array item per hot tag |
| PopularTagsCategories.ShowsServerHotTags | frontend/src/components/PopularTagsCategories.jsx:19-22 | the card shows all of the server's hot tags, at most ten, in the server's order |
| CollectionPages.EntityOf | frontend/src/pages/CategoryPostsPage.jsx:21-22 | an entity is shown exactly when the answer is truthy and has a truthy `data` or `id`; it is `data` when that is truthy and the whole answer otherwise |
| CollectionPages.PostsOf | frontend/src/pages/CategoryPostsPage.jsx:29-35 | the `data.posts` array when there is one, a bare array as it is, and an empty list otherwise |
| CollectionPages.EntityShown | frontend/src/pages/CategoryPostsPage.jsx:21-26 | the entity is set from EntityOf, or cleared with the not-found toast; the posts and the spinner are untouched |
| CollectionPages.Caught | frontend/src/pages/CategoryPostsPage.jsx:36-43 | the catch block empties the posts, clears the entity, adds the failure toast and the finally block ends loading |
| CollectionPages.LoadedAsWritten | frontend/src/pages/CategoryPostsPage.jsx:19-43 | whatever the entity call returns, the page ends with no posts and no entity, and its last toast is the failure toast |
| CollectionPages.Loaded | frontend/src/pages/CategoryPostsPage.jsx:19-43 | two resolved calls show the entity's answer and PostsOf the list's answer; a rejection of either ends with no posts and no entity; loading always ends |
| CollectionPages.Page.constructor | frontend/src/pages/CategoryPostsPage.jsx:10-13 | the page starts with no posts, no entity and loading, and keeps the route's id |
| CollectionPages.Page.ShowEntity | frontend/src/pages/CategoryPostsPage.jsx:21-26 | the page becomes EntityShown of the answer |
| CollectionPages.Page.Fail | frontend/src/pages/CategoryPostsPage.jsx:36-43 | the page becomes Caught of its old state |
| CollectionPages.Page.FetchAsWritten | frontend/src/pages/CategoryPostsPage.jsx:15-47 | without an id nothing changes; otherwise one entity call and the page becomes LoadedAsWritten of it, with the token and location the interceptor leaves |
| CollectionPages.Page.Fetch | frontend/src/pages/TagPostsPage.jsx:15-47 | without an id nothing changes; otherwise the entity call, then, unless it rejected, the filtered post list; the page becomes Loaded of both, with the token and location the interceptor leaves |
| CollectionPages.AsWrittenLosesPosts | frontend/src/pages/TagPostsPage.jsx:28 | with a found entity and a non-empty post list on the server, the page as written shows neither and toasts a failure, and the intended page shows both |
| CollectionPages.ShowsEntityAndPosts | frontend/src/pages/TagPostsPage.jsx:19-35 | a found entity and a listed page of posts are both shown, with no toast and loading over |
| CollectionPages.UnknownEntityStillLists | frontend/src/pages/TagPostsPage.jsx:21-35 | a resolved answer with neither `data` nor `id` clears the entity with the not-found toast, and the posts that follow are still listed |
| CollectionPages.EntityResponse | backend/api/category.go:33-51 | the entity handler's answer has no data unless it succeeds |
| CollectionPages.UnknownEntityIsCaught | frontend/src/pages/CategoryPostsPage.jsx:21-35 | an id with no live entity gets the server's 404, which the gateway rejects, so the page ends in the catch block with no entity, no posts and the error toast |
| CollectionPages.PostsCallFilters | backend/api/post.go:19-20 | the intended posts call is GET /api/posts with the entity's id under `category_id` or `tag_id`, served by GetPosts |

## Left out

- Database and network I/O: connections, the SQL text and `DATE_FORMAT`. GORM's transactions are
  modelled only as all-or-nothing changes to the value of the store. The error of `tx.Commit()`
  is ignored at post_management.go:148 and 298, so a failed commit would answer 200 with nothing
  stored; the model has no fault for the commit. Preloading of associations
  is left out too: a handler's answer carries the row's own fields and the links the model
  keeps, not the joined records.
- Concurrency: the server is modelled one request at a time. The lost update of two concurrent
  likes (post.go returns the count it expects rather than the one stored) is not captured. On
  the client, the requests of one effect are modelled in program order, and requests of
  different effects are never interleaved.
- GORM's handling of a non-numeric id string passed to `First(&row, id)`, which GORM treats as a
  raw SQL condition: the model counts it as a failing query.
- Comment.ShownOn, Comment.ApprovedComments and Comment.GetPostComments: comment.go:20 passes the
  raw path string to `post_id = ?`, and MySQL converts it to a number by its leading numeric
  prefix, so "5abc" or " 5" lists the comments of post 5. The model reads the string with Atoi
  and lists nothing for such a string. The `status IS NULL` arm is not modelled either: the
  status is a non-null string here, as it is for every row the application writes (models.go:83
  gives it the default 'pending').
- Gateway.Envelope and Gateway.EnvelopeJson: the bodies are modelled with the keys `code`,
  `message` and `data` only. Many error bodies also carry `"error": err.Error()`, the text of a
  database or binding error (for example middleware/auth.go:49, comment.go:25 and
  comment_approval.go:20). The middleware's aborts send `"data": nil` (middleware/auth.go:26,
  50, 62, 75 and 89); the model leaves `data` out of those bodies. Every such body comes with
  an error status, which the gateway rejects before a page looks at the body, so no page state
  modelled here depends on either key.
- MySQL's auto-increment gaps: a failed insert does not use up an id in the model, so ids stay
  consecutive.
- PostManagement.GetCategories and PostManagement.GetTags (backend/api/post_management.go:858-873,
  895-910): they are the same code as Category.GetCategories and Tag.GetTags, so they are not
  modelled twice.
- Category.GetHotCategories and Tag.GetHotTags: `post_count` comes from a join, grouping and
  counting in SQL. The model ranks each row by its number of join rows. It states the top-n
  property and the length of the list. Which of several equally linked rows MySQL returns is
  left out; the model keeps them in table order.
- Post.ListPage, Post.GetPosts, Post.SearchPosts, PostManagement.SearchPosts, Misc.GetHomePageData
  and Misc.GetArchiveData: `ORDER BY created_at DESC` and `ORDER BY view_count DESC` leave the
  order of rows with equal keys to MySQL. The model sorts stably, so equal rows keep their table
  order. The contracts name that one order, so they are exact only up to the order of ties.
- Post.ListPage, Post.GetPosts, Post.SearchPosts and PostManagement.SearchPosts: these use the
  intended offset and page count, Pagination.Offset and Pagination.TotalPage, over unbounded
  integers. The code's 64-bit arithmetic differs only when `(page - 1) * page_size` or
  `total + page_size - 1` overflows int64. Pagination.OffsetAsWritten and
  Pagination.TotalPageAsWritten model that arithmetic, and the first two Findings below show
  the inputs where it differs.
- Auth.Register, Models.FirstBy, the unique-index checks, Text.Like, Post.SearchMatch and
  PostManagement.KeywordMatch: strings are compared code point by code point. The connection in
  backend/config/database.go:29 sets only `charset=utf8mb4`, so MySQL's default collation
  applies, and that collation ignores case and accents. For example, registering "Alice" when
  "alice" exists is refused by the code but accepted by the model. The escape character `\` of
  LIKE is not modelled either.
- JavaScript object key order and special keys such as `__proto__`: JSON objects are maps.
- Floating-point numbers: every number the server sends is an integer, so JSON numbers are
  integers. The `user_id` claim a parsed JWT yields is a real.
- PostListPage.Page.FetchPosts: the stand-in list is modelled by its ids, titles and dates only;
  its other text fields are left out.
- Login.LoginPage.OnFinish: the application store that `setCredentials` updates is not part of
  this model. What is dispatched is recorded in the page's `credentials` field.
- PostDetailPage and PostListPage: `form.resetFields()` and other antd form internals are left
  out.
- Login, PostDetailPage and CollectionPages: the loading and submitting flags are set while a
  request is in flight. The model cannot observe that in-between state, because each method
  runs its request to completion, so only its final value is stated.
- The browser's `localStorage` is the `token` field of the `Browser` object, and
  `window.location.href` its `location` field. Reloading the page after the redirect is left out.
- The admin pages, the home page, the register page, the header, the footer and the router
  configuration are not part of this model. They are presentation, or they call the server
  through code outside the gateway.
- Hertz's request binding is a parameter: a body that does not decode is `None` and gets the
  handler's 400. The `vd` length rules of category.go and tag.go are modelled, through the byte
  length of UTF-8.

## Findings

| source | as written | input that shows it | evidently intended | confidence | as-written member | corrected member |
|---|---|---|---|---|---|---|
| backend/api/post.go:73-76 | `(total + int64(pageSize) - 1) / int64(pageSize)` wraps around in 64 bits for a huge page size | `page_size=9223372036854775807` with 5 posts gives `total_page` 0 | the ceiling of total / pageSize, 1 here | high, not executed | Pagination.TotalPageOverflows | Pagination.TotalPage |
| backend/api/post.go:58-61 | `(page - 1) * pageSize` wraps around in 64 bits, and the clamp at zero does not catch a wrap to a non-negative value | `page=4611686018427387905&page_size=4` gives offset 0, which serves the first page | the rows of all earlier pages, 2^64 here, which is past every row | high, not executed | Pagination.OffsetWrapsAround | Pagination.Offset |
| frontend/src/pages/CategoryPostsPage.jsx:28 | `postAPI.getPostsByCategory(categoryId)` calls a helper that the API module does not define; so does `postAPI.getPostsByTag` in TagPostsPage.jsx:28 | any category or tag that exists and has posts: the call throws a TypeError, and the page shows no posts, no entity and an error toast | the post list filtered by `category_id` or `tag_id`, which GetPosts serves | high, not executed | CollectionPages.AsWrittenLosesPosts | CollectionPages.ShowsEntityAndPosts |
