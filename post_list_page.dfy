/** frontend/src/pages/PostListPage.jsx: the post list with its search box and pager. The
    effect that loads the list depends on the page, the page size and the search text; the
    load itself is a stand-in that, half a second later, shows a fixed list of three posts
    whatever the page and search text are. */
module PostListPage {
  import opened Json

  datatype Pagination = Pagination(current: int, pageSize: int, total: int)

  /** The values the loading effect lists as its dependencies. */
  datatype Deps = Deps(current: int, pageSize: int, searchText: string)

  datatype ListState = ListState(loading: bool, posts: seq<Json>, searchText: string, pagination: Pagination)
  {
    function Watched(): Deps {
      Deps(pagination.current, pagination.pageSize, searchText)
    }
  }

  const Initial := ListState(false, [], "", Pagination(1, 10, 0))

  /** The fixed list the stand-in load shows (ids, titles and dates; the other text fields are
      not modelled). */
  const MockPosts: seq<Json> := [
    Obj(map["id" := Num(1), "title" := Str("欢迎来到我的博客"), "createdAt" := Str("2023-05-01")]),
    Obj(map["id" := Num(2), "title" := Str("React 18新特性解析"), "createdAt" := Str("2023-05-15")]),
    Obj(map["id" := Num(3), "title" := Str("前端性能优化技巧"), "createdAt" := Str("2023-06-01")])
  ]

  /** React runs the effect again after a render exactly when a dependency changed. */
  predicate Reloads(before: ListState, after: ListState) {
    before.Watched() != after.Watched()
  }

  /** handleSearch: the text, and back to the first page. */
  function Searched(st: ListState, value: string): ListState {
    st.(searchText := value, pagination := st.pagination.(current := 1))
  }

  /** handlePageChange: the page and the page size the pager reports. */
  function PageChanged(st: ListState, page: int, pageSize: int): ListState {
    st.(pagination := st.pagination.(current := page, pageSize := pageSize))
  }

  /** fetchPosts up to the timer. */
  function LoadStarted(st: ListState): ListState {
    st.(loading := true)
  }

  /** The timer: the list, its length as the total, and loading over. */
  function LoadFinished(st: ListState): ListState {
    st.(posts := MockPosts, pagination := st.pagination.(total := |MockPosts|), loading := false)
  }

  class Page {
    var loading: bool
    var posts: seq<Json>
    var searchText: string
    var pagination: Pagination

    function State(): ListState
      reads this
    {
      ListState(loading, posts, searchText, pagination)
    }

    constructor ()
      ensures State() == Initial
    {
      loading := false;
      posts := [];
      searchText := "";
      pagination := Pagination(1, 10, 0);
    }

    /** handleSearch; `reload` says whether the effect runs again. */
    method HandleSearch(value: string) returns (reload: bool)
      modifies this
      ensures State() == Searched(old(State()), value)
      ensures reload <==> Reloads(old(State()), State())
    {
      var before := State().Watched();
      searchText := value;
      pagination := pagination.(current := 1);
      reload := before != State().Watched();
    }

    /** handlePageChange; `reload` says whether the effect runs again. */
    method HandlePageChange(page: int, pageSize: int) returns (reload: bool)
      modifies this
      ensures State() == PageChanged(old(State()), page, pageSize)
      ensures reload <==> Reloads(old(State()), State())
    {
      var before := State().Watched();
      pagination := pagination.(current := page, pageSize := pageSize);
      reload := before != State().Watched();
    }

    /** The effect's body: loading, and a timer set. */
    method FetchPosts()
      modifies this
      ensures State() == LoadStarted(old(State()))
    {
      loading := true;
    }

    /** The timer's callback. */
    method TimerFired()
      modifies this
      ensures State() == LoadFinished(old(State()))
    {
      posts := MockPosts;
      pagination := pagination.(total := |MockPosts|);
      loading := false;
    }
  }

  // ---------------------------------------------------------------- properties

  lemma InitialState()
    ensures Initial.pagination == Pagination(1, 10, 0) && Initial.searchText == "" && !Initial.loading
    ensures Initial.Watched() == Deps(1, 10, "")
  {
  }

  /** A search keeps the page size and the total, and reloads exactly when the text changes or
      the pager was not on the first page. */
  lemma SearchResetsPage(st: ListState, value: string)
    ensures var after := Searched(st, value);
      after.Watched() == Deps(1, st.pagination.pageSize, value)
      && after.pagination.pageSize == st.pagination.pageSize && after.pagination.total == st.pagination.total
      && after.posts == st.posts && after.loading == st.loading
      && (Reloads(st, after) <==> value != st.searchText || st.pagination.current != 1)
  {
  }

  /** A page change keeps the search text and the total, and reloads exactly when the page or
      the page size differs. */
  lemma PageChangeKeepsSearch(st: ListState, page: int, pageSize: int)
    ensures var after := PageChanged(st, page, pageSize);
      after.Watched() == Deps(page, pageSize, st.searchText)
      && after.pagination.total == st.pagination.total && after.posts == st.posts
      && (Reloads(st, after) <==> page != st.pagination.current || pageSize != st.pagination.pageSize)
  {
  }

  /** A load shows the list with its length as the total, and neither of its two steps
      touches a dependency, so a load never sets off another. */
  lemma LoadSettles(st: ListState)
    ensures var started := LoadStarted(st);
      var finished := LoadFinished(started);
      started.loading && !finished.loading
      && finished.posts == MockPosts && finished.pagination.total == |finished.posts| == 3
      && !Reloads(st, started) && !Reloads(started, finished)
  {
  }

  /** What a load shows does not depend on the page or the search text. */
  lemma LoadIgnoresDeps(a: ListState, b: ListState)
    ensures LoadFinished(LoadStarted(a)).posts == LoadFinished(LoadStarted(b)).posts
  {
  }
}
