/** The paging arithmetic of the post list and the two searches (backend/api/post.go and
    backend/api/post_management.go): the page and page size taken from the query string, the
    row offset and the page count. Go's `int` and `int64` are 64 bits wide and wrap around;
    `/` truncates toward zero. */
module Pagination {
  import opened Wrappers
  import opened Text

  const TwoTo64: int := 0x1_0000_0000_0000_0000

  /** The int64 that an unbounded result wraps around to. */
  function Wrap64(x: int): (r: int)
    ensures MinInt64 <= r <= MaxInt64
    ensures (r - x) % TwoTo64 == 0
    ensures MinInt64 <= x <= MaxInt64 ==> r == x
  {
    (x - MinInt64) % TwoTo64 + MinInt64
  }

  /** Go's integer division, which truncates toward zero. */
  function Quot(a: int, b: int): (q: int)
    requires b != 0
    ensures a >= 0 && b > 0 ==> q == a / b
    ensures a < 0 && b > 0 && -a < b ==> q == 0
  {
    var m := (if a < 0 then -a else a) / (if b < 0 then -b else b);
    if (a < 0) == (b < 0) then m else -m
  }

  // ---------------------------------------------------------------- page and page size

  /** `strconv.Atoi(s)`, falling back to `fallback` when it fails or the value is below 1. */
  function AtLeastOne(s: string, fallback: int): (n: int)
    requires 1 <= fallback <= MaxInt64
    ensures 1 <= n <= MaxInt64
    ensures (Atoi(s).Some? && Atoi(s).value >= 1) ==> n == Atoi(s).value
    ensures !(Atoi(s).Some? && Atoi(s).value >= 1) ==> n == fallback
  {
    match Atoi(s)
    case Some(v) => if v < 1 then fallback else v
    case None => fallback
  }

  /** `ctx.DefaultQuery("page", "1")` then Atoi with a fallback to 1. */
  function Page(pageStr: Option<string>): (page: int)
    ensures 1 <= page <= MaxInt64
  {
    AtLeastOne(pageStr.GetOr("1"), 1)
  }

  /** `ctx.DefaultQuery("page_size", "10")` then Atoi with a fallback to 10. */
  function PageSize(pageSizeStr: Option<string>): (pageSize: int)
    ensures 1 <= pageSize <= MaxInt64
  {
    AtLeastOne(pageSizeStr.GetOr("10"), 10)
  }

  /** An absent parameter means the defaults 1 and 10. */
  lemma AbsentPageDefaults()
    ensures Page(None) == 1 && PageSize(None) == 10
  {
    assert IntToString(1) == "1";
    assert IntToString(10) == "10";
    AtoiRoundTrip(1);
    AtoiRoundTrip(10);
  }

  /** An unparsable or non-positive value falls back to the default; a value of at least one
      is taken as it is. */
  lemma PageParses(s: string, n: int)
    requires 1 <= n <= MaxInt64
    ensures Atoi(s).None? ==> Page(Some(s)) == 1 && PageSize(Some(s)) == 10
    ensures Page(Some(IntToString(n))) == n && PageSize(Some(IntToString(n))) == n
    ensures Page(Some(IntToString(1 - n))) == 1 && PageSize(Some(IntToString(1 - n))) == 10
  {
    AtoiRoundTrip(n);
    AtoiRoundTrip(1 - n);
  }

  // ---------------------------------------------------------------- offset and page count

  /** `offset := (page - 1) * pageSize; if offset < 0 { offset = 0 }` as written: the product
      wraps around at 64 bits. */
  function OffsetAsWritten(page: int, pageSize: int): (offset: int)
    requires 1 <= page <= MaxInt64 && 1 <= pageSize <= MaxInt64
    ensures 0 <= offset <= MaxInt64
  {
    var o := Wrap64((page - 1) * pageSize);
    if o < 0 then 0 else o
  }

  /** The offset the code evidently intends: the rows of the pages before this one. */
  function Offset(page: int, pageSize: int): (offset: nat)
    requires 1 <= page && 1 <= pageSize
    ensures page == 1 ==> offset == 0
    ensures offset >= page - 1
    ensures offset + pageSize == page * pageSize
  {
    MulMono(1, pageSize, page - 1);
    (page - 1) * pageSize
  }

  /** Where the product fits in 64 bits, the written code computes the intended offset. */
  lemma OffsetAgrees(page: int, pageSize: int)
    requires 1 <= page <= MaxInt64 && 1 <= pageSize <= MaxInt64
    requires (page - 1) * pageSize <= MaxInt64
    ensures OffsetAsWritten(page, pageSize) == Offset(page, pageSize)
  {
  }

  /** A page far beyond the data wraps back to the first rows: page 2^62 + 1 of size 4 starts at
      row 0 instead of row 2^64. */
  lemma OffsetWrapsAround()
    ensures OffsetAsWritten(0x4000_0000_0000_0001, 4) == 0
    ensures Offset(0x4000_0000_0000_0001, 4) == TwoTo64
  {
  }

  /** `totalPage = (total + int64(pageSize) - 1) / int64(pageSize)` as written: the sum wraps
      around at 64 bits before the truncating division. */
  function TotalPageAsWritten(total: int, pageSize: int): (totalPage: int)
    requires 0 <= total <= MaxInt64 && 1 <= pageSize <= MaxInt64
  {
    Quot(Wrap64(total + pageSize - 1), pageSize)
  }

  /** The page count the code evidently intends: the ceiling of total / pageSize. */
  function TotalPage(total: nat, pageSize: int): (totalPage: nat)
    requires 1 <= pageSize
    ensures totalPage * pageSize >= total
    ensures totalPage > 0 ==> (totalPage - 1) * pageSize < total
    ensures total == 0 <==> totalPage == 0
  {
    (total + pageSize - 1) / pageSize
  }

  /** The ceiling is the least page count that covers every row. */
  lemma TotalPageIsLeast(total: nat, pageSize: int, k: nat)
    requires 1 <= pageSize && k * pageSize >= total
    ensures TotalPage(total, pageSize) <= k
  {
    var t := TotalPage(total, pageSize);
    if t > k {
      assert (t - 1) * pageSize >= k * pageSize by {
        assert t - 1 >= k;
        MulMono(k, t - 1, pageSize);
      }
    }
  }

  lemma MulMono(a: nat, b: nat, c: int)
    requires a <= b && c >= 0
    ensures a * c <= b * c
  {
  }

  /** Where the sum fits in 64 bits, the written code computes the ceiling. */
  lemma TotalPageAgrees(total: nat, pageSize: int)
    requires total <= MaxInt64 && 1 <= pageSize <= MaxInt64
    requires total + pageSize - 1 <= MaxInt64
    ensures TotalPageAsWritten(total, pageSize) == TotalPage(total, pageSize)
  {
  }

  /** A page size of 2^63 - 1, which `page_size=9223372036854775807` parses to, makes the sum
      wrap: five rows report zero pages instead of one. */
  lemma TotalPageOverflows()
    ensures PageSize(Some(IntToString(MaxInt64))) == MaxInt64
    ensures TotalPageAsWritten(5, MaxInt64) == 0
    ensures TotalPage(5, MaxInt64) == 1
  {
    AtoiRoundTrip(MaxInt64);
  }
}
