/** The three clauses every list query of the server is built from, over an in-memory table:
    WHERE (a filter that keeps the order of the rows), ORDER BY … DESC (a stable sort on an
    integer rank) and LIMIT/OFFSET (a window). */
module Query {

  /** The rows that satisfy `p`, in their original order. */
  function Where<T>(s: seq<T>, p: T -> bool): (r: seq<T>)
    ensures |r| <= |s|
    ensures forall i | 0 <= i < |r| :: r[i] in s && p(r[i])
    ensures forall i | 0 <= i < |s| :: p(s[i]) ==> s[i] in r
  {
    if s == [] then [] else (if p(s[0]) then [s[0]] else []) + Where(s[1..], p)
  }

  /** The filter keeps every copy of a row that satisfies `p` and no copy of one that does not,
      so its length is the number of matching rows that `COUNT(*)` reports. */
  lemma {:induction false} WhereCounts<T>(s: seq<T>, p: T -> bool)
    ensures multiset(Where(s, p)) <= multiset(s)
    ensures forall i | 0 <= i < |s| :: multiset(Where(s, p))[s[i]] == if p(s[i]) then multiset(s)[s[i]] else 0
  {
    if s != [] {
      var h, t := s[0], s[1..];
      var head := if p(h) then [h] else [];
      assert s == [h] + t;
      assert multiset(s) == multiset{h} + multiset(t);
      assert multiset(Where(s, p)) == multiset(head) + multiset(Where(t, p));
      WhereCounts(t, p);
      forall i | 0 <= i < |s|
        ensures multiset(Where(s, p))[s[i]] == if p(s[i]) then multiset(s)[s[i]] else 0
      {
        var x := s[i];
        if x in t {
          var j :| 0 <= j < |t| && t[j] == x;
          assert multiset(Where(t, p))[t[j]] == if p(x) then multiset(t)[x] else 0;
        } else {
          assert multiset(t)[x] == 0;
        }
      }
    }
  }

  lemma {:induction false} WhereAll<T>(s: seq<T>, p: T -> bool)
    requires forall i | 0 <= i < |s| :: p(s[i])
    ensures Where(s, p) == s
  {
    if s != [] {
      WhereAll(s[1..], p);
    }
  }

  lemma {:induction false} WhereAppend<T>(s: seq<T>, t: seq<T>, p: T -> bool)
    ensures Where(s + t, p) == Where(s, p) + Where(t, p)
  {
    if s == [] {
      assert s + t == t;
    } else {
      assert (s + t)[1..] == s[1..] + t;
      WhereAppend(s[1..], t, p);
    }
  }

  lemma WhereSnoc<T>(s: seq<T>, x: T, p: T -> bool)
    ensures Where(s + [x], p) == Where(s, p) + (if p(x) then [x] else [])
  {
    WhereAppend(s, [x], p);
    assert [x][1..] == [];
  }

  predicate SortedDesc<T>(s: seq<T>, rank: T -> int) {
    forall i, j | 0 <= i < j < |s| :: rank(s[i]) >= rank(s[j])
  }

  /** Puts `x` in front of the first element whose rank does not exceed its own. */
  function InsertDesc<T>(x: T, s: seq<T>, rank: T -> int): (r: seq<T>)
    ensures multiset(r) == multiset(s) + multiset{x}
    ensures forall i | 0 <= i < |r| :: r[i] == x || r[i] in s
  {
    if s == [] || rank(s[0]) <= rank(x) then [x] + s
    else
      assert s == [s[0]] + s[1..];
      [s[0]] + InsertDesc(x, s[1..], rank)
  }

  /** Inserting into a sorted sequence keeps it sorted. */
  lemma {:induction false} InsertDescSorted<T>(x: T, s: seq<T>, rank: T -> int)
    requires SortedDesc(s, rank)
    ensures SortedDesc(InsertDesc(x, s, rank), rank)
  {
    if s == [] || rank(s[0]) <= rank(x) {
      forall i | 0 <= i < |s| ensures rank(s[i]) <= rank(x) {
        assert rank(s[i]) <= rank(s[0]);
      }
      ConsSorted(x, s, rank);
    } else {
      var tail := InsertDesc(x, s[1..], rank);
      InsertDescSorted(x, s[1..], rank);
      RanksBelowHead(x, s, tail, rank);
      ConsSorted(s[0], tail, rank);
    }
  }

  lemma ConsSorted<T>(h: T, t: seq<T>, rank: T -> int)
    requires SortedDesc(t, rank) && forall i | 0 <= i < |t| :: rank(t[i]) <= rank(h)
    ensures SortedDesc([h] + t, rank)
  {
    var r := [h] + t;
    forall i, j | 0 <= i < j < |r| ensures rank(r[i]) >= rank(r[j]) {
      assert r[j] == t[j - 1];
      if i > 0 {
        assert r[i] == t[i - 1];
      }
    }
  }

  lemma RanksBelowHead<T>(x: T, s: seq<T>, tail: seq<T>, rank: T -> int)
    requires s != [] && rank(x) < rank(s[0])
    requires forall i | 0 <= i < |tail| :: tail[i] == x || tail[i] in s[1..]
    ensures SortedDesc(s, rank) ==> forall i | 0 <= i < |tail| :: rank(tail[i]) <= rank(s[0])
  {
    if SortedDesc(s, rank) {
      forall i | 0 <= i < |tail| ensures rank(tail[i]) <= rank(s[0]) {
        if tail[i] != x {
          var j :| 0 <= j < |s[1..]| && s[1..][j] == tail[i];
          assert s[j + 1] == tail[i];
        }
      }
    }
  }

  /** ORDER BY rank DESC; rows of equal rank keep their order. */
  function SortDesc<T>(s: seq<T>, rank: T -> int): (r: seq<T>)
    ensures multiset(r) == multiset(s)
    ensures |r| == |s|
    ensures SortedDesc(r, rank)
  {
    if s == [] then []
    else
      assert s == [s[0]] + s[1..];
      InsertDescSorted(s[0], SortDesc(s[1..], rank), rank);
      InsertDesc(s[0], SortDesc(s[1..], rank), rank)
  }

  /** LIMIT limit OFFSET offset. */
  function Window<T>(s: seq<T>, offset: nat, limit: nat): (r: seq<T>)
    ensures |r| <= limit
    ensures offset >= |s| ==> r == []
    ensures forall i | 0 <= i < |r| :: offset + i < |s| && r[i] == s[offset + i]
    ensures offset + limit <= |s| ==> |r| == limit
  {
    if offset >= |s| then []
    else if offset + limit <= |s| then s[offset..offset + limit]
    else s[offset..]
  }

  /** LIMIT n. */
  function Take<T>(s: seq<T>, n: nat): (r: seq<T>)
    ensures |r| == if |s| <= n then |s| else n
    ensures r <= s
  {
    if |s| <= n then s else s[..n]
  }

  /** ORDER BY rank DESC LIMIT n keeps a top n: nothing left out outranks anything kept. */
  lemma TopK<T>(s: seq<T>, rank: T -> int, n: nat, x: T)
    requires x in s && x !in Take(SortDesc(s, rank), n)
    ensures forall y | y in Take(SortDesc(s, rank), n) :: rank(y) >= rank(x)
  {
    var r := SortDesc(s, rank);
    assert x in multiset(s);
    assert x in multiset(r);
    var i :| 0 <= i < |r| && r[i] == x;
    forall y | y in Take(r, n) ensures rank(y) >= rank(x) {
      var j :| 0 <= j < |Take(r, n)| && Take(r, n)[j] == y;
      assert r[j] == y;
    }
  }

  /** Sorting neither adds nor loses an element. */
  lemma SortDescMembers<T>(s: seq<T>, rank: T -> int)
    ensures forall i | 0 <= i < |SortDesc(s, rank)| :: SortDesc(s, rank)[i] in s
    ensures forall i | 0 <= i < |s| :: s[i] in SortDesc(s, rank)
  {
    var r := SortDesc(s, rank);
    forall i | 0 <= i < |r| ensures r[i] in s {
      assert r[i] in multiset(s);
    }
    forall i | 0 <= i < |s| ensures s[i] in r {
      assert s[i] in multiset(r);
    }
  }
}
