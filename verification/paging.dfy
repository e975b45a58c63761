/**
 The two query clauses every listing uses: `ORDER BY <key> DESC` and
 `OFFSET (page - 1) * page_size LIMIT page_size`.
 */
module Paging {

  /** Rows ordered by non-increasing key. */
  predicate SortedDesc<T>(rows: seq<T>, key: T -> nat)
  {
    forall i, j :: 0 <= i < j < |rows| ==> key(rows[i]) >= key(rows[j])
  }

  /** Inserts `x` into rows already sorted newest first, keeping them sorted. */
  function InsertDesc<T>(x: T, rows: seq<T>, key: T -> nat): (r: seq<T>)
    requires SortedDesc(rows, key)
    ensures SortedDesc(r, key)
    ensures multiset(r) == multiset(rows) + multiset{x}
    ensures forall k :: 0 <= k < |r| ==> r[k] == x || r[k] in rows
  {
    if |rows| == 0 then [x]
    else if key(x) >= key(rows[0]) then [x] + rows
    else
      var rest := InsertDesc(x, rows[1..], key);
      HeadBoundsRest(x, rows, key, rest);
      assert rows == [rows[0]] + rows[1..];
      [rows[0]] + rest
  }

  /** The head of sorted rows bounds every row of the tail and any smaller new row. */
  lemma HeadBoundsRest<T>(x: T, rows: seq<T>, key: T -> nat, rest: seq<T>)
    requires SortedDesc(rows, key)
    requires |rows| > 0 && key(x) < key(rows[0])
    requires forall k :: 0 <= k < |rest| ==> rest[k] == x || rest[k] in rows[1..]
    ensures forall k :: 0 <= k < |rest| ==> key(rows[0]) >= key(rest[k])
  {
    forall k | 0 <= k < |rest|
      ensures key(rows[0]) >= key(rest[k])
    {
      if rest[k] != x {
        var j :| 0 <= j < |rows[1..]| && rows[1..][j] == rest[k];
        assert rows[j + 1] == rest[k];
      }
    }
  }

  /** The rows in non-increasing key order: a sorted permutation. */
  function SortDesc<T>(rows: seq<T>, key: T -> nat): (r: seq<T>)
    ensures SortedDesc(r, key)
    ensures multiset(r) == multiset(rows)
    ensures |r| == |rows|
    ensures forall k :: 0 <= k < |r| ==> r[k] in rows
  {
    if |rows| == 0 then []
    else
      assert rows == [rows[0]] + rows[1..];
      InsertDesc(rows[0], SortDesc(rows[1..], key), key)
  }

  /** The number of rows an `OFFSET` skips; a negative offset skips nothing. */
  function Offset(page: int, pageSize: int): (n: nat)
    ensures page >= 1 && pageSize >= 0 ==> n == (page - 1) * pageSize
  {
    var o := (page - 1) * pageSize;
    if o < 0 then 0 else o
  }

  /** The number of rows a `LIMIT` admits; a non-positive limit admits none. */
  function Limit(pageSize: int): (n: nat)
    ensures pageSize > 0 ==> n == pageSize
    ensures pageSize <= 0 ==> n == 0
  {
    if pageSize <= 0 then 0 else pageSize
  }

  /** How many of `total` rows page `page` holds: what the offset leaves, capped by the limit. */
  function PageLength(total: nat, page: int, pageSize: int): nat
  {
    if Offset(page, pageSize) >= total then 0
    else if total - Offset(page, pageSize) < Limit(pageSize) then total - Offset(page, pageSize)
    else Limit(pageSize)
  }

  /**
   Page `page` of `rows`: skip `(page - 1) * pageSize` rows and keep at most
   `pageSize` of the rest.
   */
  function Paginate<T>(rows: seq<T>, page: int, pageSize: int): (r: seq<T>)
    ensures |r| <= Limit(pageSize)
    ensures |r| == PageLength(|rows|, page, pageSize)
    ensures |r| > 0 ==> Offset(page, pageSize) + |r| <= |rows|
    ensures forall k :: 0 <= k < |r| ==> r[k] == rows[Offset(page, pageSize) + k]
    ensures forall k :: 0 <= k < |r| ==> r[k] in rows
  {
    var start := Offset(page, pageSize);
    if start >= |rows| then []
    else
      var stop := if |rows| - start < Limit(pageSize) then |rows| else start + Limit(pageSize);
      rows[start..stop]
  }

  /** A page cut from rows sorted newest first is itself sorted newest first. */
  lemma PaginateKeepsOrder<T>(rows: seq<T>, page: int, pageSize: int, key: T -> nat)
    requires SortedDesc(rows, key)
    ensures SortedDesc(Paginate(rows, page, pageSize), key)
  {
    var r := Paginate(rows, page, pageSize);
    var off := Offset(page, pageSize);
    forall i, j | 0 <= i < j < |r|
      ensures key(r[i]) >= key(r[j])
    {
      assert r[i] == rows[off + i] && r[j] == rows[off + j];
    }
  }

  /** The worked example of a listing: page 2 of 25 rows, ten per page, holds rows 10 to 19. */
  lemma SecondPageOfTwentyFive<T>(rows: seq<T>)
    requires |rows| == 25
    ensures Paginate(rows, 2, 10) == rows[10..20]
  {
  }
}
