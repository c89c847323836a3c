/** The pagination both repositories append to their visibility query:
    ` LIMIT limit OFFSET offset` is added only when `limit > 0`, so a
    non-positive limit returns every row and ignores the offset. */
module Paging {
  import opened Common

  /** The rows PostgreSQL returns for the query with the optional suffix.
      A negative OFFSET is rejected by the database. */
  function Page<T>(rows: seq<T>, limit: int, offset: int): (r: Result<seq<T>>)
    ensures limit <= 0 ==> r == Success(rows)
    ensures limit > 0 && offset < 0 ==> r == Failure(QueryFailed)
    ensures limit > 0 && offset >= 0 ==>
      && r.Success?
      && |r.value| == Min(limit, Max(0, |rows| - offset))
      && forall i :: 0 <= i < |r.value| ==> r.value[i] == rows[offset + i]
  {
    if limit <= 0 then Success(rows)
    else if offset < 0 then Failure(QueryFailed)
    else if offset >= |rows| then Success([])
    else Success(rows[offset..Min(offset + limit, |rows|)])
  }

  /** A page holds only rows of the list it is taken from. */
  lemma PageWithin<T>(rows: seq<T>, limit: int, offset: int)
    ensures Page(rows, limit, offset).Success? ==> forall x :: x in Page(rows, limit, offset).value ==> x in rows
  {
    var r := Page(rows, limit, offset);
    if r.Success? && limit > 0 {
      forall x | x in r.value ensures x in rows {
        var k :| 0 <= k < |r.value| && r.value[k] == x;
        assert rows[offset + k] == x;
      }
    }
  }

  /** Pages taken by separate queries that do not share one row order can
      repeat a row and miss another: here the second query meets the two
      rows in the opposite order. */
  lemma PagesOfTwoScans<T>(x: T, y: T)
    requires x != y
    ensures Page([x, y], 1, 0) == Success([x]) && Page([y, x], 1, 1) == Success([x])
    ensures var walked := Page([x, y], 1, 0).value + Page([y, x], 1, 1).value;
      walked == [x, x] && y !in walked
  {
    assert [x, y][0..Min(1, 2)] == [x];
    assert [y, x][1..Min(2, 2)] == [x];
  }

  /** Two consecutive pages of the same size are the page of twice that size:
      walking the pages with `offset += limit` visits every row once, in order. */
  lemma PagesConcatenate<T>(rows: seq<T>, limit: int, offset: int)
    requires limit > 0 && offset >= 0
    ensures Page(rows, limit, offset).Success? && Page(rows, limit, offset + limit).Success?
    ensures Page(rows, limit, offset).value + Page(rows, limit, offset + limit).value
            == Page(rows, 2 * limit, offset).value
  {
    var a, b, c := Page(rows, limit, offset).value, Page(rows, limit, offset + limit).value,
                   Page(rows, 2 * limit, offset).value;
    assert |a + b| == |c|;
    forall i | 0 <= i < |c| ensures (a + b)[i] == c[i] {
      if i >= |a| {
        assert (a + b)[i] == b[i - |a|] == rows[offset + limit + (i - |a|)];
      }
    }
  }

  /** Walking the pages from offset 0 covers exactly the unbounded result. */
  lemma PagesCoverAll<T>(rows: seq<T>, limit: int, pages: nat)
    requires limit > 0 && pages * limit >= |rows|
    ensures Walk(rows, limit, 0, pages) == rows
  {
    assert Suffix(rows, 0) == rows;
    WalkSuffix(rows, limit, 0, pages);
  }

  /** The concatenation of `pages` consecutive pages starting at `offset`. */
  function Walk<T>(rows: seq<T>, limit: int, offset: int, pages: nat): seq<T>
    requires limit > 0 && offset >= 0
    decreases pages
  {
    if pages == 0 then []
    else Page(rows, limit, offset).value + Walk(rows, limit, offset + limit, pages - 1)
  }

  lemma {:induction false} WalkSuffix<T>(rows: seq<T>, limit: int, offset: int, pages: nat)
    requires limit > 0 && offset >= 0 && offset + pages * limit >= |rows|
    ensures Walk(rows, limit, offset, pages) == Suffix(rows, offset)
    decreases pages
  {
    if pages > 0 {
      MulStep(pages, limit);
      WalkSuffix(rows, limit, offset + limit, pages - 1);
      PageThenSuffix(rows, limit, offset);
    }
  }

  /** The rows from `offset` on, none when `offset` is past the end. */
  function Suffix<T>(rows: seq<T>, offset: int): (r: seq<T>)
    requires offset >= 0
    ensures offset >= |rows| ==> r == []
    ensures offset < |rows| ==> r == rows[offset..]
  {
    if offset >= |rows| then [] else rows[offset..]
  }

  lemma MulStep(pages: nat, limit: int)
    requires pages > 0
    ensures (pages - 1) * limit == pages * limit - limit
  {
  }

  /** A page followed by the rows after it is the suffix the page starts. */
  lemma PageThenSuffix<T>(rows: seq<T>, limit: int, offset: int)
    requires limit > 0 && offset >= 0
    ensures Page(rows, limit, offset).Success?
    ensures Page(rows, limit, offset).value + Suffix(rows, offset + limit) == Suffix(rows, offset)
  {
    if offset < |rows| && offset + limit < |rows| {
      assert rows[offset..] == rows[offset..offset + limit] + rows[offset + limit..];
    }
  }
}
