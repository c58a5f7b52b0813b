/**
  Keyset pagination: finishing an over-fetched page in place, and what a client
  sees when it follows the cursors through a strictly ordered row set.
 */
module Pagination {
  import opened Wrappers

  /** Cursor positions of the page's first and last row, and which neighbours exist. */
  datatype Meta<C> = Meta(limit: int, hasNext: bool, hasPrev: bool, next: Option<C>, prev: Option<C>, records: int)

  function Reversed<T>(s: seq<T>): (r: seq<T>)
    ensures |r| == |s| && forall i :: 0 <= i < |s| ==> r[i] == s[|s| - 1 - i]
  {
    seq(|s|, i requires 0 <= i < |s| => s[|s| - 1 - i])
  }

  /** The page behind an over-fetched result: trimmed to the limit, ascending. */
  function PageRows<T>(fetched: seq<T>, limit: nat, hasBefore: bool): seq<T> {
    var kept := if |fetched| > limit then fetched[..limit] else fetched;
    if hasBefore then Reversed(kept) else kept
  }

  function PageMeta<T, C>(fetched: seq<T>, limit: nat, hasAfter: bool, hasBefore: bool,
                          cursor: T -> C, records: Option<T -> int>): Meta<C>
  {
    var page := PageRows(fetched, limit, hasBefore);
    var more := |fetched| > limit;
    Meta(limit,
         if hasBefore then page != [] else more,
         if hasBefore then more else hasAfter && page != [],
         if page == [] then None else Some(cursor(page[|page| - 1])),
         if page == [] then None else Some(cursor(page[0])),
         if fetched == [] || records.None? then 0 else records.value(fetched[|fetched| - 1]))
  }

  /** Reverses the first `count` rows in place. */
  method ReverseFirst<T>(rows: array<T>, count: nat)
    requires count <= rows.Length
    modifies rows
    ensures rows[..count] == Reversed(old(rows[..count]))
    ensures rows[count..] == old(rows[count..])
  {
    var i, j := 0, count - 1;
    while i < j
      invariant 0 <= i && j == count - 1 - i && i <= j + 1
      invariant forall k :: 0 <= k < i || j < k < count ==> rows[k] == old(rows[count - 1 - k])
      invariant forall k :: i <= k <= j || count <= k < rows.Length ==> rows[k] == old(rows[k])
    {
      rows[i], rows[j] := rows[j], rows[i];
      i, j := i + 1, j - 1;
    }
  }

  /** Trims, restores ascending order in place, and fills the meta member; the page is `rows[..count]`. */
  method FinishCursorPage<T, C>(rows: array<T>, limit: nat, hasAfter: bool, hasBefore: bool,
                                cursor: T -> C, records: Option<T -> int>)
    returns (count: nat, meta: Meta<C>)
    modifies rows
    ensures count <= rows.Length
    ensures rows[..count] == PageRows(old(rows[..]), limit, hasBefore)
    ensures rows[count..] == old(rows[count..])
    ensures meta == PageMeta(old(rows[..]), limit, hasAfter, hasBefore, cursor, records)
  {
    meta := Meta(limit, false, false, None, None, 0);
    if rows.Length > 0 && records.Some? {
      meta := meta.(records := records.value(rows[rows.Length - 1]));
    }
    var hasMore := rows.Length > limit;
    count := if hasMore then limit else rows.Length;
    if hasBefore {
      ReverseFirst(rows, count);
    }
    if count > 0 {
      meta := meta.(next := Some(cursor(rows[count - 1])), prev := Some(cursor(rows[0])));
    }
    if hasBefore {
      meta := meta.(hasPrev := hasMore, hasNext := count > 0);
    } else {
      meta := meta.(hasNext := hasMore, hasPrev := hasAfter && count > 0);
    }
    assert old(rows[..])[..count] == old(rows[..count]);
  }

  // --- Fetching around a cursor ----------------------------------------------

  /** Rows are their own cursors: positions in a strict order. */
  predicate Ordered(rows: seq<int>) {
    forall i, j :: 0 <= i < j < |rows| ==> rows[i] < rows[j]
  }

  function Min(a: nat, b: nat): nat { if a < b then a else b }

  /** How many rows are at or before a cursor. */
  function Upto(rows: seq<int>, c: int): (n: nat)
    ensures n <= |rows|
  {
    if rows == [] then 0 else if rows[0] <= c then 1 + Upto(rows[1..], c) else 0
  }

  function Start(rows: seq<int>, c: Option<int>): (n: nat)
    ensures n <= |rows|
  {
    if c.Some? then Upto(rows, c.value) else 0
  }

  /** The over-fetched rows after a cursor, ascending; without one, from the start. */
  function FetchAfter(rows: seq<int>, c: Option<int>, limit: nat): seq<int> {
    var start := Start(rows, c);
    rows[start..Min(start + limit + 1, |rows|)]
  }

  /** The over-fetched rows before a cursor, nearest first. */
  function FetchBefore(rows: seq<int>, c: int, limit: nat): seq<int> {
    var end := Upto(rows, c - 1);
    Reversed(rows[if end > limit + 1 then end - limit - 1 else 0..end])
  }

  lemma {:induction false} UptoRow(rows: seq<int>, i: nat)
    requires Ordered(rows) && i < |rows|
    ensures Upto(rows, rows[i]) == i + 1 && Upto(rows, rows[i] - 1) == i
  {
    if i == 0 {
      assert |rows| > 1 ==> rows[1] > rows[0];
    } else {
      assert rows[0] < rows[i];
      UptoRow(rows[1..], i - 1);
    }
  }

  // --- Following the cursors -------------------------------------------------

  datatype Page = Page(rows: seq<int>, meta: Meta<int>)

  function ForwardPage(rows: seq<int>, c: Option<int>, limit: nat): Page {
    var fetched := FetchAfter(rows, c, limit);
    Page(PageRows(fetched, limit, false), PageMeta(fetched, limit, c.Some?, false, (x: int) => x, None))
  }

  function BackwardPage(rows: seq<int>, c: int, limit: nat): Page {
    var fetched := FetchBefore(rows, c, limit);
    Page(PageRows(fetched, limit, true), PageMeta(fetched, limit, false, true, (x: int) => x, None))
  }

  /** One forward page is the next `limit` rows, and its next cursor resumes right behind them. */
  lemma ForwardStep(rows: seq<int>, c: Option<int>, limit: nat)
    requires Ordered(rows) && limit >= 1
    ensures var s, p := Start(rows, c), ForwardPage(rows, c, limit);
            && p.rows == rows[s..Min(s + limit, |rows|)]
            && (p.meta.hasNext <==> s + limit < |rows|)
            && (p.meta.hasNext ==> p.meta.next.Some? && Start(rows, p.meta.next) == s + limit)
            && (p.rows != [] ==> p.meta.prev == Some(rows[s]))
  {
    var s := Start(rows, c);
    if s + limit < |rows| {
      UptoRow(rows, s + limit - 1);
    }
  }

  /** What a page's meta member says of the rows around it. */
  ghost predicate SaysNeighbours(rows: seq<int>, limit: nat, p: Page) {
    && p.meta.limit == limit && |p.rows| <= limit && p.meta.records == 0
    && (p.rows != [] ==>
          && p.meta.prev == Some(p.rows[0]) && p.meta.next == Some(p.rows[|p.rows| - 1])
          && (p.meta.hasPrev <==> exists r :: r in rows && r < p.rows[0])
          && (p.meta.hasNext <==> exists r :: r in rows && r > p.rows[|p.rows| - 1]))
    && (p.rows == [] ==> p.meta.prev.None? && p.meta.next.None? && !p.meta.hasPrev && !p.meta.hasNext)
  }

  /** A page's neighbours are those of its place in the row set. */
  lemma SlicedNeighbours(rows: seq<int>, i: nat, j: nat)
    requires Ordered(rows) && i < j <= |rows|
    ensures (exists r :: r in rows && r < rows[i]) <==> i > 0
    ensures (exists r :: r in rows && r > rows[j - 1]) <==> j < |rows|
  {
    if i > 0 {
      assert rows[0] in rows;
    }
    if j < |rows| {
      assert rows[|rows| - 1] in rows;
    }
  }

  /** Forward from the start, or from a row: the page is what comes next, and its meta member says so. */
  lemma ForwardMeta(rows: seq<int>, c: Option<int>, limit: nat)
    requires Ordered(rows) && limit >= 1 && (c.Some? ==> c.value in rows)
    ensures var p := ForwardPage(rows, c, limit);
            && SaysNeighbours(rows, limit, p)
            && (p.rows == [] <==> !exists r :: r in rows && (c.Some? ==> r > c.value))
  {
    hide Ordered, ForwardPage;
    var s := Start(rows, c);
    ForwardSlice(rows, c, limit);
    if c.Some? {
      var k := RowIndex(rows, c.value);
      UptoRow(rows, k);
      RowsAfter(rows, k);
    } else {
      assert rows != [] ==> rows[0] in rows;
    }
    if s < |rows| {
      SlicedNeighbours(rows, s, Min(s + limit, |rows|));
    }
  }

  lemma RowsAfter(rows: seq<int>, k: nat)
    requires Ordered(rows) && k < |rows|
    ensures k + 1 < |rows| <==> exists r :: r in rows && r > rows[k]
  {
    if k + 1 < |rows| {
      assert rows[k + 1] in rows;
    }
  }

  lemma ForwardSlice(rows: seq<int>, c: Option<int>, limit: nat)
    requires Ordered(rows) && limit >= 1
    ensures var s, p := Start(rows, c), ForwardPage(rows, c, limit);
            && p.rows == rows[s..Min(s + limit, |rows|)] && p.meta.limit == limit && p.meta.records == 0
            && p.meta.hasNext == (s + limit < |rows|) && p.meta.hasPrev == (c.Some? && s < |rows|)
            && (s < |rows| ==> p.meta.prev == Some(rows[s]) && p.meta.next == Some(rows[Min(s + limit, |rows|) - 1]))
            && (s == |rows| ==> p.meta.prev.None? && p.meta.next.None?)
  {
    hide Ordered, Start;
  }

  /** Backward from a row: likewise. */
  lemma BackwardMeta(rows: seq<int>, c: int, limit: nat)
    requires Ordered(rows) && limit >= 1 && c in rows
    ensures var p := BackwardPage(rows, c, limit);
            && SaysNeighbours(rows, limit, p)
            && (p.rows == [] <==> !exists r :: r in rows && r < c)
  {
    hide BackwardPage, Ordered;
    var k := RowIndex(rows, c);
    var first := if k > limit then k - limit else 0;
    BackwardSlice(rows, k, limit);
    if k > 0 {
      SlicedNeighbours(rows, first, k);
    } else {
      NothingBefore(rows);
    }
    assert k > 0 ==> rows[0] in rows;
    RowsBefore(rows, k);
  }

  lemma RowIndex(rows: seq<int>, c: int) returns (k: nat)
    requires c in rows
    ensures k < |rows| && rows[k] == c
  {
    var i :| 0 <= i < |rows| && rows[i] == c;
    k := i;
  }

  lemma NothingBefore(rows: seq<int>)
    requires Ordered(rows) && rows != []
    ensures !exists r :: r in rows && r < rows[0]
  {
  }

  lemma RowsBefore(rows: seq<int>, k: nat)
    requires Ordered(rows) && k < |rows|
    ensures k > 0 <==> exists r :: r in rows && r < rows[k]
  {
    if k > 0 {
      assert rows[0] in rows;
    }
  }

  lemma BackwardSlice(rows: seq<int>, k: nat, limit: nat)
    requires Ordered(rows) && limit >= 1 && k < |rows|
    ensures var p, first := BackwardPage(rows, rows[k], limit), if k > limit then k - limit else 0;
            && p.rows == rows[first..k] && p.meta.limit == limit && p.meta.records == 0
            && p.meta.hasPrev == (first > 0) && p.meta.hasNext == (k > 0)
            && (k > 0 ==> p.meta.prev == Some(rows[first]) && p.meta.next == Some(rows[k - 1]))
            && (k == 0 ==> p.meta.prev.None? && p.meta.next.None?)
  {
    hide FetchBefore, Ordered, Reversed, PageRows;
    FetchedSlice(rows, k, limit);
    TrimmedBackward(rows, k, limit);
  }

  lemma TrimmedBackward(rows: seq<int>, k: nat, limit: nat)
    requires limit >= 1 && k < |rows|
    ensures var first := if k > limit then k - limit else 0;
            var fetched := Reversed(rows[if k > limit + 1 then k - limit - 1 else 0..k]);
            PageRows(fetched, limit, true) == rows[first..k] && (|fetched| > limit <==> first > 0)
  {
  }

  lemma FetchedSlice(rows: seq<int>, k: nat, limit: nat)
    requires Ordered(rows) && k < |rows|
    ensures FetchBefore(rows, rows[k], limit) == Reversed(rows[if k > limit + 1 then k - limit - 1 else 0..k])
  {
    UptoRow(rows, k);
  }

  /** Where every row carries the same total, that total is the page's count of records. */
  lemma RecordsAreTotal<T, C>(fetched: seq<T>, limit: nat, hasAfter: bool, hasBefore: bool, cursor: T -> C,
                              records: T -> int, total: int)
    requires forall i :: 0 <= i < |fetched| ==> records(fetched[i]) == total
    ensures PageMeta(fetched, limit, hasAfter, hasBefore, cursor, Some(records)).records
            == if fetched == [] then 0 else total
  {
  }

  /** Every page a client sees by following next cursors until none is offered. */
  function Follow(rows: seq<int>, c: Option<int>, limit: nat): (pages: seq<Page>)
    requires Ordered(rows) && limit >= 1
    ensures pages != []
    decreases |rows| - Start(rows, c)
  {
    var p := ForwardPage(rows, c, limit);
    ForwardStep(rows, c, limit);
    if p.meta.hasNext then [p] + Follow(rows, p.meta.next, limit) else [p]
  }

  function AllRows(pages: seq<Page>): seq<int> {
    if pages == [] then [] else pages[0].rows + AllRows(pages[1..])
  }

  /**
    Following the cursors yields every remaining row exactly once and in order;
    every page but the last is full and says so.
   */
  lemma {:induction false} FollowCoversEveryRow(rows: seq<int>, c: Option<int>, limit: nat)
    requires Ordered(rows) && limit >= 1
    ensures var pages := Follow(rows, c, limit);
            && AllRows(pages) == rows[Start(rows, c)..]
            && (forall i :: 0 <= i < |pages| ==> (pages[i].meta.hasNext <==> i < |pages| - 1))
            && (forall i :: 0 <= i < |pages| - 1 ==> |pages[i].rows| == limit)
    decreases |rows| - Start(rows, c)
  {
    hide ForwardPage, Upto, Start, AllRows, Ordered;
    ForwardStep(rows, c, limit);
    var p := ForwardPage(rows, c, limit);
    if p.meta.hasNext {
      FollowCoversEveryRow(rows, p.meta.next, limit);
      AllRowsFrom(p, Follow(rows, p.meta.next, limit));
    } else {
      AllRowsFrom(p, []);
      assert [p] + [] == [p] && p.rows + [] == p.rows;
    }
  }

  lemma AllRowsFrom(p: Page, rest: seq<Page>)
    ensures AllRows([p] + rest) == p.rows + AllRows(rest) && AllRows([]) == []
  {
    assert ([p] + rest)[1..] == rest;
  }

  /** What is fetched before a row: the rows in front of it, nearest first, one more than a page where there is one. */
  lemma FetchedBefore(rows: seq<int>, s: nat, limit: nat)
    requires Ordered(rows) && limit >= 1 && s + limit < |rows|
    ensures var fetched := FetchBefore(rows, rows[s + limit], limit);
            && |fetched| == (if s > 0 then limit + 1 else limit)
            && forall i :: 0 <= i < limit ==> fetched[i] == rows[s + limit - 1 - i]
  {
    hide Upto;
    UptoRow(rows, s + limit);
  }

  /** Paging back from the row behind a full page returns that page. */
  lemma BackwardStep(rows: seq<int>, s: nat, limit: nat)
    requires Ordered(rows) && limit >= 1 && s + limit < |rows|
    ensures var p := BackwardPage(rows, rows[s + limit], limit);
            p.rows == rows[s..s + limit] && p.meta.hasNext && (p.meta.hasPrev <==> s > 0)
  {
    hide FetchBefore, Ordered, Reversed;
    FetchedBefore(rows, s, limit);
    var fetched := FetchBefore(rows, rows[s + limit], limit);
    assert Reversed(fetched[..limit]) == rows[s..s + limit];
  }

  /** The second page starts with the row behind the first one. */
  lemma FollowUnfolds(rows: seq<int>, c: Option<int>, limit: nat)
    requires Ordered(rows) && limit >= 1 && |Follow(rows, c, limit)| > 1
    ensures var pages, next := Follow(rows, c, limit), ForwardPage(rows, c, limit).meta.next;
            && pages[1..] == Follow(rows, next, limit)
            && Start(rows, c) + limit == Start(rows, next) < |rows|
            && pages[0].rows == rows[Start(rows, c)..Start(rows, c) + limit]
            && pages[1].meta.prev == Some(rows[Start(rows, c) + limit])
  {
    hide ForwardPage;
    var p := ForwardPage(rows, c, limit);
    ForwardStep(rows, c, limit);
    ForwardStep(rows, p.meta.next, limit);
    assert Follow(rows, c, limit) == [p] + Follow(rows, p.meta.next, limit);
    assert Follow(rows, p.meta.next, limit)[0] == ForwardPage(rows, p.meta.next, limit);
  }

  /** The previous-page cursor of `later` leads back to exactly the rows of `page`. */
  predicate LeadsBack(rows: seq<int>, limit: nat, later: Page, page: Page, hasPrev: bool) {
    && later.meta.prev.Some?
    && var back := BackwardPage(rows, later.meta.prev.value, limit);
       back.rows == page.rows && back.meta.hasNext && back.meta.hasPrev == hasPrev
  }

  lemma FirstLeadsBack(rows: seq<int>, c: Option<int>, limit: nat)
    requires Ordered(rows) && limit >= 1 && |Follow(rows, c, limit)| > 1
    ensures LeadsBack(rows, limit, Follow(rows, c, limit)[1], Follow(rows, c, limit)[0], Start(rows, c) > 0)
  {
    hide Follow, ForwardPage, BackwardPage;
    FollowUnfolds(rows, c, limit);
    BackwardStep(rows, Start(rows, c), limit);
  }

  /** Paging back from page k+1 returns exactly page k. */
  lemma {:induction false} PagingBackReturnsThePage(rows: seq<int>, c: Option<int>, limit: nat, k: nat)
    requires Ordered(rows) && limit >= 1 && k + 1 < |Follow(rows, c, limit)|
    ensures LeadsBack(rows, limit, Follow(rows, c, limit)[k + 1], Follow(rows, c, limit)[k], Start(rows, c) + k > 0)
    decreases k
  {
    hide Follow, ForwardPage, LeadsBack;
    if k == 0 {
      FirstLeadsBack(rows, c, limit);
    } else {
      FollowUnfolds(rows, c, limit);
      var pages := Follow(rows, c, limit);
      PagingBackReturnsThePage(rows, ForwardPage(rows, c, limit).meta.next, limit, k - 1);
      assert pages[1..][k] == pages[k + 1] && pages[1..][k - 1] == pages[k];
    }
  }
}
