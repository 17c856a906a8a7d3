/**
 Pages of an ordered result: by offset, in one-based or zero-based numbering, and by
 following cursors. All numbers of the offset form are 64 bits wide and wrap around.
*/
module Pagination {
  import opened Wrappers

  const U64: nat := 0x1_0000_0000_0000_0000

  /** The order of the cursor column is that of `cursor`. */
  datatype Row = Row(cursor: int, data: string)

  // --------------------------------------------------------------------------- by offset

  datatype OffsetPagination = OffsetPagination(page: nat, pageSize: Option<nat>, zeroBased: Option<bool>) {
    predicate IsU64() {
      page < U64 && pageSize.UnwrapOr(20) < U64
    }

    function ZeroBased(): bool {
      zeroBased.UnwrapOr(false)
    }

    function Limit(): nat {
      pageSize.UnwrapOr(20)
    }

    /** How many pages come before this one. */
    function Before(): int {
      if ZeroBased() then page else page - 1
    }

    function Offset(): (r: nat) {
      Wrap(Wrap(Before()) * Limit())
    }

    function NextPage(): nat {
      Wrap(page + 1)
    }

    function PreviousPage(): Option<nat> {
      if ZeroBased() then
        if page > 0 then Some(page - 1) else None
      else if page > 1 then Some(page - 1)
      else None
    }
  }

  function Wrap(n: int): (r: nat)
    ensures 0 <= n < U64 ==> r == n
  {
    n % U64
  }

  datatype Invalid = PageIsZero | PageSizeIsZero

  /** `PaginationValidator::check`. */
  function Check(p: OffsetPagination): Option<Invalid> {
    if !p.ZeroBased() && p.page == 0 then Some(PageIsZero)
    else if p.pageSize == Some(0) then Some(PageSizeIsZero)
    else None
  }

  datatype OffsetPaginationInfo = OffsetPaginationInfo(
    totalPages: nat, totalItems: nat, currentPage: nat, pageSize: nat, pageOffset: nat, zeroBased: bool
  )

  /** `OffsetPaginationInfo::new`. */
  function Info(p: OffsetPagination, count: nat): OffsetPaginationInfo
    requires Check(p).None?
  {
    var modifier := if p.ZeroBased() then 0 else 1;
    OffsetPaginationInfo((count + p.Limit() - 1) / p.Limit(), count, p.page, p.Limit(),
                         Wrap((p.page - modifier) * p.Limit()), p.ZeroBased())
  }

  function Min(a: int, b: int): int {
    if a < b then a else b
  }

  /** Up to `limit` rows from an offset. */
  function Slice(rows: seq<Row>, offset: nat, limit: nat): seq<Row> {
    rows[Min(offset, |rows|)..Min(offset + limit, |rows|)]
  }

  function OffsetPage(rows: seq<Row>, p: OffsetPagination): seq<Row> {
    Slice(rows, p.Offset(), p.Limit())
  }

  /** The page `k` pages after the first, in either numbering. */
  function Page(k: nat, size: nat, zeroBased: bool): OffsetPagination {
    OffsetPagination(if zeroBased then k else k + 1, Some(size), Some(zeroBased))
  }

  function TotalPages(count: nat, size: nat): nat
    requires size > 0
  {
    (count + size - 1) / size
  }

  /** The rows of a sequence of pages, one after the other. */
  function Flatten(pages: seq<seq<Row>>): seq<Row> {
    if pages == [] then [] else pages[0] + Flatten(pages[1..])
  }

  /** From row `i` on: a page of this size, and the same again while a page is full. */
  function PagesFrom(rows: seq<Row>, size: nat, i: nat): (r: seq<seq<Row>>)
    requires size > 0 && i <= |rows|
    ensures r != []
    decreases |rows| - i
  {
    if i + size <= |rows| then [rows[i..i + size]] + PagesFrom(rows, size, i + size) else [rows[i..]]
  }

  lemma {:induction false} PagesFromRebuild(rows: seq<Row>, size: nat, i: nat)
    requires size > 0 && i <= |rows|
    ensures Flatten(PagesFrom(rows, size, i)) == rows[i..]
    decreases |rows| - i
  {
    if i + size <= |rows| {
      PagesFromRebuild(rows, size, i + size);
      FirstPage(rows[i..i + size], PagesFrom(rows, size, i + size));
      assert rows[i..] == rows[i..i + size] + rows[i + size..];
    } else {
      FirstPage(rows[i..], []);
    }
  }

  lemma FirstPage(page: seq<Row>, others: seq<seq<Row>>)
    ensures Flatten([page] + others) == page + Flatten(others)
  {
    assert ([page] + others)[1..] == others;
  }

  lemma {:induction false} PagesFromCount(rows: seq<Row>, size: nat, i: nat)
    requires size > 0 && i <= |rows|
    ensures |PagesFrom(rows, size, i)| == (|rows| - i) / size + 1
    decreases |rows| - i
  {
    if i + size <= |rows| {
      PagesFromCount(rows, size, i + size);
      DivideOneMore(|rows| - i - size, size);
    } else {
      DivideSmall(|rows| - i, size);
    }
  }

  lemma {:induction false} PagesFromAt(rows: seq<Row>, size: nat, i: nat, k: nat)
    requires size > 0 && i <= |rows| && k < |PagesFrom(rows, size, i)|
    ensures PagesFrom(rows, size, i)[k] == Slice(rows, i + k * size, size)
    decreases k
  {
    if k > 0 {
      PagesFromAt(rows, size, i + size, k - 1);
      assert k * size == (k - 1) * size + size;
    }
  }

  lemma AtLeastOnce(a: int, d: nat)
    requires a >= 1
    ensures a * d >= d
  {
    assert a * d == (a - 1) * d + d;
    assert (a - 1) * d >= 0;
  }

  lemma Quotient(n: nat, d: nat, q: nat, r: nat)
    requires d > 0 && n == q * d + r && r < d
    ensures n / d == q
  {
    var (q', r') := (n / d, n % d);
    assert n == q' * d + r';
    assert (q - q') * d == q * d - q' * d == r' - r;
    if q > q' {
      AtLeastOnce(q - q', d);
    } else if q < q' {
      AtLeastOnce(q' - q, d);
    }
  }

  lemma DivideOneMore(n: nat, d: nat)
    requires d > 0
    ensures (n + d) / d == n / d + 1
  {
    assert (n / d + 1) * d == n / d * d + d;
    Quotient(n + d, d, n / d + 1, n % d);
  }

  lemma DivideSmall(n: nat, d: nat)
    requires n < d
    ensures n / d == 0
  {
    Quotient(n, d, 0, n);
  }

  // -------------------------------------------------------------------------- by cursor

  datatype CursorPage = CursorPage(nodes: seq<Row>, current: Option<int>, next: Option<int>)

  datatype CursorError = CursorNotFound

  predicate HasCursor(rows: seq<Row>, id: int) {
    exists k :: 0 <= k < |rows| && rows[k].cursor == id
  }

  /** The rows whose cursor comes after this one. */
  function RowsAfter(rows: seq<Row>, id: int): seq<Row> {
    if rows == [] then []
    else (if rows[0].cursor > id then [rows[0]] else []) + RowsAfter(rows[1..], id)
  }

  /** The query builder: `after` and `first` narrow it, `all` runs it. */
  class Cursor {
    const rows: seq<Row>
    var lower: Option<int>
    var limit: Option<nat>

    constructor (rows: seq<Row>)
      ensures this.rows == rows && lower == None && limit == None
    {
      this.rows, lower, limit := rows, None, None;
    }

    method After(id: int)
      modifies this
      ensures lower == Some(id) && limit == old(limit)
    {
      lower := Some(id);
    }

    method First(n: nat)
      modifies this
      ensures limit == Some(n) && lower == old(lower)
    {
      limit := Some(n);
    }

    method All() returns (models: seq<Row>)
      ensures models <= Rest(rows, lower)
      ensures |models| == if limit.Some? then Min(limit.value, |Rest(rows, lower)|) else |Rest(rows, lower)|
    {
      models := Rest(rows, lower);
      if limit.Some? {
        models := Slice(models, 0, limit.value);
      }
    }
  }

  /** The rows a page starts from. */
  function Rest(rows: seq<Row>, after: Option<int>): seq<Row> {
    if after.Some? then RowsAfter(rows, after.value) else rows
  }

  function PageOf(rest: seq<Row>, after: Option<int>, limit: nat): CursorPage {
    var nodes := Slice(rest, 0, limit);
    CursorPage(
      nodes,
      if after.Some? then after else if nodes != [] then Some(nodes[0].cursor) else None,
      if nodes != [] && |nodes| == limit then Some(nodes[|nodes| - 1].cursor) else None)
  }

  function PageAfter(rows: seq<Row>, after: Option<int>, limit: nat): Result<CursorPage, CursorError> {
    if after.Some? && !HasCursor(rows, after.value) then Err(CursorNotFound)
    else Ok(PageOf(Rest(rows, after), after, limit))
  }

  /** `get_paginated_cursor_results`. */
  method GetCursorPage(rows: seq<Row>, after: Option<int>, limit: nat) returns (r: Result<CursorPage, CursorError>)
    ensures r == PageAfter(rows, after, limit)
  {
    var cursor := new Cursor(rows);
    if after.Some? {
      if !HasCursor(rows, after.value) {
        return Err(CursorNotFound);
      }
      cursor.After(after.value);
    }
    cursor.First(limit);
    var models := cursor.All();
    assert models == Slice(Rest(rows, after), 0, limit);
    var current := after;
    if current.None? && models != [] {
      current := Some(models[0].cursor);
    }
    var next := None;
    if models != [] && |models| == limit {
      next := Some(models[|models| - 1].cursor);
    }
    r := Ok(CursorPage(models, current, next));
  }

  /** The rows come in the order of a cursor column without repeats. */
  ghost predicate StrictlySorted(rows: seq<Row>) {
    |rows| >= 2 ==> rows[0].cursor < rows[1].cursor && StrictlySorted(rows[1..])
  }

  /** The rows after the one at `k` are those that follow it. */
  lemma {:induction false} RowsAfterIsSuffix(rows: seq<Row>, k: nat)
    requires StrictlySorted(rows) && k < |rows|
    ensures RowsAfter(rows, rows[k].cursor) == rows[k + 1..]
  {
    FirstIsLeast(rows);
    if k > 0 {
      RowsAfterIsSuffix(rows[1..], k - 1);
    } else {
      AllAfter(rows[1..], rows[0].cursor);
    }
  }

  lemma {:induction false} FirstIsLeast(rows: seq<Row>)
    requires StrictlySorted(rows)
    ensures forall k :: 0 < k < |rows| ==> rows[0].cursor < rows[k].cursor
  {
    if |rows| >= 2 {
      FirstIsLeast(rows[1..]);
      assert forall k :: 0 < k < |rows| ==> rows[k] == rows[1..][k - 1];
    }
  }

  lemma {:induction false} AllAfter(rows: seq<Row>, id: int)
    requires forall k :: 0 <= k < |rows| ==> rows[k].cursor > id
    ensures RowsAfter(rows, id) == rows
  {
    if rows != [] {
      AllAfter(rows[1..], id);
    }
  }

  /** The position a cursor stands for: behind its row. */
  ghost predicate StandsAt(rows: seq<Row>, after: Option<int>, i: nat) {
    && i <= |rows|
    && (i == 0 ==> after == None)
    && (i > 0 ==> after == Some(rows[i - 1].cursor))
  }

  lemma RestFrom(rows: seq<Row>, after: Option<int>, i: nat)
    requires StrictlySorted(rows) && StandsAt(rows, after, i)
    ensures after.Some? ==> HasCursor(rows, after.value)
    ensures Rest(rows, after) == rows[i..]
  {
    if i > 0 {
      assert HasCursor(rows, rows[i - 1].cursor);
      RowsAfterIsSuffix(rows, i - 1);
    } else {
      assert rows[0..] == rows;
    }
  }

  /** What one page shows, when it starts from row `i`. */
  ghost predicate ShowsFrom(rows: seq<Row>, limit: nat, i: nat, page: CursorPage) {
    && i <= |rows|
    && page.nodes == (if i + limit <= |rows| then rows[i..i + limit] else rows[i..])
    && (page.next.Some? <==> i + limit <= |rows|)
    && (page.next.Some? ==> StandsAt(rows, page.next, i + limit))
  }

  lemma PageOfSuffix(rows: seq<Row>, after: Option<int>, limit: nat, i: nat)
    requires limit > 0 && i <= |rows|
    ensures ShowsFrom(rows, limit, i, PageOf(rows[i..], after, limit))
  {
    if i + limit <= |rows| {
      assert rows[i..][0..limit] == rows[i..i + limit];
    } else {
      assert rows[i..][0..|rows| - i] == rows[i..];
    }
  }

  /** One page from a position: where it ends is where the next one starts. */
  lemma PageFrom(rows: seq<Row>, after: Option<int>, limit: nat, i: nat)
    requires StrictlySorted(rows) && limit > 0 && StandsAt(rows, after, i)
    ensures PageAfter(rows, after, limit).Ok?
    ensures ShowsFrom(rows, limit, i, PageAfter(rows, after, limit).value)
    ensures PageAfter(rows, after, limit).value.current ==
      if after.Some? then after else if rows != [] then Some(rows[0].cursor) else None
  {
    RestFrom(rows, after, i);
    PageOfSuffix(rows, after, limit, i);
  }

  /**
   Following the cursors, starting at position `i`. The result is what a client sees.
  */
  ghost function Walk(rows: seq<Row>, after: Option<int>, limit: nat, i: nat): seq<seq<Row>>
    requires StrictlySorted(rows) && limit > 0 && StandsAt(rows, after, i)
    decreases |rows| - i
  {
    PageFrom(rows, after, limit, i);
    var page := PageAfter(rows, after, limit).value;
    if page.next.Some? then [page.nodes] + Walk(rows, page.next, limit, i + limit) else [page.nodes]
  }

  lemma WalkStep(rows: seq<Row>, after: Option<int>, limit: nat, i: nat) returns (next: Option<int>)
    requires StrictlySorted(rows) && limit > 0 && StandsAt(rows, after, i)
    ensures i + limit <= |rows| ==>
      && StandsAt(rows, next, i + limit)
      && Walk(rows, after, limit, i) == [rows[i..i + limit]] + Walk(rows, next, limit, i + limit)
    ensures i + limit > |rows| ==> Walk(rows, after, limit, i) == [rows[i..]]
  {
    PageFrom(rows, after, limit, i);
    next := PageAfter(rows, after, limit).value.next;
  }

  lemma {:induction false} WalkIsPages(rows: seq<Row>, after: Option<int>, limit: nat, i: nat)
    requires StrictlySorted(rows) && limit > 0 && StandsAt(rows, after, i)
    ensures Walk(rows, after, limit, i) == PagesFrom(rows, limit, i)
    decreases |rows| - i
  {
    var next := WalkStep(rows, after, limit, i);
    if i + limit <= |rows| {
      WalkIsPages(rows, next, limit, i + limit);
    }
    PagesFromStep(rows, limit, i);
  }

  lemma PagesFromStep(rows: seq<Row>, size: nat, i: nat)
    requires size > 0 && i <= |rows|
    ensures i + size <= |rows| ==>
      PagesFrom(rows, size, i) == [rows[i..i + size]] + PagesFrom(rows, size, i + size)
    ensures i + size > |rows| ==> PagesFrom(rows, size, i) == [rows[i..]]
  {
  }

  /** Following the cursors from the start ends after exactly n / limit + 1 pages and shows
      every row once, in order. */
  lemma CursorWalkShowsEveryRowOnce(rows: seq<Row>, limit: nat)
    requires StrictlySorted(rows) && limit > 0
    ensures Flatten(Walk(rows, None, limit, 0)) == rows
    ensures |Walk(rows, None, limit, 0)| == |rows| / limit + 1
  {
    WalkIsPages(rows, None, limit, 0);
    PagesFromRebuild(rows, limit, 0);
    PagesFromCount(rows, limit, 0);
    assert rows[0..] == rows;
  }

  // --------------------------------------------------------- the offset pages as a whole

  lemma TotalPagesBounds(count: nat, size: nat, k: nat)
    requires size > 0
    ensures k < TotalPages(count, size) <==> k * size < count
  {
    var total := TotalPages(count, size);
    var left := (count + size - 1) % size;
    assert count + size - 1 == total * size + left;
    if k < total {
      AtLeastOnce(total - k, size);
      assert (total - k) * size == total * size - k * size;
    } else {
      assert (k - total) * size == k * size - total * size;
      assert (k - total) * size >= 0;
    }
  }

  /** The pages 0 to `total` of a numbering. */
  function Pages(rows: seq<Row>, size: nat, zeroBased: bool, total: nat): (r: seq<seq<Row>>)
    ensures |r| == total
    ensures forall k :: 0 <= k < total ==> r[k] == OffsetPage(rows, Page(k, size, zeroBased))
  {
    seq(total, k requires 0 <= k => OffsetPage(rows, Page(k, size, zeroBased)))
  }

  /** What the validator lets through: a page that is numbered from one, or from zero if that is asked for,
      and a size that is not zero. Left out, the size is 20 and the numbering from one. */
  lemma ValidIff(p: OffsetPagination)
    ensures Check(p).None? <==> (p.page >= 1 || p.zeroBased == Some(true)) && p.pageSize != Some(0)
    ensures Check(p) == Some(PageIsZero) <==> p.page == 0 && p.zeroBased != Some(true)
    ensures p.pageSize.None? ==> p.Limit() == 20
    ensures p.pageSize.Some? ==> p.Limit() == p.pageSize.value
  {
  }

  /** On validated input the page info counts the offset as the query does, wrapping included,
      whatever the size and the flag, given or left out. */
  lemma InfoAgreesWithTheQuery(p: OffsetPagination, count: nat)
    requires Check(p).None? && p.IsU64()
    ensures Info(p, count).pageOffset == p.Offset()
    ensures Info(p, count).pageSize == p.Limit() && Info(p, count).zeroBased == p.ZeroBased()
    ensures Info(p, count).totalItems == count && Info(p, count).currentPage == p.page
    ensures forall k: nat :: k < Info(p, count).totalPages <==> k * p.Limit() < count
  {
    forall k: nat ensures k < Info(p, count).totalPages <==> k * p.Limit() < count {
      TotalPagesBounds(count, p.Limit(), k);
    }
  }

  /** A cursor that no row has is an error, whatever the limit, and any other is not. */
  lemma UnknownCursorIff(rows: seq<Row>, after: Option<int>, limit: nat)
    ensures PageAfter(rows, after, limit) == Err(CursorNotFound) <==>
      after.Some? && forall k :: 0 <= k < |rows| ==> rows[k].cursor != after.value
    ensures PageAfter(rows, after, limit).Err? ==> PageAfter(rows, after, limit).error == CursorNotFound
  {
  }

  /** The one-based page `k`, by default or by flag, is the zero-based page `k - 1`, of any size
      and for any 64-bit number. */
  lemma OneBasedIsZeroBased(rows: seq<Row>, k: nat, pageSize: Option<nat>, flag: Option<bool>)
    requires 0 < k < U64 && flag != Some(true)
    ensures
      var (one, zero) := (OffsetPagination(k, pageSize, flag), OffsetPagination(k - 1, pageSize, Some(true)));
      && one.Offset() == zero.Offset() && one.Limit() == zero.Limit()
      && OffsetPage(rows, one) == OffsetPage(rows, zero)
      && (Check(one).None? <==> Check(zero).None?)
  {
  }

  /** On a page that exists the offset does not wrap around, and it is the same in the two
      numberings and in the page info. */
  lemma OffsetOfAnExistingPage(count: nat, size: nat, zeroBased: bool, k: nat)
    requires 0 < size && count < U64 && k < TotalPages(count, size)
    ensures
      var p := Page(k, size, zeroBased);
      && Check(p).None?
      && p.Offset() == k * size < count
      && Info(p, count).pageOffset == p.Offset()
      && Info(p, count).totalPages == TotalPages(count, size)
  {
    TotalPagesBounds(count, size, k);
    AtLeastItself(k, size);
    OffsetThatFits(size, zeroBased, k);
  }

  lemma AtLeastItself(k: nat, d: nat)
    requires d > 0
    ensures k <= k * d
  {
    assert k * d == k * (d - 1) + k;
    assert k * (d - 1) >= 0;
  }

  /**
   The offset pages 1 to `total_pages`, one after the other, are the ordered rows, and so are
   the pages 0 to `total_pages - 1` of the zero-based numbering. They are the pages a cursor
   walk shows, less the empty page the walk ends on when the last page is full.
  */
  lemma OffsetPagesShowEveryRowOnce(rows: seq<Row>, size: nat, zeroBased: bool)
    requires 0 < size && |rows| < U64
    ensures
      var pages := Pages(rows, size, zeroBased, TotalPages(|rows|, size));
      && Flatten(pages) == rows
      && (StrictlySorted(rows) ==>
           Walk(rows, None, size, 0) == pages + if |rows| % size == 0 then [[]] else [])
  {
    if StrictlySorted(rows) {
      WalkIsPages(rows, None, size, 0);
    }
    OffsetPagesAreTheWalk(rows, size, zeroBased);
    PagesFromRebuild(rows, size, 0);
    assert rows[0..] == rows;
    var pages := Pages(rows, size, zeroBased, TotalPages(|rows|, size));
    FlattenWithEmpty(pages);
    assert pages + [] == pages;
  }

  lemma OffsetPagesAreTheWalk(rows: seq<Row>, size: nat, zeroBased: bool)
    requires 0 < size && |rows| < U64
    ensures
      var pages := Pages(rows, size, zeroBased, TotalPages(|rows|, size));
      PagesFrom(rows, size, 0) == pages + if |rows| % size == 0 then [[]] else []
  {
    var total := TotalPages(|rows|, size);
    var walk := PagesFrom(rows, size, 0);
    PagesFromCount(rows, size, 0);
    PagesOrWalk(|rows|, size);
    forall k | 0 <= k < |walk|
      ensures walk[k] == if k < total then OffsetPage(rows, Page(k, size, zeroBased)) else []
    {
      PageOfTheWalk(rows, size, zeroBased, k);
    }
  }

  lemma PageOfTheWalk(rows: seq<Row>, size: nat, zeroBased: bool, k: nat)
    requires 0 < size && |rows| < U64 && k < |PagesFrom(rows, size, 0)|
    ensures PagesFrom(rows, size, 0)[k] ==
      if k < TotalPages(|rows|, size) then OffsetPage(rows, Page(k, size, zeroBased)) else []
  {
    PagesFromAt(rows, size, 0, k);
    if k < TotalPages(|rows|, size) {
      OffsetOfAnExistingPage(|rows|, size, zeroBased, k);
    } else {
      TotalPagesBounds(|rows|, size, k);
    }
  }

  lemma {:induction false} FlattenWithEmpty(pages: seq<seq<Row>>)
    ensures Flatten(pages + [[]]) == Flatten(pages)
  {
    if pages != [] {
      assert (pages + [[]])[1..] == pages[1..] + [[]];
      FlattenWithEmpty(pages[1..]);
    } else {
      assert pages + [[]] == [[]];
    }
  }

  lemma PagesOrWalk(count: nat, size: nat)
    requires size > 0
    ensures count / size + 1 - TotalPages(count, size) == if count % size == 0 then 1 else 0
  {
    var (q, r) := (count / size, count % size);
    assert count == q * size + r;
    if r == 0 {
      Quotient(count + size - 1, size, q, size - 1);
    } else {
      assert (q + 1) * size == q * size + size;
      Quotient(count + size - 1, size, q + 1, r - 1);
    }
  }

  /** Going to the next page and back. There is no previous page exactly on the first one. */
  lemma NextThenPrevious(p: OffsetPagination)
    requires Check(p).None? && p.page + 1 < U64
    ensures p.(page := p.NextPage()).PreviousPage() == Some(p.page)
    ensures p.PreviousPage().None? <==> p.Before() == 0
    ensures p.PreviousPage().Some? ==>
      Check(p.(page := p.PreviousPage().value)).None? && p.(page := p.PreviousPage().value).NextPage() == p.page
  {
  }

  /** A page past the last is empty, whatever the rows, exactly when its offset fits in 64 bits. */
  lemma PastTheLastPageIff(size: nat, zeroBased: bool, k: nat)
    requires 0 < size && k < U64
    ensures
      (forall rows: seq<Row> :: TotalPages(|rows|, size) <= k ==> OffsetPage(rows, Page(k, size, zeroBased)) == [])
      <==> k * size < U64
  {
    if k * size < U64 {
      forall rows: seq<Row> | TotalPages(|rows|, size) <= k ensures OffsetPage(rows, Page(k, size, zeroBased)) == [] {
        TotalPagesBounds(|rows|, size, k);
        OffsetThatFits(size, zeroBased, k);
      }
    } else {
      var offset := Page(k, size, zeroBased).Offset();
      OffsetThatWraps(size, zeroBased, k);
      var rows := seq(offset + 1, _ => Row(0, ""));
      TotalPagesBounds(|rows|, size, k);
      assert OffsetPage(rows, Page(k, size, zeroBased))[0] == rows[offset];
    }
  }

  lemma OffsetThatWraps(size: nat, zeroBased: bool, k: nat)
    requires k < U64 <= k * size
    ensures Page(k, size, zeroBased).Offset() < k * size
  {
    var p := Page(k, size, zeroBased);
    assert p.Before() == k && p.Limit() == size;
    assert Wrap(k) == k;
  }

  lemma OffsetThatFits(size: nat, zeroBased: bool, k: nat)
    requires k < U64 && k * size < U64
    ensures Page(k, size, zeroBased).Offset() == k * size
  {
    var p := Page(k, size, zeroBased);
    assert p.Before() == k && p.Limit() == size;
    assert Wrap(k) == k;
  }

  /** One whose offset does not fit shows rows again: in pages of 16, the page 2^60 pages after
      the first is the first. */
  lemma PageThatWrapsAround(rows: seq<Row>, zeroBased: bool)
    ensures
      var p := Page(0x1000_0000_0000_0000, 16, zeroBased);
      Check(p).None? && OffsetPage(rows, p) == OffsetPage(rows, Page(0, 16, zeroBased))
  {
    var p := Page(0x1000_0000_0000_0000, 16, zeroBased);
    assert Wrap(p.Before()) * p.Limit() == U64;
    assert Page(0, 16, zeroBased).Offset() == 0;
  }
}
