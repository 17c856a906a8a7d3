/**
 The migration that merges `reading_sessions` and `finished_reading_sessions` into one
 table, numbering every (user, media) pair's readthroughs from one.
*/
module ReadingSessions {
  import opened Wrappers

  // ---------------------------------------------------------------- window functions

  /** What `PARTITION BY user_id, media_id` groups on. */
  datatype Shelf = Shelf(userId: string, mediaId: string)

  /** A row as a window function sees it: its partition, and its ORDER BY columns. */
  datatype WindowRow = WindowRow(shelf: Shelf, order: (int, int, int))

  predicate Less(a: (int, int, int), b: (int, int, int)) {
    a.0 < b.0 || (a.0 == b.0 && (a.1 < b.1 || (a.1 == b.1 && a.2 < b.2)))
  }

  /** The rows of a partition. */
  ghost function OnShelf(rows: seq<WindowRow>, shelf: Shelf): set<nat> {
    set i: nat | i < |rows| && rows[i].shelf == shelf
  }

  /** The rows that come before row `i` in its partition. */
  ghost function Before(rows: seq<WindowRow>, i: nat): set<nat>
    requires i < |rows|
  {
    set j: nat | j < |rows| && rows[j].shelf == rows[i].shelf && Less(rows[j].order, rows[i].order)
  }

  /** `ROW_NUMBER() OVER (PARTITION BY ... ORDER BY ...)`. */
  ghost function RowNumber(rows: seq<WindowRow>, i: nat): nat
    requires i < |rows|
  {
    |Before(rows, i)| + 1
  }

  /** Within a partition the ORDER BY columns end in the primary key, so they are a strict
      total order. */
  ghost predicate TotallyOrdered(rows: seq<WindowRow>) {
    forall i, j :: 0 <= i < j < |rows| && rows[i].shelf == rows[j].shelf ==> rows[i].order != rows[j].order
  }

  lemma RowNumberMonotone(rows: seq<WindowRow>, i: nat, j: nat)
    requires i < |rows| && j < |rows| && rows[i].shelf == rows[j].shelf
    requires Less(rows[i].order, rows[j].order)
    ensures RowNumber(rows, i) < RowNumber(rows, j)
  {
    assert i in Before(rows, j) && i !in Before(rows, i);
    SmallerCardinality(Before(rows, i) + {i}, Before(rows, j));
  }

  lemma {:induction false} SmallerCardinality<T>(a: set<T>, b: set<T>)
    requires a <= b
    ensures |a| <= |b|
    ensures |a| == |b| ==> a == b
    decreases |a|
  {
    if x :| x in a {
      SmallerCardinality(a - {x}, b - {x});
      assert b == (b - {x}) + {x};
    }
  }

  lemma RowNumberInRange(rows: seq<WindowRow>, i: nat)
    requires i < |rows|
    ensures 1 <= RowNumber(rows, i) <= |OnShelf(rows, rows[i].shelf)|
  {
    SmallerCardinality(Before(rows, i) + {i}, OnShelf(rows, rows[i].shelf));
  }

  ghost function Numbers(rows: seq<WindowRow>, some: set<nat>): set<nat>
    requires forall i :: i in some ==> i < |rows|
  {
    set i | i in some :: RowNumber(rows, i)
  }

  lemma RowNumbersDiffer(rows: seq<WindowRow>, i: nat, j: nat)
    requires TotallyOrdered(rows) && i < |rows| && j < |rows| && i != j && rows[i].shelf == rows[j].shelf
    ensures RowNumber(rows, i) != RowNumber(rows, j)
  {
    if Less(rows[i].order, rows[j].order) {
      RowNumberMonotone(rows, i, j);
    } else {
      RowNumberMonotone(rows, j, i);
    }
  }

  lemma {:induction false} NumbersCardinality(rows: seq<WindowRow>, shelf: Shelf, some: set<nat>)
    requires TotallyOrdered(rows) && some <= OnShelf(rows, shelf)
    ensures |Numbers(rows, some)| == |some|
    decreases |some|
  {
    if i :| i in some {
      var rest := some - {i};
      NumbersCardinality(rows, shelf, rest);
      assert RowNumber(rows, i) !in Numbers(rows, rest) by {
        forall j | j in rest ensures RowNumber(rows, j) != RowNumber(rows, i) {
          RowNumbersDiffer(rows, i, j);
        }
      }
      NumbersOfOneMore(rows, rest, i);
      assert some == rest + {i};
    }
  }

  lemma NumbersOfOneMore(rows: seq<WindowRow>, some: set<nat>, i: nat)
    requires i < |rows| && forall j :: j in some ==> j < |rows|
    ensures Numbers(rows, some + {i}) == Numbers(rows, some) + {RowNumber(rows, i)}
  {
  }

  /** The set {1, ..., n}. */
  ghost function OneTo(n: nat): set<nat> {
    if n == 0 then {} else OneTo(n - 1) + {n}
  }

  lemma {:induction false} OneToIs(n: nat)
    ensures |OneTo(n)| == n
    ensures forall k: nat :: k in OneTo(n) <==> 1 <= k <= n
  {
    if n > 0 {
      OneToIs(n - 1);
    }
  }

  /** Row number `k` is handed out in the partition. */
  ghost predicate HandedOut(rows: seq<WindowRow>, shelf: Shelf, k: nat) {
    exists i :: i in OnShelf(rows, shelf) && RowNumber(rows, i) == k
  }

  /** A partition of `n` rows is numbered by exactly 1, ..., n: a bijection. */
  lemma RowNumberIsBijection(rows: seq<WindowRow>, shelf: Shelf)
    requires TotallyOrdered(rows)
    ensures forall i, j :: i in OnShelf(rows, shelf) && j in OnShelf(rows, shelf) && i != j ==>
              RowNumber(rows, i) != RowNumber(rows, j)
    ensures forall k: nat :: HandedOut(rows, shelf, k) <==> 1 <= k <= |OnShelf(rows, shelf)|
  {
    var all := OnShelf(rows, shelf);
    forall i, j | i in all && j in all && i != j ensures RowNumber(rows, i) != RowNumber(rows, j) {
      RowNumbersDiffer(rows, i, j);
    }
    NumbersCardinality(rows, shelf, all);
    OneToIs(|all|);
    forall i | i in all ensures RowNumber(rows, i) in OneTo(|all|) {
      RowNumberInRange(rows, i);
    }
    SmallerCardinality(Numbers(rows, all), OneTo(|all|));
    forall k: nat ensures HandedOut(rows, shelf, k) <==> 1 <= k <= |all| {
      assert k in Numbers(rows, all) <==> k in OneTo(|all|);
    }
  }

  // --------------------------------------------------------------------- the tables

  datatype FinishedRow = FinishedRow(
    id: int, shelf: Shelf, startedAt: int, completedAt: int, elapsedSeconds: Option<int>)

  datatype ActiveRow = ActiveRow(
    id: int, shelf: Shelf, startedAt: int, updatedAt: Option<int>,
    page: Option<int>, percentageCompleted: Option<real>, locator: Option<string>,
    epubcfi: Option<string>, koreaderProgress: Option<string>, elapsedSeconds: Option<int>)

  datatype Status = Reading | Finished

  datatype Session = Session(
    shelf: Shelf, sessionDate: int, status: Status, readthroughNumber: nat,
    endPage: Option<int>, startPercentage: real, endPercentage: Option<real>,
    endLocator: Option<string>, epubcfi: Option<string>, koreaderProgress: Option<string>,
    elapsedSeconds: Option<int>, createdAt: int, updatedAt: int)

  /** `DATE(...)` of a timestamp counted in seconds. */
  function DateOf(timestamp: int): int {
    timestamp / 86400
  }

  function FinishedWindow(rows: seq<FinishedRow>): (window: seq<WindowRow>)
    ensures |window| == |rows|
  {
    seq(|rows|, i requires 0 <= i < |rows| =>
      WindowRow(rows[i].shelf, (rows[i].completedAt, rows[i].startedAt, rows[i].id)))
  }

  function ActiveWindow(rows: seq<ActiveRow>): (window: seq<WindowRow>)
    ensures |window| == |rows|
  {
    seq(|rows|, i requires 0 <= i < |rows| => WindowRow(rows[i].shelf, (rows[i].startedAt, rows[i].id, 0)))
  }

  /** `COUNT(*) ... GROUP BY user_id, media_id`, zero for a pair with no group. */
  ghost function FinishedCount(rows: seq<FinishedRow>, shelf: Shelf): nat {
    |OnShelf(FinishedWindow(rows), shelf)|
  }

  ghost predicate UniqueIds(finished: seq<FinishedRow>, active: seq<ActiveRow>) {
    && (forall i, j :: 0 <= i < j < |finished| ==> finished[i].id != finished[j].id)
    && (forall i, j :: 0 <= i < j < |active| ==> active[i].id != active[j].id)
  }

  function FromFinished(row: FinishedRow, number: nat): Session {
    Session(row.shelf, DateOf(row.completedAt), Finished, number, None, 0.0, Some(1.0), None, None, None,
            row.elapsedSeconds, row.startedAt, row.completedAt)
  }

  function FromActive(row: ActiveRow, number: nat): Session {
    var touched := if row.updatedAt.Some? then row.updatedAt.value else row.startedAt;
    Session(row.shelf, DateOf(touched), Reading, number, row.page, 0.0, row.percentageCompleted,
            row.locator, row.epubcfi, row.koreaderProgress, row.elapsedSeconds, row.startedAt, touched)
  }

  /** The number the migration gives the `x`-th new row: finished rows come first. */
  ghost function Readthrough(finished: seq<FinishedRow>, active: seq<ActiveRow>, x: nat): nat
    requires x < |finished| + |active|
  {
    if x < |finished| then RowNumber(FinishedWindow(finished), x)
    else
      var a := x - |finished|;
      FinishedCount(finished, active[a].shelf) + RowNumber(ActiveWindow(active), a)
  }

  ghost function Migrated(finished: seq<FinishedRow>, active: seq<ActiveRow>): (sessions: seq<Session>)
    ensures |sessions| == |finished| + |active|
  {
    seq(|finished| + |active|, x requires 0 <= x < |finished| + |active| =>
      if x < |finished| then FromFinished(finished[x], Readthrough(finished, active, x))
      else FromActive(active[x - |finished|], Readthrough(finished, active, x)))
  }

  // ------------------------------------------------------------------------ theorems

  ghost function SessionsOn(sessions: seq<Session>, shelf: Shelf): set<nat> {
    set x: nat | x < |sessions| && sessions[x].shelf == shelf
  }

  lemma Ordered(finished: seq<FinishedRow>, active: seq<ActiveRow>)
    requires UniqueIds(finished, active)
    ensures TotallyOrdered(FinishedWindow(finished)) && TotallyOrdered(ActiveWindow(active))
  {
  }

  lemma ShelfSize(finished: seq<FinishedRow>, active: seq<ActiveRow>, shelf: Shelf)
    ensures |SessionsOn(Migrated(finished, active), shelf)|
         == FinishedCount(finished, shelf) + |OnShelf(ActiveWindow(active), shelf)|
  {
    var f := OnShelf(FinishedWindow(finished), shelf);
    var a := OnShelf(ActiveWindow(active), shelf);
    ShelfParts(finished, active, shelf);
    ShiftedCardinality(a, |finished|);
    assert f !! set i | i in a :: i + |finished|;
  }

  lemma ShelfParts(finished: seq<FinishedRow>, active: seq<ActiveRow>, shelf: Shelf)
    ensures SessionsOn(Migrated(finished, active), shelf)
         == OnShelf(FinishedWindow(finished), shelf)
            + set i | i in OnShelf(ActiveWindow(active), shelf) :: i + |finished|
  {
    var a := OnShelf(ActiveWindow(active), shelf);
    forall x: nat | x < |finished| + |active|
      ensures Migrated(finished, active)[x].shelf == shelf <==>
        if x < |finished| then x in OnShelf(FinishedWindow(finished), shelf) else x - |finished| in a
    {
    }
  }

  lemma {:induction false} ShiftedCardinality(a: set<nat>, offset: nat)
    ensures |set i | i in a :: i + offset| == |a|
    decreases |a|
  {
    if i :| i in a {
      var rest := a - {i};
      ShiftedCardinality(rest, offset);
      assert (set x | x in a :: x + offset) == (set x | x in rest :: x + offset) + {i + offset} by {
        assert forall x :: x in a <==> x in rest || x == i;
      }
    }
  }

  /** Where the number of a new row comes from. */
  lemma NumberOf(finished: seq<FinishedRow>, active: seq<ActiveRow>, shelf: Shelf, x: nat)
    requires x in SessionsOn(Migrated(finished, active), shelf)
    ensures
      var number := Migrated(finished, active)[x].readthroughNumber;
      var n := FinishedCount(finished, shelf);
      if x < |finished| then
        && x in OnShelf(FinishedWindow(finished), shelf)
        && 1 <= number <= n && number == RowNumber(FinishedWindow(finished), x)
      else
        && x - |finished| in OnShelf(ActiveWindow(active), shelf)
        && n < number <= n + |OnShelf(ActiveWindow(active), shelf)|
        && number == n + RowNumber(ActiveWindow(active), x - |finished|)
  {
    if x < |finished| {
      RowNumberInRange(FinishedWindow(finished), x);
    } else {
      RowNumberInRange(ActiveWindow(active), x - |finished|);
    }
  }

  ghost predicate Numbered(sessions: seq<Session>, shelf: Shelf, k: nat) {
    exists x :: x in SessionsOn(sessions, shelf) && sessions[x].readthroughNumber == k
  }

  /** The readthroughs of each (user, media) are numbered 1, ..., n, none twice, none missing. */
  lemma ReadthroughsAreOneToN(finished: seq<FinishedRow>, active: seq<ActiveRow>, shelf: Shelf)
    requires UniqueIds(finished, active)
    ensures
      var sessions := Migrated(finished, active);
      var mine := SessionsOn(sessions, shelf);
      && (forall x, y :: x in mine && y in mine && x != y ==>
           sessions[x].readthroughNumber != sessions[y].readthroughNumber)
      && (forall k: nat :: Numbered(sessions, shelf, k) <==> 1 <= k <= |mine|)
  {
    var sessions := Migrated(finished, active);
    var mine := SessionsOn(sessions, shelf);
    Ordered(finished, active);
    ShelfSize(finished, active, shelf);
    RowNumberIsBijection(FinishedWindow(finished), shelf);
    RowNumberIsBijection(ActiveWindow(active), shelf);
    forall x, y | x in mine && y in mine && x != y
      ensures sessions[x].readthroughNumber != sessions[y].readthroughNumber
    {
      NumberOf(finished, active, shelf, x);
      NumberOf(finished, active, shelf, y);
    }
    forall k: nat ensures Numbered(sessions, shelf, k) <==> 1 <= k <= |mine| {
      if 1 <= k <= |mine| {
        NumberIsUsed(finished, active, shelf, k);
      }
      forall x | x in mine && sessions[x].readthroughNumber == k ensures 1 <= k <= |mine| {
        NumberOf(finished, active, shelf, x);
      }
    }
  }

  lemma NumberIsUsed(finished: seq<FinishedRow>, active: seq<ActiveRow>, shelf: Shelf, k: nat)
    requires UniqueIds(finished, active)
    requires 1 <= k <= |SessionsOn(Migrated(finished, active), shelf)|
    ensures Numbered(Migrated(finished, active), shelf, k)
  {
    var sessions := Migrated(finished, active);
    var fw := FinishedWindow(finished);
    var aw := ActiveWindow(active);
    var n := FinishedCount(finished, shelf);
    Ordered(finished, active);
    ShelfSize(finished, active, shelf);
    if k <= n {
      RowNumberIsBijection(fw, shelf);
      assert HandedOut(fw, shelf, k);
      var i :| i in OnShelf(fw, shelf) && RowNumber(fw, i) == k;
      assert i in SessionsOn(sessions, shelf) && sessions[i].readthroughNumber == k;
    } else {
      RowNumberIsBijection(aw, shelf);
      assert HandedOut(aw, shelf, k - n);
      var i :| i in OnShelf(aw, shelf) && RowNumber(aw, i) == k - n;
      var x := i + |finished|;
      assert x in SessionsOn(sessions, shelf) && sessions[x].readthroughNumber == k;
    }
  }

  /** Finished rows are numbered by (completed_at, started_at, id), active ones by
      (started_at, id), and every active row after every finished one. */
  lemma NumbersFollowTheReading(finished: seq<FinishedRow>, active: seq<ActiveRow>, x: nat, y: nat)
    requires UniqueIds(finished, active)
    requires x < |finished| + |active| && y < |finished| + |active|
    requires Migrated(finished, active)[x].shelf == Migrated(finished, active)[y].shelf
    ensures
      var sessions := Migrated(finished, active);
      && (x < |finished| && y < |finished| ==>
           (Less((finished[x].completedAt, finished[x].startedAt, finished[x].id),
                 (finished[y].completedAt, finished[y].startedAt, finished[y].id))
            <==> sessions[x].readthroughNumber < sessions[y].readthroughNumber))
      && (|finished| <= x && |finished| <= y ==>
           (Less((active[x - |finished|].startedAt, active[x - |finished|].id, 0),
                 (active[y - |finished|].startedAt, active[y - |finished|].id, 0))
            <==> sessions[x].readthroughNumber < sessions[y].readthroughNumber))
      && (sessions[x].status == Finished && sessions[y].status == Reading ==>
           sessions[x].readthroughNumber < sessions[y].readthroughNumber)
  {
    var fw := FinishedWindow(finished);
    var aw := ActiveWindow(active);
    Ordered(finished, active);
    if x < |finished| && y < |finished| {
      if Less(fw[x].order, fw[y].order) {
        RowNumberMonotone(fw, x, y);
      } else if x != y {
        RowNumberMonotone(fw, y, x);
      }
    } else if |finished| <= x && |finished| <= y {
      if Less(aw[x - |finished|].order, aw[y - |finished|].order) {
        RowNumberMonotone(aw, x - |finished|, y - |finished|);
      } else if x != y {
        RowNumberMonotone(aw, y - |finished|, x - |finished|);
      }
    } else if x < |finished| {
      RowNumberInRange(fw, x);
    }
  }

  /** Column by column, what a finished row becomes: read to the end on the day it was completed, with
      nothing known of where. */
  lemma FinishedSession(finished: seq<FinishedRow>, active: seq<ActiveRow>, x: nat)
    requires x < |finished|
    ensures
      var (row, session) := (finished[x], Migrated(finished, active)[x]);
      && session.shelf == row.shelf && session.status == Finished && session.elapsedSeconds == row.elapsedSeconds
      && session.createdAt == row.startedAt && session.updatedAt == row.completedAt
      && session.sessionDate * 86400 <= row.completedAt < (session.sessionDate + 1) * 86400
      && session.startPercentage == 0.0 && session.endPercentage == Some(1.0)
      && session.endPage.None? && session.endLocator.None?
      && session.epubcfi.None? && session.koreaderProgress.None?
  {
  }

  /** And an active row: where it stands, dated by its last update or else its start. */
  lemma ActiveSession(finished: seq<FinishedRow>, active: seq<ActiveRow>, x: nat)
    requires x < |active|
    ensures
      var (row, session) := (active[x], Migrated(finished, active)[|finished| + x]);
      && session.shelf == row.shelf && session.status == Reading && session.elapsedSeconds == row.elapsedSeconds
      && session.createdAt == row.startedAt
      && (row.updatedAt.Some? ==> session.updatedAt == row.updatedAt.value)
      && (row.updatedAt.None? ==> session.updatedAt == row.startedAt)
      && session.sessionDate * 86400 <= session.updatedAt < (session.sessionDate + 1) * 86400
      && session.startPercentage == 0.0 && session.endPercentage == row.percentageCompleted
      && session.endPage == row.page && session.endLocator == row.locator
      && session.epubcfi == row.epubcfi && session.koreaderProgress == row.koreaderProgress
  {
  }

  /** The seconds read on a shelf. */
  function Seconds(elapsed: Option<int>): int {
    if elapsed.Some? then elapsed.value else 0
  }

  ghost function FinishedSeconds(rows: seq<FinishedRow>, shelf: Shelf): int {
    if rows == [] then 0
    else (if rows[0].shelf == shelf then Seconds(rows[0].elapsedSeconds) else 0) + FinishedSeconds(rows[1..], shelf)
  }

  ghost function ActiveSeconds(rows: seq<ActiveRow>, shelf: Shelf): int {
    if rows == [] then 0
    else (if rows[0].shelf == shelf then Seconds(rows[0].elapsedSeconds) else 0) + ActiveSeconds(rows[1..], shelf)
  }

  ghost function SessionSeconds(rows: seq<Session>, shelf: Shelf): int {
    if rows == [] then 0
    else (if rows[0].shelf == shelf then Seconds(rows[0].elapsedSeconds) else 0) + SessionSeconds(rows[1..], shelf)
  }

  lemma {:induction false} SecondsOfFinishedPart(sessions: seq<Session>, finished: seq<FinishedRow>, shelf: Shelf)
    requires |finished| <= |sessions|
    requires forall i :: 0 <= i < |finished| ==>
               sessions[i].shelf == finished[i].shelf && sessions[i].elapsedSeconds == finished[i].elapsedSeconds
    ensures SessionSeconds(sessions, shelf)
         == FinishedSeconds(finished, shelf) + SessionSeconds(sessions[|finished|..], shelf)
  {
    if finished != [] {
      SecondsOfFinishedPart(sessions[1..], finished[1..], shelf);
      assert sessions[1..][|finished[1..]|..] == sessions[|finished|..];
    } else {
      assert sessions[|finished|..] == sessions;
    }
  }

  lemma {:induction false} SecondsOfActivePart(sessions: seq<Session>, active: seq<ActiveRow>, shelf: Shelf)
    requires |active| == |sessions|
    requires forall i :: 0 <= i < |active| ==>
               sessions[i].shelf == active[i].shelf && sessions[i].elapsedSeconds == active[i].elapsedSeconds
    ensures SessionSeconds(sessions, shelf) == ActiveSeconds(active, shelf)
  {
    if active != [] {
      SecondsOfActivePart(sessions[1..], active[1..], shelf);
    }
  }

  /** No reading time is lost or counted twice, user by user and book by book. */
  lemma ReadingTimeIsConserved(finished: seq<FinishedRow>, active: seq<ActiveRow>, shelf: Shelf)
    ensures SessionSeconds(Migrated(finished, active), shelf)
         == FinishedSeconds(finished, shelf) + ActiveSeconds(active, shelf)
  {
    var sessions := Migrated(finished, active);
    SecondsOfFinishedPart(sessions, finished, shelf);
    var rest := sessions[|finished|..];
    forall i | 0 <= i < |active|
      ensures rest[i].shelf == active[i].shelf && rest[i].elapsedSeconds == active[i].elapsedSeconds
    {
      assert rest[i] == sessions[|finished| + i];
    }
    SecondsOfActivePart(rest, active, shelf);
  }

  // ------------------------------------------------------------------- the migration

  /** How many of the first `n` rows are on a shelf. */
  function CountIn(rows: seq<FinishedRow>, n: nat, shelf: Shelf): nat
    requires n <= |rows|
  {
    if n == 0 then 0 else CountIn(rows, n - 1, shelf) + if rows[n - 1].shelf == shelf then 1 else 0
  }

  lemma {:induction false} CountInIsSize(rows: seq<FinishedRow>, n: nat, shelf: Shelf)
    requires n <= |rows|
    ensures CountIn(rows, n, shelf) == |set x: nat | x < n && rows[x].shelf == shelf|
  {
    if n > 0 {
      CountInIsSize(rows, n - 1, shelf);
      OneMoreOnShelf(rows, n - 1, shelf);
    }
  }

  lemma OneMoreOnShelf(rows: seq<FinishedRow>, n: nat, shelf: Shelf)
    requires n < |rows|
    ensures |set x: nat | x < n + 1 && rows[x].shelf == shelf|
         == |set x: nat | x < n && rows[x].shelf == shelf| + if rows[n].shelf == shelf then 1 else 0
  {
    var had := set x: nat | x < n && rows[x].shelf == shelf;
    var has := set x: nat | x < n + 1 && rows[x].shelf == shelf;
    assert has == if rows[n].shelf == shelf then had + {n} else had;
  }

  class Database {
    var finished: seq<FinishedRow>
    var active: seq<ActiveRow>
    var sessions: seq<Session>

    /** The window function, evaluated for one row: the rows before it are counted. */
    static method CountBefore(rows: seq<WindowRow>, i: nat) returns (number: nat)
      requires i < |rows|
      ensures number == RowNumber(rows, i)
    {
      var count := 0;
      ghost var seen: set<nat> := {};
      for j := 0 to |rows|
        invariant seen == set x: nat | x < j && x in Before(rows, i)
        invariant count == |seen|
      {
        if rows[j].shelf == rows[i].shelf && Less(rows[j].order, rows[i].order) {
          count := count + 1;
          seen := seen + {j};
        }
      }
      assert seen == Before(rows, i);
      number := count + 1;
    }

    /** The joined subquery: how many finished rows each pair has. */
    static method GroupCounts(rows: seq<FinishedRow>) returns (counts: map<Shelf, nat>)
      ensures forall shelf :: (if shelf in counts then counts[shelf] else 0) == FinishedCount(rows, shelf)
    {
      counts := map[];
      for i := 0 to |rows|
        invariant forall shelf :: (if shelf in counts then counts[shelf] else 0) == CountIn(rows, i, shelf)
      {
        var shelf := rows[i].shelf;
        var already := if shelf in counts then counts[shelf] else 0;
        counts := counts[shelf := already + 1];
      }
      forall shelf ensures CountIn(rows, |rows|, shelf) == FinishedCount(rows, shelf) {
        CountInIsSize(rows, |rows|, shelf);
        assert OnShelf(FinishedWindow(rows), shelf) == set x: nat | x < |rows| && rows[x].shelf == shelf;
      }
    }

    /** `up`: both legacy tables are renamed away, read by the two backfills, and dropped. */
    method Up()
      modifies this
      ensures sessions == Migrated(old(finished), old(active))
      ensures finished == [] && active == []
    {
      var finishedLegacy, readingLegacy := finished, active;
      sessions := [];
      var window := FinishedWindow(finishedLegacy);
      for i := 0 to |finishedLegacy|
        invariant finished == old(finished) && active == old(active)
        invariant sessions == Migrated(finishedLegacy, readingLegacy)[..i]
      {
        var number := CountBefore(window, i);
        sessions := sessions + [FromFinished(finishedLegacy[i], number)];
      }
      var counts := GroupCounts(finishedLegacy);
      window := ActiveWindow(readingLegacy);
      for i := 0 to |readingLegacy|
        invariant finished == old(finished) && active == old(active)
        invariant sessions == Migrated(finishedLegacy, readingLegacy)[..|finishedLegacy| + i]
      {
        var number := CountBefore(window, i);
        var shelf := readingLegacy[i].shelf;
        var finishedCount := if shelf in counts then counts[shelf] else 0;
        sessions := sessions + [FromActive(readingLegacy[i], finishedCount + number)];
      }
      finished, active := [], [];
    }
  }
}
