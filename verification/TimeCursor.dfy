/** ClickHouse cursor pagination on a timestamp column, which need not be unique. */
module TimeCursor {
  import opened Optional
  import opened Traversal

  datatype Row = Row(ts: int, id: int)

  datatype TimeOpts = TimeOpts(cursor: Option<int>, prev: bool, limit: int, sortAsc: bool)

  datatype TimeResult = TimeResult(
    items: seq<Row>, nextCursor: Option<int>, prevCursor: Option<int>, hasNext: bool, hasPrevious: bool)

  const DEFAULT_LIMIT: nat := 20
  const MAX_PER_PAGE: nat := 300

  function LimitFor(opts: Option<TimeOpts>): (n: nat)
    ensures 1 <= n <= MAX_PER_PAGE
  {
    if opts.Some? && 0 < opts.value.limit <= MAX_PER_PAGE then opts.value.limit else DEFAULT_LIMIT
  }

  /** The rows whose timestamp is strictly greater, or strictly less, than the cursor. */
  function Compared(rows: seq<Row>, greater: bool, c: int): seq<Row> {
    if rows == [] then []
    else if (if greater then rows[0].ts > c else rows[0].ts < c) then [rows[0]] + Compared(rows[1..], greater, c)
    else Compared(rows[1..], greater, c)
  }

  /** ORDER BY keeps its direction; only the comparison follows the paging direction. */
  function Fetched(rows: seq<Row>, opts: Option<TimeOpts>): seq<Row> {
    if opts.None? || opts.value.cursor.None? then rows
    else Compared(rows, opts.value.prev != opts.value.sortAsc, opts.value.cursor.value)
  }

  function ResultOf(fetched: seq<Row>, opts: Option<TimeOpts>): TimeResult {
    var limit := LimitFor(opts);
    var items := Take(fetched, limit);
    var more := |fetched| > limit;
    var hadCursor := opts.Some? && opts.value.cursor.Some?;
    if items == [] then TimeResult([], None, None, false, false)
    else
      var prev := opts.Some? && opts.value.prev;
      TimeResult(items, Some(items[|items| - 1].ts), Some(items[0].ts),
                 if prev then hadCursor else more, if prev then more else hadCursor)
  }

  /** rows: what passes the caller's filters, in the ORDER BY order of the request. */
  method FindByCursor(rows: seq<Row>, opts: Option<TimeOpts>) returns (r: TimeResult)
    ensures r == ResultOf(Fetched(rows, opts), opts)
  {
    var found := rows;
    if opts.Some? && opts.value.cursor.Some? {
      var greater;
      if opts.value.prev {
        greater := !opts.value.sortAsc;
      } else {
        greater := opts.value.sortAsc;
      }
      found := Compared(rows, greater, opts.value.cursor.value);
    }
    assert found == Fetched(rows, opts);
    r := BuildResult(found, opts);
  }

  /** Limit, scan, trim, and set flags and cursors. */
  method BuildResult(found: seq<Row>, opts: Option<TimeOpts>) returns (r: TimeResult)
    ensures r == ResultOf(found, opts)
  {
    var limit := DEFAULT_LIMIT;
    if opts.Some? && opts.value.limit > 0 && opts.value.limit <= MAX_PER_PAGE {
      limit := opts.value.limit;
    }
    var items := ScanRows(Take(found, limit + 1));
    var hasMore := |items| > limit;
    if hasMore {
      items := items[..limit];
    }
    assert items == Take(found, limit);
    r := TimeResult(items, None, None, false, false);
    if |items| > 0 {
      var first, last := items[0].ts, items[|items| - 1].ts;
      if opts.Some? && opts.value.prev {
        r := TimeResult(items, Some(last), Some(first), opts.value.cursor.Some?, hasMore);
      } else {
        r := TimeResult(items, Some(last), Some(first), hasMore, opts.Some? && opts.value.cursor.Some?);
      }
    }
  }

  method ScanRows(rows: seq<Row>) returns (items: seq<Row>)
    ensures items == rows
  {
    items := [];
    for i := 0 to |rows|
      invariant items == rows[..i]
    {
      items := items + [rows[i]];
    }
  }

  // ------------------------------------------------------------- main results

  predicate NotAfter(asc: bool, a: int, b: int) {
    if asc then a <= b else b <= a
  }

  /** Sorted as requested, possibly with equal timestamps. */
  predicate SortedByTime(asc: bool, rows: seq<Row>) {
    |rows| <= 1 || (NotAfter(asc, rows[0].ts, rows[1].ts) && SortedByTime(asc, rows[1..]))
  }

  /** A client going forward while HasNext holds. */
  function NextPage(rows: seq<Row>, asc: bool, limit: nat, cursor: Option<int>): Slice<Row, Option<int>> {
    var opts := Some(TimeOpts(cursor, false, limit, asc));
    var page := ResultOf(Fetched(rows, opts), opts);
    Slice(page.items, if page.hasNext then Some(page.nextCursor) else None)
  }

  /** No page boundary from lo on falls between two rows with equal timestamps. */
  predicate Unsplit(rows: seq<Row>, lo: nat, limit: nat)
    requires limit >= 1
    decreases |rows| - lo
  {
    lo + limit < |rows| ==>
      rows[lo + limit - 1].ts != rows[lo + limit].ts && Unsplit(rows, lo + limit, limit)
  }

  /** Index of the first row beyond a timestamp. */
  function SkipTo(asc: bool, rows: seq<Row>, c: int): (k: nat)
    ensures k <= |rows|
  {
    if rows == [] || (if asc then rows[0].ts > c else rows[0].ts < c) then 0
    else 1 + SkipTo(asc, rows[1..], c)
  }

  lemma {:induction false} AllCompared(asc: bool, rows: seq<Row>, c: int)
    requires SortedByTime(asc, rows) && (rows != [] ==> if asc then rows[0].ts > c else rows[0].ts < c)
    ensures Compared(rows, asc, c) == rows
  {
    if rows == [] {
    } else {
      AllCompared(asc, rows[1..], c);
    }
  }

  lemma {:induction false} ComparedIsSuffix(asc: bool, rows: seq<Row>, c: int)
    requires SortedByTime(asc, rows)
    ensures Compared(rows, asc, c) == rows[SkipTo(asc, rows, c)..]
  {
    if rows == [] {
    } else {
      if (if asc then rows[0].ts > c else rows[0].ts < c) {
        AllCompared(asc, rows, c);
      } else {
        ComparedIsSuffix(asc, rows[1..], c);
        assert rows[1..][SkipTo(asc, rows[1..], c)..] == rows[1 + SkipTo(asc, rows[1..], c)..];
      }
    }
  }

  /** From the timestamp of row hi-1 the next page starts at hi or, when row hi has the same
      timestamp, beyond it. */
  lemma {:induction false} SkipFrom(asc: bool, rows: seq<Row>, hi: nat)
    requires SortedByTime(asc, rows) && 1 <= hi < |rows|
    ensures
      var k := SkipTo(asc, rows, rows[hi - 1].ts);
      k >= hi && (k == hi <==> rows[hi - 1].ts != rows[hi].ts)
  {
    if hi > 1 {
      SkipFrom(asc, rows[1..], hi - 1);
    } else {
      assert SkipTo(asc, rows, rows[0].ts) == 1 + SkipTo(asc, rows[1..], rows[0].ts);
    }
  }

  /** The cursor leaves exactly the rows from lo on. */
  predicate LeavesFrom(rows: seq<Row>, asc: bool, cursor: Option<int>, lo: nat) {
    lo <= |rows| && (if cursor.None? then rows else Compared(rows, asc, cursor.value)) == rows[lo..]
  }

  /** The page that the rows from lo on make. */
  predicate PageOf(s: Slice<Row, Option<int>>, rows: seq<Row>, limit: nat, lo: nat)
    requires lo <= |rows| && limit >= 1
  {
    && s.items == rows[lo..Min(lo + limit, |rows|)]
    && s.next == if lo + limit < |rows| then Some(Some(rows[lo + limit - 1].ts)) else None
  }

  lemma PageFrom(rows: seq<Row>, asc: bool, limit: nat, cursor: Option<int>, lo: nat)
    requires 1 <= limit <= MAX_PER_PAGE && LeavesFrom(rows, asc, cursor, lo)
    ensures PageOf(NextPage(rows, asc, limit, cursor), rows, limit, lo)
  {
    var opts := Some(TimeOpts(cursor, false, limit, asc));
    assert Fetched(rows, opts) == rows[lo..];
    ResultOfSuffix(rows, lo, opts);
  }

  lemma ResultOfSuffix(rows: seq<Row>, lo: nat, opts: Option<TimeOpts>)
    requires opts.Some? && !opts.value.prev && lo <= |rows|
    ensures
      var limit := LimitFor(opts);
      var page := ResultOf(rows[lo..], opts);
      && page.items == rows[lo..Min(lo + limit, |rows|)]
      && page.hasNext == (lo + limit < |rows|)
      && (page.hasNext ==> page.nextCursor == Some(rows[lo + limit - 1].ts))
  {
  }

  function Starts(rows: seq<Row>, asc: bool): (s: seq<nat>)
    ensures |s| == |rows|
  {
    seq(|rows|, hi requires 0 <= hi < |rows| => if hi == 0 then 0 else SkipTo(asc, rows, rows[hi - 1].ts))
  }

  lemma NextStart(rows: seq<Row>, asc: bool, hi: nat)
    requires SortedByTime(asc, rows) && 1 <= hi < |rows|
    ensures
      var k := Starts(rows, asc)[hi];
      && hi <= k && LeavesFrom(rows, asc, Some(rows[hi - 1].ts), k)
      && (k == hi <==> rows[hi - 1].ts != rows[hi].ts)
  {
    SkipFrom(asc, rows, hi);
    ComparedIsSuffix(asc, rows, rows[hi - 1].ts);
  }

  lemma FollowUnfolds(rows: seq<Row>, limit: nat, fetch: Option<int> -> Slice<Row, Option<int>>, cursor: Option<int>,
                      lo: nat, fuel: nat)
    requires limit >= 1 && lo <= |rows| && PageOf(fetch(cursor), rows, limit, lo) && fuel >= |rows| - lo
    ensures lo + limit < |rows| ==>
      Follow(fetch, cursor, fuel) == rows[lo..lo + limit] + Follow(fetch, Some(rows[lo + limit - 1].ts), fuel - 1)
    ensures lo + limit >= |rows| ==> Follow(fetch, cursor, fuel) == rows[lo..]
  {
  }

  /** The page after one ending at hi starts at k: right there, or beyond if a tie is split. */
  predicate GoodStart(rows: seq<Row>, hi: nat, k: nat)
    requires 0 < hi < |rows|
  {
    hi <= k <= |rows| && (k == hi <==> rows[hi - 1].ts != rows[hi].ts)
  }

  function EndTime(rows: seq<Row>, hi: nat): Option<int>
    requires 0 < hi <= |rows|
  {
    Some(rows[hi - 1].ts)
  }

  /** Standing at a position, the fetch shows the page there; after a page ending at hi, its
      cursor stands at starts[hi]. */
  ghost predicate Walks(rows: seq<Row>, limit: nat, fetch: Option<int> -> Slice<Row, Option<int>>,
                        at: (Option<int>, nat) -> bool, starts: seq<nat>)
    requires limit >= 1
  {
    && |starts| == |rows|
    && (forall c, lo: nat :: at(c, lo) ==> lo <= |rows| && PageOf(fetch(c), rows, limit, lo))
    && (forall hi :: 0 < hi < |rows| ==> at(EndTime(rows, hi), starts[hi]) && GoodStart(rows, hi, starts[hi]))
  }

  lemma {:induction false} FollowFrom(
    rows: seq<Row>, limit: nat, fetch: Option<int> -> Slice<Row, Option<int>>,
    at: (Option<int>, nat) -> bool, starts: seq<nat>, cursor: Option<int>, lo: nat, fuel: nat)
    requires limit >= 1 && Walks(rows, limit, fetch, at, starts)
    requires at(cursor, lo) && fuel >= |rows| - lo
    ensures |Follow(fetch, cursor, fuel)| <= |rows| - lo
    ensures Follow(fetch, cursor, fuel) == rows[lo..] <==> Unsplit(rows, lo, limit)
    decreases fuel
  {
    var hi := lo + limit;
    FollowUnfolds(rows, limit, fetch, cursor, lo, fuel);
    if hi >= |rows| {
    } else {
      var next := EndTime(rows, hi);
      FollowFrom(rows, limit, fetch, at, starts, next, starts[hi], fuel - 1);
      StepDecides(rows, lo, hi, starts[hi], rows[lo..hi], Follow(fetch, next, fuel - 1));
    }
  }

  /** A page followed by the rest is everything from lo on only if the rest starts where the page ends. */
  lemma StepDecides(rows: seq<Row>, lo: nat, hi: nat, k: nat, items: seq<Row>, rest: seq<Row>)
    requires lo <= hi <= k <= |rows| && items == rows[lo..hi] && |rest| <= |rows| - k
    ensures |items + rest| <= |rows| - lo
    ensures items + rest == rows[lo..] <==> k == hi && rest == rows[k..]
  {
  }

  /** Following the time cursor forward returns every row, once and in order, if and only if no
      page boundary separates two rows with equal timestamps; otherwise rows are lost. */
  lemma TimeTraversalIsCompleteIff(rows: seq<Row>, asc: bool, limit: nat, fuel: nat)
    requires SortedByTime(asc, rows) && 1 <= limit <= MAX_PER_PAGE && fuel >= |rows|
    ensures Follow((c: Option<int>) => NextPage(rows, asc, limit, c), None, fuel) == rows <==> Unsplit(rows, 0, limit)
  {
    var fetch := (c: Option<int>) => NextPage(rows, asc, limit, c);
    var at := (c: Option<int>, lo: nat) => LeavesFrom(rows, asc, c, lo);
    var starts := Starts(rows, asc);
    forall c, lo: nat | at(c, lo) ensures lo <= |rows| && PageOf(fetch(c), rows, limit, lo) {
      PageFrom(rows, asc, limit, c, lo);
    }
    forall hi | 0 < hi < |rows|
      ensures at(EndTime(rows, hi), starts[hi]) && GoodStart(rows, hi, starts[hi])
    {
      NextStart(rows, asc, hi);
    }
    assert rows[0..] == rows;
    FollowFrom(rows, limit, fetch, at, starts, None, 0, fuel);
  }

  lemma {:induction false} DistinctIsUnsplit(rows: seq<Row>, lo: nat, limit: nat)
    requires limit >= 1 && forall i :: 0 <= i < |rows| - 1 ==> rows[i].ts != rows[i + 1].ts
    ensures Unsplit(rows, lo, limit)
    decreases |rows| - lo
  {
    if lo + limit >= |rows| {
    } else {
      DistinctIsUnsplit(rows, lo + limit, limit);
    }
  }

  /** Distinct timestamps make every limit safe. */
  lemma DistinctTimesTraverseAll(rows: seq<Row>, asc: bool, limit: nat, fuel: nat)
    requires SortedByTime(asc, rows) && 1 <= limit <= MAX_PER_PAGE && fuel >= |rows|
    requires forall i, j :: 0 <= i < j < |rows| ==> rows[i].ts != rows[j].ts
    ensures Follow((c: Option<int>) => NextPage(rows, asc, limit, c), None, fuel) == rows
  {
    DistinctIsUnsplit(rows, 0, limit);
    TimeTraversalIsCompleteIff(rows, asc, limit, fuel);
  }

  /** For example two rows with one timestamp, one to a page: the second is never returned. */
  lemma TieLosesRow(a: Row, b: Row, asc: bool)
    requires a.ts == b.ts
    ensures Follow((c: Option<int>) => NextPage([a, b], asc, 1, c), None, 2) == [a]
  {
    var rows, fetch := [a, b], (c: Option<int>) => NextPage([a, b], asc, 1, c);
    assert rows[1..] == [b] && rows[1..][1..] == [] && rows[0..] == rows && rows[2..] == [];
    assert Compared(rows, asc, a.ts) == Compared(rows[1..], asc, a.ts) == Compared(rows[1..][1..], asc, a.ts) == [];
    PageFrom(rows, asc, 1, None, 0);
    PageFrom(rows, asc, 1, Some(a.ts), 2);
    FollowUnfolds(rows, 1, fetch, None, 0, 2);
    FollowUnfolds(rows, 1, fetch, Some(a.ts), 2, 1);
    assert [a] + [] == [a];
  }

  /** A limit from 1 to 300 is used as asked for; any other, or none, is 20. */
  lemma LimitIsUsed(opts: Option<TimeOpts>)
    ensures opts.Some? && 1 <= opts.value.limit <= 300 ==> LimitFor(opts) == opts.value.limit
    ensures opts.None? || opts.value.limit < 1 || opts.value.limit > 300 ==> LimitFor(opts) == 20
  {
  }

  /** In either direction the cursors are the timestamps of the first and the last row shown; an empty
      page has none, and no flags. */
  lemma CursorsAreEnds(fetched: seq<Row>, opts: Option<TimeOpts>)
    ensures
      var page := ResultOf(fetched, opts);
      && (page.items == [] ==> page.nextCursor == None && page.prevCursor == None && !page.hasNext && !page.hasPrevious)
      && (page.items != [] ==>
            && page.nextCursor == Some(page.items[|page.items| - 1].ts)
            && page.prevCursor == Some(page.items[0].ts))
      && page.items == if |fetched| <= LimitFor(opts) then fetched else fetched[..LimitFor(opts)]
  {
  }

  // ---------------------------------------------------------------------- flags

  /** The first row a forward page shows. */
  function StartOf(rows: seq<Row>, asc: bool, cursor: Option<int>): (lo: nat)
    ensures lo <= |rows|
  {
    if cursor.None? then 0 else SkipTo(asc, rows, cursor.value)
  }

  /** Going forward the flags tell the truth about the rows before and after the page if and only if
      the page is not empty and a cursor was given exactly when rows lie before it, or there are no
      rows at all. */
  lemma ForwardFlagsAreTruthfulIff(rows: seq<Row>, asc: bool, limit: nat, cursor: Option<int>)
    requires SortedByTime(asc, rows)
    ensures
      var opts := Some(TimeOpts(cursor, false, limit, asc));
      var page, lo := ResultOf(Fetched(rows, opts), opts), StartOf(rows, asc, cursor);
      page.hasNext == (lo + LimitFor(opts) < |rows|) && page.hasPrevious == (lo > 0) <==>
      if lo < |rows| then cursor.Some? == (lo > 0) else rows == []
  {
    var opts := Some(TimeOpts(cursor, false, limit, asc));
    if cursor.Some? {
      ComparedIsSuffix(asc, rows, cursor.value);
    }
    assert Fetched(rows, opts) == rows[StartOf(rows, asc, cursor)..];
    ResultOfSuffix(rows, StartOf(rows, asc, cursor), opts);
  }

  /** How many rows come strictly before a timestamp in sort order. */
  function Leading(asc: bool, rows: seq<Row>, c: int): (k: nat)
    ensures k <= |rows|
  {
    if rows == [] || !(if asc then rows[0].ts < c else rows[0].ts > c) then 0
    else 1 + Leading(asc, rows[1..], c)
  }

  lemma {:induction false} NoneCompared(asc: bool, rows: seq<Row>, c: int)
    requires SortedByTime(asc, rows) && (rows != [] ==> !(if asc then rows[0].ts < c else rows[0].ts > c))
    ensures Compared(rows, !asc, c) == []
  {
    if rows == [] {
    } else {
      NoneCompared(asc, rows[1..], c);
    }
  }

  lemma {:induction false} ComparedIsPrefix(asc: bool, rows: seq<Row>, c: int)
    requires SortedByTime(asc, rows)
    ensures Compared(rows, !asc, c) == rows[..Leading(asc, rows, c)]
  {
    if rows == [] || !(if asc then rows[0].ts < c else rows[0].ts > c) {
      NoneCompared(asc, rows, c);
    } else {
      ComparedIsPrefix(asc, rows[1..], c);
    }
  }

  /** Going back, only the comparison flips: the page is the head of the rows before the cursor. */
  lemma PreviousIsHead(rows: seq<Row>, asc: bool, limit: nat, c: int)
    requires SortedByTime(asc, rows)
    ensures
      var opts := Some(TimeOpts(Some(c), true, limit, asc));
      ResultOf(Fetched(rows, opts), opts).items == Take(rows[..Leading(asc, rows, c)], LimitFor(opts))
  {
    ComparedIsPrefix(asc, rows, c);
  }

  /** So, the rows being distinct, it is the preceding page if and only if at most one page of rows
      comes before the cursor. */
  lemma PreviousIsPrecedingPageIff(rows: seq<Row>, asc: bool, limit: nat, c: int)
    requires SortedByTime(asc, rows)
    requires forall i, j :: 0 <= i < j < |rows| ==> rows[i] != rows[j]
    ensures
      var opts := Some(TimeOpts(Some(c), true, limit, asc));
      var cut, n := Leading(asc, rows, c), LimitFor(opts);
      ResultOf(Fetched(rows, opts), opts).items == rows[(if cut >= n then cut - n else 0)..cut] <==> cut <= n
  {
    var opts := Some(TimeOpts(Some(c), true, limit, asc));
    var cut, n := Leading(asc, rows, c), LimitFor(opts);
    PreviousIsHead(rows, asc, limit, c);
    if cut > n {
      assert Take(rows[..cut], n)[0] == rows[0] && rows[cut - n..cut][0] == rows[cut - n];
    }
  }

  /** And its flags are right about the rows around what it shows under the same condition, provided
      rows follow it. */
  lemma BackwardFlagsAreTruthfulIff(rows: seq<Row>, asc: bool, limit: nat, c: int)
    requires SortedByTime(asc, rows)
    ensures
      var opts := Some(TimeOpts(Some(c), true, limit, asc));
      var page, cut := ResultOf(Fetched(rows, opts), opts), Leading(asc, rows, c);
      !page.hasPrevious && page.hasNext == (|page.items| < |rows|) <==>
      if cut == 0 then rows == [] else cut <= LimitFor(opts) && cut < |rows|
  {
    ComparedIsPrefix(asc, rows, c);
  }
}
