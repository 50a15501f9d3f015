/** Cursor pagination over a MongoDB collection ordered by _id: FindByCursor, which flips filter
    and sort to go back, and FindWithCursor, which flips only the filter. */
module CursorPages {
  import opened Optional
  import opened Traversal

  datatype Doc = Doc(id: int, fields: map<string, int>)

  /** An equality, a bound, or "$in". */
  datatype Cond = Eq(value: int) | Gt(value: int) | Lt(value: int) | OneOf(values: set<int>)

  type Filter = map<string, Cond>

  const ID: string := "_id"

  predicate Holds(doc: Doc, field: string, cond: Cond) {
    if field == ID then Compare(doc.id, cond)
    else field in doc.fields && Compare(doc.fields[field], cond)
  }

  predicate Compare(v: int, cond: Cond) {
    match cond
    case Eq(u) => v == u
    case Gt(u) => v > u
    case Lt(u) => v < u
    case OneOf(us) => v in us
  }

  predicate Matches(doc: Doc, f: Filter) {
    forall k :: k in f ==> Holds(doc, k, f[k])
  }

  /** The matching documents, in the order given. */
  function Matching(docs: seq<Doc>, f: Filter): seq<Doc> {
    if docs == [] then []
    else if Matches(docs[0], f) then [docs[0]] + Matching(docs[1..], f)
    else Matching(docs[1..], f)
  }

  function Reversed(docs: seq<Doc>): (r: seq<Doc>)
    ensures |r| == |docs|
    ensures forall i :: 0 <= i < |docs| ==> r[i] == docs[|docs| - 1 - i]
  {
    seq(|docs|, i requires 0 <= i < |docs| => docs[|docs| - 1 - i])
  }

  /** a comes strictly before b when sorting ascending, or descending. */
  predicate Precedes(asc: bool, a: int, b: int) {
    if asc then a < b else b < a
  }

  predicate SortedBy(asc: bool, docs: seq<Doc>) {
    forall i, j :: 0 <= i < j < |docs| ==> Precedes(asc, docs[i].id, docs[j].id)
  }

  /** The collection in sort order; it is held in ascending _id order. */
  function Scan(coll: seq<Doc>, asc: bool): seq<Doc> {
    if asc then coll else Reversed(coll)
  }

  /** collection.Find with a sort on _id and a limit. */
  function Find(coll: seq<Doc>, f: Filter, asc: bool, limit: nat): (rows: seq<Doc>)
    ensures |rows| <= limit
  {
    Take(Matching(Scan(coll, asc), f), limit)
  }

  /** A cursor argument: absent, not a valid id, or an id. */
  datatype Cursor = NoCursor | BadCursor | At(id: int)

  function Beyond(cond: bool, id: int): Cond {
    if cond then Gt(id) else Lt(id)
  }

  // ------------------------------------------------------------- FindByCursor

  datatype PaginationOpts = PaginationOpts(cursor: Cursor, perPage: int, direction: int, useCursor: bool)

  datatype Error = CursorPaginationRequired | InvalidDirection | InvalidId | MissingOptions

  datatype Result<T> = Ok(value: T) | Err(error: Error)

  datatype Page = Page(items: seq<Doc>, perPage: nat, hasNext: bool, hasPrev: bool)

  const DEFAULT_PER_PAGE: nat := 25
  const MAX_PER_PAGE: nat := 300

  function PerPage(requested: int): (limit: nat)
    ensures limit >= 1
  {
    if requested <= 0 || requested > MAX_PER_PAGE then DEFAULT_PER_PAGE else requested
  }

  function WithCursor(f: Filter, cursor: Cursor, greater: bool): Filter {
    match cursor
    case At(id) => f[ID := Beyond(greater, id)]
    case _ => f
  }

  /** The page FindByCursor makes of the rows it fetched, one more than the limit. */
  function PageOfRows(rows: seq<Doc>, cursor: Cursor, forward: bool, limit: nat): Page {
    var more := |rows| > limit;
    var kept := Take(rows, limit);
    Page(if forward then kept else Reversed(kept), limit,
         if forward then more else cursor.At?,
         if forward then cursor.At? else more)
  }

  /** The page FindByCursor returns once its arguments are accepted. */
  function PageByCursor(coll: seq<Doc>, f: Filter, cursor: Cursor, forward: bool, limit: nat): Page {
    PageOfRows(Find(coll, WithCursor(f, cursor, forward), forward, limit + 1), cursor, forward, limit)
  }

  method ReverseInPlace(a: array<Doc>)
    modifies a
    ensures a[..] == Reversed(old(a[..]))
  {
    var i, j := 0, a.Length - 1;
    while i < j
      invariant 0 <= i <= j + 1 <= a.Length && j == a.Length - 1 - i
      invariant forall k :: 0 <= k < i || j < k < a.Length ==> a[k] == old(a[a.Length - 1 - k])
      invariant forall k :: i <= k <= j ==> a[k] == old(a[k])
    {
      a[i], a[j] := a[j], a[i];
      i, j := i + 1, j - 1;
    }
  }

  /** The slice reversal both finders share. */
  method ReverseSlice(docs: seq<Doc>) returns (r: seq<Doc>)
    ensures r == Reversed(docs)
  {
    var a := new Doc[|docs|](i requires 0 <= i < |docs| => docs[i]);
    assert a[..] == docs;
    ReverseInPlace(a);
    r := a[..];
  }

  /** The caller's filter map is written to; filter' is what it holds afterwards. */
  method FindByCursor(coll: seq<Doc>, filter: Option<Filter>, opts: Option<PaginationOpts>)
    returns (r: Result<Page>, filter': Filter)
    ensures opts.None? || !opts.value.useCursor ==> r == Err(CursorPaginationRequired)
    ensures opts.Some? && opts.value.useCursor && opts.value.direction !in {1, -1} ==> r == Err(InvalidDirection)
    ensures opts.Some? && opts.value.useCursor && opts.value.direction in {1, -1} ==>
      var base := if filter.None? then map[] else filter.value;
      var forward := opts.value.direction == 1;
      if opts.value.cursor.BadCursor? then r == Err(InvalidId) && filter' == base
      else
        && filter' == WithCursor(base, opts.value.cursor, forward)
        && r == Ok(PageByCursor(coll, base, opts.value.cursor, forward, PerPage(opts.value.perPage)))
  {
    filter' := if filter.None? then map[] else filter.value;
    if opts.None? || !opts.value.useCursor {
      return Err(CursorPaginationRequired), filter';
    }
    var direction := opts.value.direction;
    if direction != 1 && direction != -1 {
      return Err(InvalidDirection), filter';
    }
    var limit := PerPage(opts.value.perPage);
    if opts.value.cursor.BadCursor? {
      return Err(InvalidId), filter';
    }
    if opts.value.cursor.At? {
      var op := if direction == -1 then Lt(opts.value.cursor.id) else Gt(opts.value.cursor.id);
      filter' := filter'[ID := op];
    }
    var rows := Find(coll, filter', direction == 1, limit + 1);
    var docs := [];
    for i := 0 to |rows|
      invariant docs == rows[..i]
    {
      docs := docs + [rows[i]];
    }
    assert docs == rows;
    var hasMore := |docs| > limit;
    if hasMore {
      docs := docs[..limit];
    }
    if direction == -1 {
      docs := ReverseSlice(docs);
    }
    var hasNext := direction == 1 && hasMore;
    var hasPrev := direction == -1 && hasMore;
    if direction == 1 && opts.value.cursor.At? {
      hasPrev := true;
    }
    if direction == -1 && opts.value.cursor.At? {
      hasNext := true;
    }
    r := Ok(Page(docs, limit, hasNext, hasPrev));
  }

  // ----------------------------------------------------------- FindWithCursor

  datatype Direction = Next | Previous

  datatype CursorOpts = CursorOpts(cursor: Cursor, direction: Direction, limit: int, sortAsc: bool)

  datatype CursorResult = CursorResult(
    items: seq<Doc>, nextCursor: Option<int>, prevCursor: Option<int>, hasNext: bool, hasPrevious: bool)

  const EMPTY_RESULT: CursorResult := CursorResult([], None, None, false, false)

  function LimitOrDefault(limit: int): (n: nat)
    ensures n >= 1
  {
    if limit <= 0 then 300 else limit
  }

  /** The operator is greater-than when the direction and the sort agree. */
  predicate UsesGreater(opts: CursorOpts) {
    opts.direction.Next? == opts.sortAsc
  }

  /** Copies the base filter and adds the cursor condition; an invalid cursor adds nothing. */
  method BuildCursorFilter(filter: Filter, opts: CursorOpts) returns (f: Filter)
    ensures f == WithCursor(filter, opts.cursor, UsesGreater(opts))
  {
    f := map[];
    var todo := filter.Keys;
    while todo != {}
      invariant todo <= filter.Keys
      invariant f == map k | k in filter && k !in todo :: filter[k]
      decreases |todo|
    {
      var k :| k in todo;
      f := f[k := filter[k]];
      todo := todo - {k};
    }
    assert f == filter;
    if opts.cursor.At? {
      if opts.direction.Next? {
        if opts.sortAsc {
          f := f[ID := Gt(opts.cursor.id)];
        } else {
          f := f[ID := Lt(opts.cursor.id)];
        }
      } else {
        if opts.sortAsc {
          f := f[ID := Lt(opts.cursor.id)];
        } else {
          f := f[ID := Gt(opts.cursor.id)];
        }
      }
    }
  }

  function FirstId(docs: seq<Doc>): Option<int> {
    if docs == [] then None else Some(docs[0].id)
  }

  function LastId(docs: seq<Doc>): Option<int> {
    if docs == [] then None else Some(docs[|docs| - 1].id)
  }

  /** What FindWithCursor makes of the rows: the cursors are the ids at the ends of the page
      as shown. */
  function ResultOfRows(rows: seq<Doc>, opts: CursorOpts): CursorResult {
    var limit := LimitOrDefault(opts.limit);
    var more := |rows| > limit;
    var kept := Take(rows, limit);
    var items := if opts.direction.Previous? then Reversed(kept) else kept;
    if items == [] then EMPTY_RESULT
    else
      var hasNext := if opts.direction.Next? then more else !opts.cursor.NoCursor?;
      var hasPrevious := if opts.direction.Next? then !opts.cursor.NoCursor? else more;
      CursorResult(items, if hasNext then LastId(items) else None, if hasPrevious then FirstId(items) else None,
                   hasNext, hasPrevious)
  }

  /** The rows it fetches, one more than the limit. */
  function Rows(coll: seq<Doc>, f: Filter, opts: CursorOpts): seq<Doc> {
    Find(coll, WithCursor(f, opts.cursor, UsesGreater(opts)), opts.sortAsc, LimitOrDefault(opts.limit) + 1)
  }

  function PageWithCursor(coll: seq<Doc>, f: Filter, opts: CursorOpts): CursorResult {
    ResultOfRows(Rows(coll, f, opts), opts)
  }

  method FindWithCursor(coll: seq<Doc>, filter: Filter, opts: Option<CursorOpts>) returns (r: Result<CursorResult>)
    ensures opts.None? ==> r == Err(MissingOptions)
    ensures opts.Some? ==> r == Ok(PageWithCursor(coll, filter, opts.value))
  {
    if opts.None? {
      return Err(MissingOptions);
    }
    var o := opts.value;
    var limit := LimitOrDefault(o.limit);
    var f := BuildCursorFilter(filter, o);
    var rows := Find(coll, f, o.sortAsc, limit + 1);
    var page := BuildResult(rows, o);
    r := Ok(page);
  }

  /** From the fetched rows to the result: trim, reverse, set flags and cursors. */
  method BuildResult(rows: seq<Doc>, o: CursorOpts) returns (page: CursorResult)
    requires |rows| <= LimitOrDefault(o.limit) + 1
    ensures page == ResultOfRows(rows, o)
  {
    var limit := LimitOrDefault(o.limit);
    var results, firstId, lastId, prevLastId := CollectRows(rows);
    var hasMore := |results| > limit;
    if hasMore {
      results := results[..limit];
      lastId := prevLastId;
    }
    assert results == Take(rows, limit) && firstId == FirstId(results) && lastId == LastId(results) by {
      TrimmedEnds(rows, limit);
    }
    if o.direction.Previous? {
      ReversedEnds(results);
      results := ReverseSlice(results);
      firstId, lastId := lastId, firstId;
    }
    if |results| == 0 {
      return EMPTY_RESULT;
    }
    var hasNext, hasPrevious;
    if o.direction.Next? {
      hasNext, hasPrevious := hasMore, !o.cursor.NoCursor?;
    } else {
      hasNext, hasPrevious := !o.cursor.NoCursor?, hasMore;
    }
    page := CursorResult(results, if hasNext then lastId else None, if hasPrevious then firstId else None,
                         hasNext, hasPrevious);
  }

  lemma TrimmedEnds(rows: seq<Doc>, limit: nat)
    requires 1 <= limit && |rows| <= limit + 1
    ensures FirstId(Take(rows, limit)) == FirstId(rows)
    ensures |rows| > limit ==> Take(rows, limit) == rows[..|rows| - 1]
  {
  }

  lemma ReversedEnds(docs: seq<Doc>)
    ensures FirstId(Reversed(docs)) == LastId(docs) && LastId(Reversed(docs)) == FirstId(docs)
  {
  }

  /** The row loop: documents plus the first, last and last-but-one ids seen. */
  method CollectRows(rows: seq<Doc>)
    returns (results: seq<Doc>, firstId: Option<int>, lastId: Option<int>, prevLastId: Option<int>)
    ensures results == rows
    ensures firstId == FirstId(rows) && lastId == LastId(rows)
    ensures prevLastId == if |rows| <= 1 then None else LastId(rows[..|rows| - 1])
  {
    results, firstId, lastId, prevLastId := [], None, None, None;
    for i := 0 to |rows|
      invariant results == rows[..i]
      invariant firstId == FirstId(rows[..i]) && lastId == LastId(rows[..i])
      invariant prevLastId == if i <= 1 then None else LastId(rows[..i - 1])
    {
      if i == 0 {
        firstId := Some(rows[i].id);
      }
      prevLastId := lastId;
      lastId := Some(rows[i].id);
      results := results + [rows[i]];
    }
    assert results == rows;
  }
}
