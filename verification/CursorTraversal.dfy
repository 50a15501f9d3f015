/** What following the cursors of the two MongoDB finders forward returns. */
module CursorTraversal {
  import opened Optional
  import opened CursorPages
  import opened CursorListings
  import opened Traversal

  /** The cursor leaves exactly the listing from lo on. */
  predicate StartsAt(asc: bool, all: seq<Doc>, cursor: Cursor, lo: nat) {
    lo <= |all| && Remaining(asc, all, cursor) == all[lo..]
  }

  /** The page that the listing from lo on makes. */
  predicate IsSlice(s: Slice<Doc, Cursor>, all: seq<Doc>, limit: nat, lo: nat)
    requires limit >= 1 && lo <= |all|
  {
    && s.items == all[lo..Min(lo + limit, |all|)]
    && s.next == if lo + limit < |all| then Some(At(all[lo + limit - 1].id)) else None
  }

  /** A client that asks for one page at a time: the first comes from the listing, any request with
      a cursor is answered from base. */
  ghost predicate Serves(fetch: Cursor -> Slice<Doc, Cursor>, all: seq<Doc>, base: seq<Doc>, asc: bool, limit: nat)
    requires limit >= 1
  {
    && IsSlice(fetch(NoCursor), all, limit, 0)
    && (forall cursor: Cursor, lo: nat :: cursor.At? && StartsAt(asc, base, cursor, lo) ==>
          IsSlice(fetch(cursor), base, limit, lo))
  }

  lemma {:induction false} RestIsSuffix(asc: bool, docs: seq<Doc>, c: int)
    ensures |Rest(asc, docs, c)| <= |docs| && Rest(asc, docs, c) == docs[|docs| - |Rest(asc, docs, c)|..]
  {
    if docs == [] || Precedes(asc, c, docs[0].id) {
    } else {
      RestIsSuffix(asc, docs[1..], c);
    }
  }

  lemma SliceIsPage(s: Slice<Doc, Cursor>, all: seq<Doc>, limit: nat, at: (Cursor, nat) -> bool, lo: nat)
    requires limit >= 1 && lo <= |all| && IsSlice(s, all, limit, lo)
    requires lo + limit < |all| ==> at(At(all[lo + limit - 1].id), lo + limit)
    ensures PageAt(s, all, limit, at, lo)
  {
  }

  /** From any cursor on, the client sees the rest of base. */
  lemma FollowFromCursor(fetch: Cursor -> Slice<Doc, Cursor>, all: seq<Doc>, base: seq<Doc>, asc: bool, limit: nat,
                         c: int, fuel: nat)
    requires SortedBy(asc, base) && limit >= 1 && Serves(fetch, all, base, asc, limit)
    requires fuel >= |Rest(asc, base, c)|
    ensures Follow(fetch, At(c), fuel) == Rest(asc, base, c)
  {
    var at := (cursor: Cursor, k: nat) => cursor.At? && StartsAt(asc, base, cursor, k);
    forall i | 0 <= i < |base| ensures at(At(base[i].id), i + 1) {
      RestAfter(asc, base, i);
    }
    forall cursor: Cursor, lo: nat | at(cursor, lo) ensures PageAt(fetch(cursor), base, limit, at, lo) {
      SliceIsPage(fetch(cursor), base, limit, at, lo);
    }
    RestIsSuffix(asc, base, c);
    FollowReturnsAll(fetch, base, limit, at, At(c), |base| - |Rest(asc, base, c)|, fuel);
  }

  /** So it collects the listing exactly when base goes on after the first page as the listing does. */
  lemma FollowIsListingIff(fetch: Cursor -> Slice<Doc, Cursor>, all: seq<Doc>, base: seq<Doc>, asc: bool, limit: nat,
                           fuel: nat)
    requires SortedBy(asc, base) && limit >= 1 && Serves(fetch, all, base, asc, limit)
    requires |all| > limit ==> fuel > |Rest(asc, base, all[limit - 1].id)|
    ensures Follow(fetch, NoCursor, fuel) == all <==>
      |all| <= limit || Rest(asc, base, all[limit - 1].id) == all[limit..]
  {
    if |all| > limit {
      FollowFromCursor(fetch, all, base, asc, limit, all[limit - 1].id, fuel - 1);
      FirstThenRest(fetch, all, limit, fuel, Rest(asc, base, all[limit - 1].id));
    }
  }

  lemma FirstThenRest(fetch: Cursor -> Slice<Doc, Cursor>, all: seq<Doc>, limit: nat, fuel: nat, rest: seq<Doc>)
    requires 1 <= limit < |all| && fuel >= 1 && IsSlice(fetch(NoCursor), all, limit, 0)
    requires Follow(fetch, At(all[limit - 1].id), fuel - 1) == rest
    ensures Follow(fetch, NoCursor, fuel) == all <==> rest == all[limit..]
  {
    assert Follow(fetch, NoCursor, fuel) == all[..limit] + rest;
    assert all == all[..limit] + all[limit..];
    assert (all[..limit] + rest)[limit..] == rest;
  }

  /** No document beyond a position is let in only because the _id condition is forgotten. */
  ghost predicate NoStrangersBeyond(coll: seq<Doc>, f: Filter, asc: bool, c: int) {
    forall d :: d in coll && Precedes(asc, c, d.id) && Matches(d, f - {ID}) ==> Matches(d, f)
  }

  /** The rest of the two listings agree exactly then. */
  lemma {:induction false} RestsAgreeIff(asc: bool, docs: seq<Doc>, f: Filter, c: int)
    requires SortedBy(asc, docs)
    ensures Rest(asc, Matching(docs, f), c) == Rest(asc, Matching(docs, f - {ID}), c) <==>
      NoStrangersBeyond(docs, f, asc, c)
  {
    var g := f - {ID};
    if docs == [] {
    } else if Precedes(asc, c, docs[0].id) {
      AllRest(asc, docs, f, c);
      AllRest(asc, docs, g, c);
      MatchingComposes(docs, f);
      MatchingAllIff(Matching(docs, g), f);
      assert AllMatch(Matching(docs, g), f) <==> NoStrangersBeyond(docs, f, asc, c) by {
        StrangersAreListed(docs, f, asc, c);
      }
    } else {
      RestsAgreeIff(asc, docs[1..], f, c);
      RestSkips(asc, docs, f, c);
      RestSkips(asc, docs, g, c);
      assert docs == [docs[0]] + docs[1..];
    }
  }

  lemma RestSkips(asc: bool, docs: seq<Doc>, f: Filter, c: int)
    requires docs != [] && !Precedes(asc, c, docs[0].id)
    ensures Rest(asc, Matching(docs, f), c) == Rest(asc, Matching(docs[1..], f), c)
  {
    if Matches(docs[0], f) {
      assert Matching(docs, f)[1..] == Matching(docs[1..], f);
    }
  }

  lemma AllRest(asc: bool, docs: seq<Doc>, f: Filter, c: int)
    requires SortedBy(asc, docs) && docs != [] && Precedes(asc, c, docs[0].id)
    ensures Rest(asc, Matching(docs, f), c) == Matching(docs, f)
  {
    MatchingIsSorted(asc, docs, f);
    var m := Matching(docs, f);
    assert m != [] ==> m[0] in docs;
  }

  lemma StrangersAreListed(docs: seq<Doc>, f: Filter, asc: bool, c: int)
    requires SortedBy(asc, docs) && docs != [] && Precedes(asc, c, docs[0].id)
    ensures AllMatch(Matching(docs, f - {ID}), f) <==> NoStrangersBeyond(docs, f, asc, c)
  {
    var m := Matching(docs, f - {ID});
    forall d ensures d in m <==> d in docs && Matches(d, f - {ID}) {
      MatchingMembers(docs, f - {ID}, d);
    }
    assert forall d :: d in docs ==> Precedes(asc, c, d.id);
    if AllMatch(m, f) {
      forall d | d in docs && Matches(d, f - {ID}) ensures Matches(d, f) {
        assert d in m;
      }
    }
    if NoStrangersBeyond(docs, f, asc, c) {
      forall i | 0 <= i < |m| ensures Matches(m[i], f) {
        assert m[i] in m;
      }
    }
  }

  /** The client is right about a filter: all matching documents of the scan fit one page, or no
      stranger lies beyond the first page. */
  ghost predicate FilterSurvives(docs: seq<Doc>, f: Filter, asc: bool, limit: nat)
    requires limit >= 1
  {
    var all := Matching(docs, f);
    |all| <= limit || NoStrangersBeyond(docs, f, asc, all[limit - 1].id)
  }

  lemma SurvivesIffRest(docs: seq<Doc>, f: Filter, asc: bool, limit: nat)
    requires SortedBy(asc, docs) && 1 <= limit < |Matching(docs, f)|
    ensures
      var all := Matching(docs, f);
      Rest(asc, Matching(docs, f - {ID}), all[limit - 1].id) == all[limit..] <==> FilterSurvives(docs, f, asc, limit)
  {
    var all := Matching(docs, f);
    MatchingIsSorted(asc, docs, f);
    RestAfter(asc, all, limit - 1);
    RestsAgreeIff(asc, docs, f, all[limit - 1].id);
  }

  lemma LaterPagesAreFewer(docs: seq<Doc>, f: Filter, asc: bool, limit: nat)
    requires SortedBy(asc, docs) && 1 <= limit < |Matching(docs, f)|
    ensures |Rest(asc, Matching(docs, f - {ID}), Matching(docs, f)[limit - 1].id)| < |docs|
  {
    var base := Matching(docs, f - {ID});
    var i := IndexInBase(docs, f, limit - 1);
    MatchingIsSorted(asc, docs, f - {ID});
    RestAfter(asc, base, i);
    MatchingIsShorter(docs, f - {ID});
  }

  /** For a client served from the scan of a collection: it collects the matching documents exactly
      when the filter survives. */
  lemma ClientIsRightIff(fetch: Cursor -> Slice<Doc, Cursor>, docs: seq<Doc>, f: Filter, asc: bool, limit: nat,
                         fuel: nat)
    requires SortedBy(asc, docs) && limit >= 1 && fuel >= |docs|
    requires Serves(fetch, Matching(docs, f), Matching(docs, f - {ID}), asc, limit)
    ensures Follow(fetch, NoCursor, fuel) == Matching(docs, f) <==> FilterSurvives(docs, f, asc, limit)
  {
    var all, base := Matching(docs, f), Matching(docs, f - {ID});
    assert SortedBy(asc, base) by { MatchingIsSorted(asc, docs, f - {ID}); }
    if |all| > limit {
      LaterPagesAreFewer(docs, f, asc, limit);
      SurvivesIffRest(docs, f, asc, limit);
    }
    FollowIsListingIff(fetch, all, base, asc, limit, fuel);
  }

  /** Without a condition on _id, with an equality or with a bound on the side the client comes from,
      the filter survives. */
  lemma HarmlessIdConditions(docs: seq<Doc>, f: Filter, asc: bool, limit: nat, v: int)
    requires SortedBy(asc, docs) && limit >= 1
    requires ID in f ==> f[ID] == Eq(v) || f[ID] == Beyond(asc, v)
    ensures FilterSurvives(docs, f, asc, limit)
  {
    var all := Matching(docs, f);
    if |all| > limit {
      MatchingIsSorted(asc, docs, f);
      MatchingMatches(docs, f);
      var a, b := all[limit - 1], all[limit];
      forall d | d in docs && Precedes(asc, a.id, d.id) && Matches(d, f - {ID}) ensures Matches(d, f) {
        HarmlessAt(f, asc, v, a, b, d);
      }
    }
  }

  lemma HarmlessAt(f: Filter, asc: bool, v: int, a: Doc, b: Doc, d: Doc)
    requires ID in f ==> f[ID] == Eq(v) || f[ID] == Beyond(asc, v)
    requires Matches(a, f) && Matches(b, f) && Precedes(asc, a.id, b.id)
    requires Precedes(asc, a.id, d.id) && Matches(d, f - {ID})
    ensures Matches(d, f)
  {
    if ID in f {
      assert Holds(a, ID, f[ID]) && Holds(b, ID, f[ID]);
      assert f == f[ID := f[ID]];
      CursorReplacesIdCondition(d, f, f[ID]);
    } else {
      PlainPool(f, NoCursor);
    }
  }

  // ------------------------------------------------- the two finders as clients

  /** A client of FindWithCursor that goes on while HasNext holds. */
  function NextWith(coll: seq<Doc>, f: Filter, opts: CursorOpts): Slice<Doc, Cursor> {
    SliceOf(PageWithCursor(coll, f, opts))
  }

  function SliceOf(page: CursorResult): Slice<Doc, Cursor> {
    Slice(page.items, if page.hasNext && page.nextCursor.Some? then Some(At(page.nextCursor.value)) else None)
  }

  /** The page made of the listing from lo on. */
  function RowsSlice(all: seq<Doc>, lo: nat, opts: CursorOpts): Slice<Doc, Cursor>
    requires lo <= |all|
  {
    SliceOf(ResultOfRows(Take(all[lo..], LimitOrDefault(opts.limit) + 1), opts))
  }

  lemma RowsSliceIsSlice(s: Slice<Doc, Cursor>, all: seq<Doc>, lo: nat, opts: CursorOpts, limit: nat)
    requires lo <= |all| && opts.direction.Next? && limit == LimitOrDefault(opts.limit) && s == RowsSlice(all, lo, opts)
    ensures IsSlice(s, all, limit, lo)
  {
  }

  lemma NextWithRows(coll: seq<Doc>, f: Filter, opts: CursorOpts, all: seq<Doc>, lo: nat)
    requires SortedBy(true, coll) && opts.direction.Next?
    requires all == Listing(coll, Pool(f, opts.cursor), opts.sortAsc) && StartsAt(opts.sortAsc, all, opts.cursor, lo)
    ensures NextWith(coll, f, opts) == RowsSlice(all, lo, opts)
  {
    ForwardQuery(coll, f, opts.sortAsc, opts.cursor, LimitOrDefault(opts.limit) + 1);
  }

  lemma WithCursorSlice(coll: seq<Doc>, f: Filter, opts: CursorOpts, limit: nat, all: seq<Doc>, lo: nat)
    requires SortedBy(true, coll) && opts.direction.Next? && limit == LimitOrDefault(opts.limit)
    requires all == Listing(coll, Pool(f, opts.cursor), opts.sortAsc) && StartsAt(opts.sortAsc, all, opts.cursor, lo)
    ensures IsSlice(NextWith(coll, f, opts), all, limit, lo)
  {
    var s := RowsSlice(all, lo, opts);
    RowsSliceIsSlice(s, all, lo, opts, limit);
    assert NextWith(coll, f, opts) == s by { NextWithRows(coll, f, opts, all, lo); }
  }

  /** Following FindWithCursor's next cursors from the start until none is left returns every
      matching document exactly once, in sort order, if and only if the filter survives: for any
      collection, filter, limit and sort.  The client stops by itself: any bound on its requests
      from the collection's size on will do. */
  lemma WithCursorTraversesAllIff(coll: seq<Doc>, f: Filter, opts: CursorOpts, fuel: nat)
    requires SortedBy(true, coll) && fuel >= |coll| && opts.direction.Next?
    ensures
      var collected := Follow((c: Cursor) => NextWith(coll, f, opts.(cursor := c)), NoCursor, fuel);
      collected == Listing(coll, f, opts.sortAsc) <==>
      FilterSurvives(Scan(coll, opts.sortAsc), f, opts.sortAsc, LimitOrDefault(opts.limit))
  {
    var fetch := (c: Cursor) => NextWith(coll, f, opts.(cursor := c));
    var asc, limit := opts.sortAsc, LimitOrDefault(opts.limit);
    WithCursorSlice(coll, f, opts.(cursor := NoCursor), limit, Listing(coll, f, asc), 0);
    var base := Listing(coll, f - {ID}, asc);
    forall cursor: Cursor, lo: nat | cursor.At? && StartsAt(asc, base, cursor, lo)
      ensures IsSlice(fetch(cursor), base, limit, lo)
    {
      WithCursorSlice(coll, f, opts.(cursor := cursor), limit, base, lo);
    }
    ScanIsSorted(coll, asc);
    ClientIsRightIff(fetch, Scan(coll, asc), f, asc, limit, fuel);
  }

  /** A filter that does not name _id always does. */
  lemma WithCursorTraversesAll(coll: seq<Doc>, f: Filter, opts: CursorOpts, fuel: nat)
    requires SortedBy(true, coll) && fuel >= |coll| && opts.direction.Next? && ID !in f
    ensures
      Follow((c: Cursor) => NextWith(coll, f, opts.(cursor := c)), NoCursor, fuel) == Listing(coll, f, opts.sortAsc)
  {
    ScanIsSorted(coll, opts.sortAsc);
    HarmlessIdConditions(Scan(coll, opts.sortAsc), f, opts.sortAsc, LimitOrDefault(opts.limit), 0);
    WithCursorTraversesAllIff(coll, f, opts, fuel);
  }

  /** A client of FindByCursor that goes on from the last id of each page while HasNext holds. */
  function NextBy(coll: seq<Doc>, f: Filter, limit: nat, cursor: Cursor): Slice<Doc, Cursor> {
    LastIdSlice(PageByCursor(coll, f, cursor, true, limit))
  }

  function LastIdSlice(page: Page): Slice<Doc, Cursor> {
    Slice(page.items,
          if page.hasNext && page.items != [] then Some(At(page.items[|page.items| - 1].id)) else None)
  }

  lemma LastIdSliceOfRows(all: seq<Doc>, cursor: Cursor, lo: nat, limit: nat)
    requires lo <= |all| && limit >= 1
    ensures IsSlice(LastIdSlice(PageOfRows(Take(all[lo..], limit + 1), cursor, true, limit)), all, limit, lo)
  {
  }

  lemma ByCursorSlice(coll: seq<Doc>, f: Filter, limit: nat, cursor: Cursor, all: seq<Doc>, lo: nat)
    requires SortedBy(true, coll) && limit >= 1
    requires all == Listing(coll, Pool(f, cursor), true) && StartsAt(true, all, cursor, lo)
    ensures IsSlice(NextBy(coll, f, limit, cursor), all, limit, lo)
  {
    ForwardQuery(coll, f, true, cursor, limit + 1);
    LastIdSliceOfRows(all, cursor, lo, limit);
  }

  /** Following FindByCursor forward until HasNext is false returns every matching document exactly
      once, in ascending order, if and only if the filter survives. */
  lemma ByCursorTraversesAllIff(coll: seq<Doc>, f: Filter, limit: nat, fuel: nat)
    requires SortedBy(true, coll) && limit >= 1 && fuel >= |coll|
    ensures Follow((c: Cursor) => NextBy(coll, f, limit, c), NoCursor, fuel) == Listing(coll, f, true) <==>
      FilterSurvives(coll, f, true, limit)
  {
    var fetch := (c: Cursor) => NextBy(coll, f, limit, c);
    var base := Listing(coll, f - {ID}, true);
    ByCursorSlice(coll, f, limit, NoCursor, Listing(coll, f, true), 0);
    forall cursor: Cursor, lo: nat | cursor.At? && StartsAt(true, base, cursor, lo)
      ensures IsSlice(fetch(cursor), base, limit, lo)
    {
      ByCursorSlice(coll, f, limit, cursor, base, lo);
    }
    ClientIsRightIff(fetch, coll, f, true, limit, fuel);
  }

  lemma ByCursorTraversesAll(coll: seq<Doc>, f: Filter, limit: nat, fuel: nat)
    requires SortedBy(true, coll) && limit >= 1 && fuel >= |coll| && ID !in f
    ensures Follow((c: Cursor) => NextBy(coll, f, limit, c), NoCursor, fuel) == Listing(coll, f, true)
  {
    HarmlessIdConditions(coll, f, true, limit, 0);
    ByCursorTraversesAllIff(coll, f, limit, fuel);
  }

  /** With ids 1, 2, 3, the filter _id < 3 and one document a page, the client is handed document 3. */
  lemma FarBoundBreaksTraversal(d1: Doc, d2: Doc, d3: Doc)
    requires d1.id == 1 && d2.id == 2 && d3.id == 3
    ensures
      var coll, f := [d1, d2, d3], map[ID := Lt(3)];
      && Follow((c: Cursor) => NextBy(coll, f, 1, c), NoCursor, 3) != Listing(coll, f, true)
      && NextBy(coll, f, 1, At(2)).items == [d3] && !Matches(d3, f)
  {
    var coll, f := [d1, d2, d3], map[ID := Lt(3)];
    var all, base := [d1, d2], [d1, d2, d3];
    assert Matches(d1, f) && Matches(d2, f) && !Matches(d3, f) by { assert !Holds(d3, ID, f[ID]); }
    assert Listing(coll, f, true) == all by {
      assert coll[1..] == [d2, d3] && [d2, d3][1..] == [d3] && [d3][1..] == [];
      assert Matching([d3], f) == Matching([], f) == [];
      assert Matching([d2, d3], f) == [d2] + Matching([d3], f);
      assert Matching(coll, f) == [d1] + Matching([d2, d3], f);
    }
    assert f - {ID} == map[];
    assert Listing(coll, f - {ID}, true) == base by { MatchingAllIff(base, map[]); }
    assert Rest(true, base, 2) == [d3] by {
      assert base[1..] == [d2, d3] && base[1..][1..] == [d3];
      assert Rest(true, base, 2) == Rest(true, base[1..], 2) == Rest(true, base[1..][1..], 2);
    }
    ByCursorSlice(coll, f, 1, At(2), base, 2);
    assert d3 in coll && !NoStrangersBeyond(coll, f, true, all[0].id);
    ByCursorTraversesAllIff(coll, f, 1, 3);
  }
}
