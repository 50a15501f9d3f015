/** What single pages show: windows of a listing, backward undoing forward, truthful flags, and
    where FindWithCursor's backward direction goes wrong. */
module CursorWindows {
  import opened Optional
  import opened CursorPages
  import opened CursorListings
  import opened Traversal

  /** Where a cursor cuts an ascending listing: documents up to it, and from it on. */
  predicate CutsAt(all: seq<Doc>, cursor: Cursor, forward: bool, cut: nat) {
    && cut <= |all|
    && match cursor
       case At(c) =>
         && (forall i :: 0 <= i < cut ==> if forward then all[i].id <= c else all[i].id < c)
         && (forall i :: cut <= i < |all| ==> if forward then all[i].id > c else all[i].id >= c)
       case _ => cut == if forward then 0 else |all|
  }

  lemma {:induction false} RestAtCut(asc: bool, docs: seq<Doc>, c: int, cut: nat)
    requires cut <= |docs|
    requires forall i :: 0 <= i < cut ==> !Precedes(asc, c, docs[i].id)
    requires forall i :: cut <= i < |docs| ==> Precedes(asc, c, docs[i].id)
    ensures Rest(asc, docs, c) == docs[cut..]
  {
    if cut == 0 {
    } else {
      RestAtCut(asc, docs[1..], c, cut - 1);
      assert docs[1..][cut - 1..] == docs[cut..];
    }
  }

  /** Every cursor, the id of a document or not, cuts the listing somewhere. */
  lemma CutExists(all: seq<Doc>, cursor: Cursor, forward: bool) returns (cut: nat)
    requires SortedBy(true, all)
    ensures CutsAt(all, cursor, forward, cut)
  {
    if !cursor.At? {
      return if forward then 0 else |all|;
    }
    var c := cursor.id;
    cut := 0;
    while cut < |all| && (if forward then all[cut].id <= c else all[cut].id < c)
      invariant cut <= |all|
      invariant forall i :: 0 <= i < cut ==> if forward then all[i].id <= c else all[i].id < c
    {
      cut := cut + 1;
    }
  }

  /** The window of the ascending listing that a page shows. */
  function WindowLow(forward: bool, cut: nat, limit: nat): nat {
    if forward then cut else if cut >= limit then cut - limit else 0
  }

  function WindowHigh(forward: bool, cut: nat, limit: nat, size: nat): nat {
    if forward then Min(cut + limit, size) else cut
  }

  predicate IsWindow(all: seq<Doc>, page: Page, cursor: Cursor, forward: bool, cut: nat, limit: nat)
    requires cut <= |all|
  {
    var lo, hi := WindowLow(forward, cut, limit), WindowHigh(forward, cut, limit, |all|);
    && page.items == all[lo..hi]
    && page.hasNext == (if forward then hi < |all| else cursor.At?)
    && page.hasPrev == (if forward then cursor.At? else lo > 0)
  }

  lemma ForwardWindow(all: seq<Doc>, cursor: Cursor, cut: nat, limit: nat)
    requires cut <= |all| && limit >= 1
    ensures IsWindow(all, PageOfRows(Take(all[cut..], limit + 1), cursor, true, limit), cursor, true, cut, limit)
  {
  }

  lemma BackwardWindow(all: seq<Doc>, cursor: Cursor, cut: nat, limit: nat)
    requires cut <= |all| && limit >= 1
    ensures
      var page := PageOfRows(Take(Reversed(all)[|all| - cut..], limit + 1), cursor, false, limit);
      IsWindow(all, page, cursor, false, cut, limit)
  {
    var rows := Take(Reversed(all)[|all| - cut..], limit + 1);
    var lo := WindowLow(false, cut, limit);
    assert Reversed(Take(rows, limit)) == all[lo..cut];
  }

  /** What remains of the scan at a cut. */
  lemma RemainingAtCut(all: seq<Doc>, cursor: Cursor, forward: bool, cut: nat)
    requires CutsAt(all, cursor, forward, cut)
    ensures Remaining(forward, if forward then all else Reversed(all), cursor)
            == if forward then all[cut..] else Reversed(all)[|all| - cut..]
  {
    if forward {
      if cursor.At? { RestAtCut(true, all, cursor.id, cut); }
    } else {
      if cursor.At? { RestAtCut(false, Reversed(all), cursor.id, |all| - cut); }
    }
  }

  /** Every page of FindByCursor is one window of the ascending listing its request obeys: forward
      the limit documents right after the cursor, backward the limit documents right before it. */
  lemma PageIsWindow(coll: seq<Doc>, f: Filter, all: seq<Doc>, cursor: Cursor, forward: bool, limit: nat, cut: nat)
    requires SortedBy(true, coll) && limit >= 1
    requires all == Listing(coll, Pool(f, cursor), true) && CutsAt(all, cursor, forward, cut)
    ensures IsWindow(all, PageByCursor(coll, f, cursor, forward, limit), cursor, forward, cut, limit)
  {
    FindAtCut(coll, f, all, cursor, forward, limit + 1, cut);
    if forward {
      ForwardWindow(all, cursor, cut, limit);
    } else {
      BackwardWindow(all, cursor, cut, limit);
    }
  }

  lemma FindAtCut(coll: seq<Doc>, f: Filter, all: seq<Doc>, cursor: Cursor, forward: bool, n: nat, cut: nat)
    requires SortedBy(true, coll)
    requires all == Listing(coll, Pool(f, cursor), true) && CutsAt(all, cursor, forward, cut)
    ensures Find(coll, WithCursor(f, cursor, forward), forward, n)
            == Take(if forward then all[cut..] else Reversed(all)[|all| - cut..], n)
  {
    var g := Pool(f, cursor);
    ForwardQuery(coll, f, forward, cursor, n);
    assert Listing(coll, g, forward) == if forward then all else Reversed(all) by { MatchingReversed(coll, g); }
    RemainingAtCut(all, cursor, forward, cut);
  }

  lemma CutAfter(coll: seq<Doc>, f: Filter, all: seq<Doc>, i: nat)
    requires SortedBy(true, coll) && all == Listing(coll, f, true) && i < |all|
    ensures CutsAt(all, At(all[i].id), true, i + 1) && CutsAt(all, At(all[i].id), false, i)
  {
    ListingIsSorted(coll, f, true);
  }

  /** The page that going back from the page after a returns. */
  function BackFrom(coll: seq<Doc>, f: Filter, a: Page, limit: nat): Page
    requires a.items != []
  {
    var b := PageByCursor(coll, f, At(a.items[|a.items| - 1].id), true, limit);
    if b.items == [] then b else PageByCursor(coll, f, At(b.items[0].id), false, limit)
  }

  /** It ends with the document a ends with, in the listing without the _id condition. */
  lemma BackFromEnd(coll: seq<Doc>, f: Filter, a: Page, limit: nat, base: seq<Doc>, j: nat)
    requires SortedBy(true, coll) && limit >= 1 && a.items != []
    requires base == Listing(coll, f - {ID}, true) && j + 1 < |base| && a.items[|a.items| - 1] == base[j]
    ensures BackFrom(coll, f, a, limit).items == base[WindowLow(false, j + 1, limit)..j + 1]
  {
    PagesAround(coll, f, limit, base, j);
  }

  lemma PagesAround(coll: seq<Doc>, f: Filter, limit: nat, base: seq<Doc>, j: nat)
    requires SortedBy(true, coll) && limit >= 1 && base == Listing(coll, f - {ID}, true) && j + 1 < |base|
    ensures PageByCursor(coll, f, At(base[j].id), true, limit).items == base[j + 1..Min(j + 1 + limit, |base|)]
    ensures PageByCursor(coll, f, At(base[j + 1].id), false, limit).items == base[WindowLow(false, j + 1, limit)..j + 1]
  {
    CutAfter(coll, f - {ID}, base, j);
    CutAfter(coll, f - {ID}, base, j + 1);
    PageIsWindow(coll, f, base, At(base[j].id), true, limit, j + 1);
    PageIsWindow(coll, f, base, At(base[j + 1].id), false, limit, j + 1);
  }

  /** No document between the ends of a page is let in only because the _id condition is forgotten. */
  ghost predicate NoStrangersWithin(coll: seq<Doc>, f: Filter, a: Page)
    requires a.items != []
  {
    var lo, hi := a.items[0].id, a.items[|a.items| - 1].id;
    forall d :: d in coll && lo <= d.id <= hi && Matches(d, f - {ID}) ==> Matches(d, f)
  }

  lemma PageHasNext(coll: seq<Doc>, f: Filter, cursor: Cursor, limit: nat) returns (cut: nat)
    requires SortedBy(true, coll) && limit >= 1 && PageByCursor(coll, f, cursor, true, limit).hasNext
    ensures
      var all := Listing(coll, Pool(f, cursor), true);
      && CutsAt(all, cursor, true, cut) && cut + limit < |all|
      && PageByCursor(coll, f, cursor, true, limit).items == all[cut..cut + limit]
  {
    var all := Listing(coll, Pool(f, cursor), true);
    ListingIsSorted(coll, Pool(f, cursor), true);
    cut := CutExists(all, cursor, true);
    PageIsWindow(coll, f, all, cursor, true, limit, cut);
  }

  /** Backward undoes forward: a page with a next page is full, and from the first id of the page
      after it, going back returns exactly that page, in the same order; for a page asked for without
      a cursor under a condition on _id, exactly when no stranger lies between its documents. */
  lemma BackwardUndoesForwardIff(coll: seq<Doc>, f: Filter, cursor: Cursor, limit: nat)
    requires SortedBy(true, coll) && limit >= 1
    requires PageByCursor(coll, f, cursor, true, limit).hasNext
    ensures
      var a := PageByCursor(coll, f, cursor, true, limit);
      && |a.items| == limit
      && (BackFrom(coll, f, a, limit).items == a.items <==> cursor.At? || NoStrangersWithin(coll, f, a))
  {
    var cut := PageHasNext(coll, f, cursor, limit);
    var a, all := PageByCursor(coll, f, cursor, true, limit), Listing(coll, Pool(f, cursor), true);
    if cursor.At? {
      BackFromEnd(coll, f, a, limit, all, cut + limit - 1);
    } else {
      BackFromFirst(coll, f, a, limit);
    }
  }

  /** Without a condition on _id it always does. */
  lemma BackwardUndoesForward(coll: seq<Doc>, f: Filter, cursor: Cursor, limit: nat)
    requires SortedBy(true, coll) && limit >= 1 && ID !in f
    requires PageByCursor(coll, f, cursor, true, limit).hasNext
    ensures
      var a := PageByCursor(coll, f, cursor, true, limit);
      |a.items| == limit && BackFrom(coll, f, a, limit).items == a.items
  {
    BackwardUndoesForwardIff(coll, f, cursor, limit);
    PlainPool(f, cursor);
  }

  /** Without a cursor: the first page of a listing, of which base forgets the _id condition. */
  lemma BackFromFirst(coll: seq<Doc>, f: Filter, a: Page, limit: nat)
    requires SortedBy(true, coll) && 1 <= limit < |Listing(coll, f, true)|
    requires a.items == Listing(coll, f, true)[..limit]
    ensures BackFrom(coll, f, a, limit).items == a.items <==> NoStrangersWithin(coll, f, a)
  {
    var base := Listing(coll, f - {ID}, true);
    var i, j := FirstPageInBase(coll, f, limit);
    BackFromEnd(coll, f, a, limit, base, j);
    StrangersInRun(coll, f, a, base, i, j);
    MatchingAllIff(base[i..j + 1], f);
    ListingIsSorted(coll, f - {ID}, true);
    RunIsBack(base, a.items, i, j, limit);
  }

  /** The documents of the first page run from i to j in base, among those that do not match. */
  lemma FirstPageInBase(coll: seq<Doc>, f: Filter, limit: nat) returns (i: nat, j: nat)
    requires SortedBy(true, coll) && 1 <= limit < |Listing(coll, f, true)|
    ensures
      var all, base := Listing(coll, f, true), Listing(coll, f - {ID}, true);
      && i <= j && j + 1 < |base| && base[i] == all[0] && base[j] == all[limit - 1]
      && Matching(base[i..j + 1], f) == all[..limit]
  {
    var all, base := Listing(coll, f, true), Listing(coll, f - {ID}, true);
    i := IndexInBase(coll, f, 0);
    j := IndexInBase(coll, f, limit - 1);
    var k := IndexInBase(coll, f, limit);
    ListingIsSorted(coll, f, true);
    ListingIsSorted(coll, f - {ID}, true);
    assert i <= j < k;
    assert all == Matching(base, f) by { MatchingComposes(coll, f); }
    MatchingOfRun(base, f, all, limit, i, j);
  }

  lemma MatchingOfRun(base: seq<Doc>, f: Filter, all: seq<Doc>, limit: nat, i: nat, j: nat)
    requires SortedBy(true, base) && SortedBy(true, all) && all == Matching(base, f)
    requires 1 <= limit <= |all| && i <= j < |base| && base[i] == all[0] && base[j] == all[limit - 1]
    ensures Matching(base[i..j + 1], f) == all[..limit]
  {
    MatchingUpTo(base, f, all, 0, i);
    MatchingUpTo(base, f, all, limit - 1, j);
    assert base[..j + 1] == base[..i] + base[i..j + 1];
    MatchingConcat(base[..i], base[i..j + 1], f);
  }

  lemma MatchingUpTo(base: seq<Doc>, f: Filter, all: seq<Doc>, m: nat, i: nat)
    requires SortedBy(true, base) && SortedBy(true, all) && all == Matching(base, f)
    requires m < |all| && i < |base| && base[i] == all[m]
    ensures Matching(base[..i], f) == all[..m] && Matching(base[..i + 1], f) == all[..m + 1]
  {
    var cursor := At(all[m].id);
    CutOfMatching(base, f, cursor, false, i, m);
    CutOfMatching(base, f, cursor, true, i + 1, m + 1);
  }

  /** Where a cursor cuts a listing, it cuts the matching part of it. */
  lemma CutOfMatching(base: seq<Doc>, f: Filter, cursor: Cursor, forward: bool, poolCut: nat, cut: nat)
    requires SortedBy(true, base) && CutsAt(base, cursor, forward, poolCut)
    requires CutsAt(Matching(base, f), cursor, forward, cut)
    ensures Matching(base[..poolCut], f) == Matching(base, f)[..cut]
    ensures Matching(base[poolCut..], f) == Matching(base, f)[cut..]
  {
    var x, y := base[..poolCut], base[poolCut..];
    var mx, my := Matching(x, f), Matching(y, f);
    assert Matching(base, f) == mx + my by {
      assert base == x + y;
      MatchingConcat(x, y, f);
    }
    assert CutsAt(mx, cursor, forward, |mx|) by { MatchingKeepsCut(x, f, cursor, forward); }
    assert cursor.At? ==> CutsAt(my, cursor, forward, 0) by { MatchingKeepsCut(y, f, cursor, forward); }
    assert |mx| == cut by { CutIsUnique(mx, my, cursor, forward, cut); }
  }

  lemma {:induction false} MatchingKeepsCut(docs: seq<Doc>, f: Filter, cursor: Cursor, forward: bool)
    ensures CutsAt(docs, cursor, forward, |docs|) ==> CutsAt(Matching(docs, f), cursor, forward, |Matching(docs, f)|)
    ensures CutsAt(docs, cursor, forward, 0) ==> CutsAt(Matching(docs, f), cursor, forward, 0)
  {
    if docs == [] {
    } else {
      MatchingKeepsCut(docs[1..], f, cursor, forward);
      assert docs == [docs[0]] + docs[1..];
    }
  }

  lemma CutIsUnique(x: seq<Doc>, y: seq<Doc>, cursor: Cursor, forward: bool, cut: nat)
    requires CutsAt(x + y, cursor, forward, cut) && CutsAt(x, cursor, forward, |x|)
    requires if cursor.At? then CutsAt(y, cursor, forward, 0) else x == [] || y == []
    requires !cursor.At? ==> if forward then x == [] else y == []
    ensures |x| == cut
  {
    assert cut < |x| ==> (x + y)[cut] == x[cut];
    assert cut > |x| ==> (x + y)[|x|] == y[0];
  }

  lemma RunIsBack(base: seq<Doc>, items: seq<Doc>, i: nat, j: nat, limit: nat)
    requires SortedBy(true, base) && i <= j < |base| && |items| == limit >= 1
    requires base[i] == items[0] && base[j] == items[limit - 1]
    ensures base[WindowLow(false, j + 1, limit)..j + 1] == items <==> base[i..j + 1] == items
  {
    var lo := WindowLow(false, j + 1, limit);
    if base[lo..j + 1] == items {
      assert base[lo] == items[0];
    }
  }

  lemma StrangersInRun(coll: seq<Doc>, f: Filter, a: Page, base: seq<Doc>, i: nat, j: nat)
    requires SortedBy(true, coll) && base == Listing(coll, f - {ID}, true) && i <= j < |base|
    requires a.items != [] && base[i] == a.items[0] && base[j] == a.items[|a.items| - 1]
    ensures NoStrangersWithin(coll, f, a) <==> AllMatch(base[i..j + 1], f)
  {
    var run := base[i..j + 1];
    ListingIsExact(coll, f - {ID}, true);
    if NoStrangersWithin(coll, f, a) {
      forall k | 0 <= k < |run| ensures Matches(run[k], f) {
        assert run[k] == base[i + k] && base[i + k] in base;
      }
    }
    if AllMatch(run, f) {
      forall d | d in coll && Matches(d, f - {ID}) && base[i].id <= d.id <= base[j].id ensures Matches(d, f) {
        var k :| 0 <= k < |base| && base[k] == d;
        assert run[k - i] == d;
      }
    }
  }

  /** HasNext and HasPrev both tell the truth about what lies beyond the page. */
  predicate Truthful(all: seq<Doc>, page: Page, forward: bool, cut: nat, limit: nat)
    requires cut <= |all|
  {
    var lo, hi := WindowLow(forward, cut, limit), WindowHigh(forward, cut, limit, |all|);
    page.items == all[lo..hi] && page.hasNext == (hi < |all|) && page.hasPrev == (lo > 0)
  }

  /** The documents shown match the filter and, if more lie beyond them, one of those does. */
  predicate ShowsMatches(shown: seq<Doc>, beyond: seq<Doc>, f: Filter) {
    AllMatch(shown, f) && (beyond != [] ==> Matching(beyond, f) != [])
  }

  /** A page cut from the head of some documents is the same page of the matching ones exactly then. */
  lemma HeadShowsMatchesIff(shown: seq<Doc>, beyond: seq<Doc>, f: Filter, limit: nat)
    requires |shown| <= limit && (beyond != [] ==> |shown| == limit)
    ensures
      var m := Matching(shown + beyond, f);
      shown == Take(m, limit) && (beyond != [] <==> |m| > limit) <==> ShowsMatches(shown, beyond, f)
  {
    var x, y := Matching(shown, f), Matching(beyond, f);
    MatchingConcat(shown, beyond, f);
    MatchingAllIff(shown, f);
    MatchingIsShorter(shown, f);
    assert shown == Take(x + y, limit) ==> AllMatch(shown, f) by { MatchingMatches(shown + beyond, f); }
  }

  function Last(docs: seq<Doc>, n: nat): seq<Doc> {
    if |docs| <= n then docs else docs[|docs| - n..]
  }

  /** And so is a page cut from the end. */
  lemma TailShowsMatchesIff(beyond: seq<Doc>, shown: seq<Doc>, f: Filter, limit: nat)
    requires |shown| <= limit && (beyond != [] ==> |shown| == limit)
    ensures
      var m := Matching(beyond + shown, f);
      shown == Last(m, limit) && (beyond != [] <==> |m| > limit) <==> ShowsMatches(shown, beyond, f)
  {
    var x, y := Matching(beyond, f), Matching(shown, f);
    MatchingConcat(beyond, shown, f);
    MatchingAllIff(shown, f);
    MatchingIsShorter(shown, f);
    assert shown == Last(x + y, limit) ==> AllMatch(shown, f) by {
      MatchingMatches(beyond + shown, f);
      LastMatches(x + y, f, limit);
    }
    if AllMatch(shown, f) {
      LastOfParts(x, shown, limit);
    }
  }

  lemma LastMatches(docs: seq<Doc>, f: Filter, n: nat)
    requires AllMatch(docs, f)
    ensures AllMatch(Last(docs, n), f)
  {
  }

  lemma LastOfParts(x: seq<Doc>, y: seq<Doc>, n: nat)
    requires |y| == n || (|y| <= n && x == [])
    ensures Last(x + y, n) == y
  {
  }

  lemma MatchingOfPool(coll: seq<Doc>, f: Filter, cursor: Cursor)
    ensures Listing(coll, f, true) == Matching(Listing(coll, Pool(f, cursor), true), f)
  {
    if cursor.At? {
      MatchingComposes(coll, f);
    } else {
      MatchingMatches(coll, f);
      MatchingAllIff(Listing(coll, f, true), f);
    }
  }

  /** For any filter and cursor they do exactly when the listing reaches back (or on) to the cursor
      and the page, drawn from the listing its request obeys, shows matches of the whole filter. */
  lemma FlagsAreTruthfulIff(coll: seq<Doc>, f: Filter, cursor: Cursor, forward: bool, limit: nat, cut: nat,
                            poolCut: nat)
    requires SortedBy(true, coll) && limit >= 1
    requires CutsAt(Listing(coll, f, true), cursor, forward, cut)
    requires CutsAt(Listing(coll, Pool(f, cursor), true), cursor, forward, poolCut)
    ensures
      var all, base := Listing(coll, f, true), Listing(coll, Pool(f, cursor), true);
      var lo, hi := WindowLow(forward, poolCut, limit), WindowHigh(forward, poolCut, limit, |base|);
      Truthful(all, PageByCursor(coll, f, cursor, forward, limit), forward, cut, limit) <==>
      && ReachesCursor(all, cursor, forward)
      && ShowsMatches(base[lo..hi], if forward then base[hi..] else base[..lo], f)
  {
    var all, base := Listing(coll, f, true), Listing(coll, Pool(f, cursor), true);
    var page := PageByCursor(coll, f, cursor, forward, limit);
    PageIsWindow(coll, f, base, cursor, forward, limit, poolCut);
    assert SortedBy(true, all) && SortedBy(true, base) by {
      ListingIsSorted(coll, f, true);
      ListingIsSorted(coll, Pool(f, cursor), true);
    }
    MatchingOfPool(coll, f, cursor);
    CutOfMatching(base, f, cursor, forward, poolCut, cut);
    WindowFlagsIff(base, f, all, page, cursor, forward, limit, cut, poolCut);
  }

  predicate ReachesCursor(all: seq<Doc>, cursor: Cursor, forward: bool) {
    cursor.At? ==> all != [] && if forward then all[0].id <= cursor.id else cursor.id <= all[|all| - 1].id
  }

  lemma WindowFlagsIff(base: seq<Doc>, f: Filter, all: seq<Doc>, page: Page, cursor: Cursor, forward: bool,
                       limit: nat, cut: nat, poolCut: nat)
    requires limit >= 1 && SortedBy(true, all)
    requires CutsAt(all, cursor, forward, cut) && CutsAt(base, cursor, forward, poolCut)
    requires IsWindow(base, page, cursor, forward, poolCut, limit)
    requires Matching(base[..poolCut], f) == all[..cut] && Matching(base[poolCut..], f) == all[cut..]
    ensures
      var lo, hi := WindowLow(forward, poolCut, limit), WindowHigh(forward, poolCut, limit, |base|);
      Truthful(all, page, forward, cut, limit) <==>
      && ReachesCursor(all, cursor, forward)
      && ShowsMatches(base[lo..hi], if forward then base[hi..] else base[..lo], f)
  {
    if forward {
      ForwardFlags(base, f, all, limit, cut, poolCut);
      assert ReachesCursor(all, cursor, forward) <==> cursor.At? == (cut > 0);
    } else {
      BackwardFlags(base, f, all, limit, cut, poolCut);
      assert ReachesCursor(all, cursor, forward) <==> cursor.At? == (cut < |all|);
    }
  }

  lemma ForwardFlags(base: seq<Doc>, f: Filter, all: seq<Doc>, limit: nat, cut: nat, poolCut: nat)
    requires cut <= |all| && poolCut <= |base| && Matching(base[poolCut..], f) == all[cut..]
    ensures
      var hi, top := Min(poolCut + limit, |base|), Min(cut + limit, |all|);
      base[poolCut..hi] == all[cut..top] && (hi < |base| <==> top < |all|) <==>
      ShowsMatches(base[poolCut..hi], base[hi..], f)
  {
    var hi := Min(poolCut + limit, |base|);
    HeadShowsMatchesIff(base[poolCut..hi], base[hi..], f, limit);
    assert base[poolCut..hi] + base[hi..] == base[poolCut..];
    assert Take(all[cut..], limit) == all[cut..Min(cut + limit, |all|)];
  }

  lemma BackwardFlags(base: seq<Doc>, f: Filter, all: seq<Doc>, limit: nat, cut: nat, poolCut: nat)
    requires cut <= |all| && poolCut <= |base| && Matching(base[..poolCut], f) == all[..cut]
    ensures
      var lo, bottom := WindowLow(false, poolCut, limit), WindowLow(false, cut, limit);
      base[lo..poolCut] == all[bottom..cut] && (lo > 0 <==> bottom > 0) <==>
      ShowsMatches(base[lo..poolCut], base[..lo], f)
  {
    var lo := WindowLow(false, poolCut, limit);
    TailShowsMatchesIff(base[..lo], base[lo..poolCut], f, limit);
    assert base[..lo] + base[lo..poolCut] == base[..poolCut];
    assert Last(all[..cut], limit) == all[WindowLow(false, cut, limit)..cut];
  }

  /** Without a condition on _id they do whenever the cursor is the id of a matching document. */
  lemma FlagsAreTruthfulAtDocuments(coll: seq<Doc>, f: Filter, forward: bool, limit: nat, i: nat)
    requires SortedBy(true, coll) && ID !in f && limit >= 1 && i < |Listing(coll, f, true)|
    ensures
      var all := Listing(coll, f, true);
      Truthful(all, PageByCursor(coll, f, At(all[i].id), forward, limit), forward, if forward then i + 1 else i, limit)
  {
    var all := Listing(coll, f, true);
    PlainPool(f, At(all[i].id));
    CutAfter(coll, f, all, i);
    PageIsWindow(coll, f, all, At(all[i].id), forward, limit, if forward then i + 1 else i);
  }

  // ------------------------------------- FindWithCursor in the previous direction

  lemma {:induction false} AheadAtCut(asc: bool, docs: seq<Doc>, c: int, cut: nat)
    requires Divides(asc, docs, c, cut)
    ensures Ahead(asc, docs, c) == docs[..cut]
  {
    if cut == 0 {
    } else {
      AheadAtCut(asc, docs[1..], c, cut - 1);
    }
  }

  /** Exactly the first cut documents of a listing precede a position. */
  predicate Divides(asc: bool, docs: seq<Doc>, c: int, cut: nat) {
    && cut <= |docs|
    && (forall i :: 0 <= i < cut ==> Precedes(asc, docs[i].id, c))
    && (forall i :: cut <= i < |docs| ==> !Precedes(asc, docs[i].id, c))
  }

  /** Only the filter flips, not the sort: it returns the head of the listing, reversed. */
  lemma PreviousIsReversedHead(coll: seq<Doc>, f: Filter, c: int, limit: int, asc: bool, base: seq<Doc>, cut: nat)
    requires SortedBy(true, coll) && base == Listing(coll, f - {ID}, asc) && Divides(asc, base, c, cut)
    ensures PageWithCursor(coll, f, CursorOpts(At(c), Previous, limit, asc)).items
            == Reversed(Take(base[..cut], LimitOrDefault(limit)))
  {
    PreviousItems(coll, f, CursorOpts(At(c), Previous, limit, asc), base, cut);
  }

  lemma PreviousItems(coll: seq<Doc>, f: Filter, opts: CursorOpts, base: seq<Doc>, cut: nat)
    requires SortedBy(true, coll) && opts.cursor.At? && opts.direction.Previous?
    requires base == Listing(coll, f - {ID}, opts.sortAsc) && Divides(opts.sortAsc, base, opts.cursor.id, cut)
    ensures PageWithCursor(coll, f, opts).items == Reversed(Take(base[..cut], LimitOrDefault(opts.limit)))
  {
    var rows := Rows(coll, f, opts);
    assert rows == Take(base[..cut], LimitOrDefault(opts.limit) + 1) by {
      AheadAtCut(opts.sortAsc, base, opts.cursor.id, cut);
      PreviousRows(coll, f, opts, base);
    }
    PreviousResult(rows, base[..cut], opts);
  }

  lemma PreviousRows(coll: seq<Doc>, f: Filter, opts: CursorOpts, base: seq<Doc>)
    requires SortedBy(true, coll) && opts.cursor.At? && opts.direction.Previous?
    requires base == Listing(coll, f - {ID}, opts.sortAsc)
    ensures Rows(coll, f, opts) == Take(Ahead(opts.sortAsc, base, opts.cursor.id), LimitOrDefault(opts.limit) + 1)
  {
    FlippedQuery(coll, f, opts.sortAsc, opts.cursor.id, LimitOrDefault(opts.limit) + 1);
  }

  lemma PreviousResult(rows: seq<Doc>, docs: seq<Doc>, opts: CursorOpts)
    requires opts.direction.Previous? && rows == Take(docs, LimitOrDefault(opts.limit) + 1)
    ensures ResultOfRows(rows, opts).items == Reversed(Take(docs, LimitOrDefault(opts.limit)))
  {
    var n := LimitOrDefault(opts.limit);
    assert Take(Take(docs, n + 1), n) == Take(docs, n);
  }

  /** The page of n documents before position cut. */
  function Preceding(all: seq<Doc>, cut: nat, n: nat): seq<Doc>
    requires cut <= |all|
  {
    all[WindowLow(false, cut, n)..cut]
  }

  /** So it is the preceding page exactly when at most one matching document precedes the cursor and
      forgetting the _id condition puts no other in its place. */
  lemma PreviousIsPrecedingPageIff(coll: seq<Doc>, f: Filter, c: int, limit: int, asc: bool, cut: nat, poolCut: nat)
    requires SortedBy(true, coll)
    requires Divides(asc, Listing(coll, f, asc), c, cut) && Divides(asc, Listing(coll, f - {ID}, asc), c, poolCut)
    ensures
      var all, base, n := Listing(coll, f, asc), Listing(coll, f - {ID}, asc), LimitOrDefault(limit);
      PageWithCursor(coll, f, CursorOpts(At(c), Previous, limit, asc)).items == Preceding(all, cut, n) <==>
      && cut <= 1 && (cut == 0 ==> poolCut == 0)
      && (cut == 1 ==> poolCut > 0 && base[0] == all[0] && (n == 1 || poolCut == 1))
  {
    var all, base, n := Listing(coll, f, asc), Listing(coll, f - {ID}, asc), LimitOrDefault(limit);
    PreviousIsReversedHead(coll, f, c, limit, asc, base, poolCut);
    ListingIsSorted(coll, f, asc);
    ListingIsSorted(coll, f - {ID}, asc);
    if cut > 0 {
      FirstIsInBase(coll, f, asc);
    }
    HeadVersusTail(asc, all, base, cut, poolCut, n);
  }

  lemma FirstIsInBase(coll: seq<Doc>, f: Filter, asc: bool)
    requires SortedBy(true, coll) && Listing(coll, f, asc) != []
    ensures
      var d, base := Listing(coll, f, asc)[0], Listing(coll, f - {ID}, asc);
      base != [] && !Precedes(asc, d.id, base[0].id)
  {
    var d, base := Listing(coll, f, asc)[0], Listing(coll, f - {ID}, asc);
    ListingMembers(coll, f, asc);
    ListingMembers(coll, f - {ID}, asc);
    MatchesWithoutId(d, f);
    assert d in base;
    ListingIsSorted(coll, f - {ID}, asc);
  }

  lemma HeadVersusTail(asc: bool, all: seq<Doc>, base: seq<Doc>, cut: nat, poolCut: nat, n: nat)
    requires SortedBy(asc, all) && SortedBy(asc, base) && cut <= |all| && poolCut <= |base| && n >= 1
    requires cut > 0 ==> base != [] && !Precedes(asc, all[0].id, base[0].id)
    ensures Reversed(Take(base[..poolCut], n)) == Preceding(all, cut, n) <==>
      && cut <= 1 && (cut == 0 ==> poolCut == 0)
      && (cut == 1 ==> poolCut > 0 && base[0] == all[0] && (n == 1 || poolCut == 1))
  {
    var taken := Take(base[..poolCut], n);
    if cut >= 2 {
      if taken != [] {
        EndsDiffer(asc, Reversed(taken), Preceding(all, cut, n), base[0].id, all[0].id, all[cut - 1].id);
      }
    } else {
      assert Preceding(all, cut, n) == all[..cut];
      assert |Reversed(taken)| == Min(poolCut, n);
      assert taken != [] ==> Reversed(taken)[|taken| - 1] == base[0];
    }
  }

  lemma EndsDiffer(asc: bool, head: seq<Doc>, tail: seq<Doc>, first: int, next: int, last: int)
    requires head != [] && head[|head| - 1].id == first && tail != [] && tail[|tail| - 1].id == last
    requires !Precedes(asc, next, first) && Precedes(asc, next, last)
    ensures head != tail
  {
  }

  // ------------------------------------------------------- sizes, cursors and flags

  /** FindByCursor uses a page size from 1 to 300 as asked for, and 25 for any other; FindWithCursor
      uses any positive limit, and 300 for any other. */
  lemma SizeIsUsed(n: int)
    ensures 1 <= n <= 300 ==> PerPage(n) == n
    ensures n < 1 || n > 300 ==> PerPage(n) == 25
    ensures n >= 1 ==> LimitOrDefault(n) == n
    ensures n < 1 ==> LimitOrDefault(n) == 300
  {
  }

  /** A page never holds more, and says what its size was. */
  lemma PageKeepsSize(coll: seq<Doc>, f: Filter, cursor: Cursor, forward: bool, limit: nat)
    ensures |PageByCursor(coll, f, cursor, forward, limit).items| <= limit
    ensures PageByCursor(coll, f, cursor, forward, limit).perPage == limit
  {
  }

  /** FindWithCursor's cursors are the ids of the first and the last document shown, each given exactly
      when its flag is set; an empty page has neither. */
  lemma CursorsAreEnds(coll: seq<Doc>, f: Filter, opts: CursorOpts)
    ensures
      var page := PageWithCursor(coll, f, opts);
      && page.nextCursor.Some? == page.hasNext && page.prevCursor.Some? == page.hasPrevious
      && (page.items == [] ==> !page.hasNext && !page.hasPrevious)
      && (page.hasNext ==> page.nextCursor == Some(page.items[|page.items| - 1].id))
      && (page.hasPrevious ==> page.prevCursor == Some(page.items[0].id))
  {
  }

  /** Going forward from lo, HasNext says whether documents remain, and HasPrevious whether a cursor was
      given at all. */
  lemma ForwardFlagsAre(coll: seq<Doc>, f: Filter, opts: CursorOpts, all: seq<Doc>, lo: nat)
    requires SortedBy(true, coll) && opts.direction.Next? && all == Listing(coll, Pool(f, opts.cursor), opts.sortAsc)
    requires lo <= |all| && Remaining(opts.sortAsc, all, opts.cursor) == all[lo..]
    ensures
      var page := PageWithCursor(coll, f, opts);
      && page.hasNext == (lo + LimitOrDefault(opts.limit) < |all|)
      && page.hasPrevious == (lo < |all| && !opts.cursor.NoCursor?)
  {
    var n := LimitOrDefault(opts.limit);
    ForwardQuery(coll, f, opts.sortAsc, opts.cursor, n + 1);
    NextFlags(all[lo..], opts);
  }

  lemma NextFlags(docs: seq<Doc>, opts: CursorOpts)
    requires opts.direction.Next?
    ensures
      var n := LimitOrDefault(opts.limit);
      var page := ResultOfRows(Take(docs, n + 1), opts);
      page.hasNext == (|docs| > n) && page.hasPrevious == (docs != [] && !opts.cursor.NoCursor?)
  {
  }

  lemma PreviousFlags(docs: seq<Doc>, opts: CursorOpts)
    requires opts.direction.Previous?
    ensures
      var n := LimitOrDefault(opts.limit);
      var page := ResultOfRows(Take(docs, n + 1), opts);
      page.hasPrevious == (|docs| > n) && page.hasNext == (docs != [] && !opts.cursor.NoCursor?)
  {
  }

  /** Going back from a cursor that cut documents precede, HasPrevious says whether they are more than
      one page, and HasNext whether there are any. */
  lemma BackwardFlagsAre(coll: seq<Doc>, f: Filter, c: int, limit: int, asc: bool, base: seq<Doc>, cut: nat)
    requires SortedBy(true, coll) && base == Listing(coll, f - {ID}, asc) && Divides(asc, base, c, cut)
    ensures
      var page := PageWithCursor(coll, f, CursorOpts(At(c), Previous, limit, asc));
      page.hasPrevious == (cut > LimitOrDefault(limit)) && page.hasNext == (cut > 0)
  {
    AheadAtCut(asc, base, c, cut);
    PreviousRows(coll, f, CursorOpts(At(c), Previous, limit, asc), base);
    PreviousFlags(base[..cut], CursorOpts(At(c), Previous, limit, asc));
  }

  // -------------------------------------------------------------- failing inputs

  lemma MatchingOne(d: Doc, rest: seq<Doc>, f: Filter)
    ensures Matching([d] + rest, f) == if Matches(d, f) then [d] + Matching(rest, f) else Matching(rest, f)
  {
    assert ([d] + rest)[1..] == rest;
  }

  /** Ids 1 to 4 under _id in {1, 3, 4}, two a page: the first page is 1, 3; back from 4 it is 2, 3. */
  lemma ForgottenListBreaksBack(d1: Doc, d2: Doc, d3: Doc, d4: Doc)
    requires d1.id == 1 && d2.id == 2 && d3.id == 3 && d4.id == 4
    ensures
      var coll, f := [d1, d2, d3, d4], map[ID := OneOf({1, 3, 4})];
      var a := PageByCursor(coll, f, NoCursor, true, 2);
      a.items == [d1, d3] && BackFrom(coll, f, a, 2).items != a.items
  {
    var coll, f := [d1, d2, d3, d4], map[ID := OneOf({1, 3, 4})];
    var all := [d1, d3, d4];
    assert Listing(coll, f, true) == all by { ListOfThree(d1, d2, d3, d4, f); }
    PageIsWindow(coll, f, all, NoCursor, true, 2, 0);
    BackwardUndoesForwardIff(coll, f, NoCursor, 2);
    assert f - {ID} == map[] && d2 in coll && Matches(d2, f - {ID}) && !Holds(d2, ID, f[ID]);
  }

  lemma ListOfThree(d1: Doc, d2: Doc, d3: Doc, d4: Doc, f: Filter)
    requires d1.id == 1 && d2.id == 2 && d3.id == 3 && d4.id == 4 && f == map[ID := OneOf({1, 3, 4})]
    ensures Matching([d1, d2, d3, d4], f) == [d1, d3, d4]
  {
    assert Matches(d1, f) && Matches(d3, f) && Matches(d4, f) && !Matches(d2, f) by { assert !Holds(d2, ID, f[ID]); }
    MatchingOne(d4, [], f);
    MatchingOne(d3, [d4], f);
    MatchingOne(d2, [d3, d4], f);
    MatchingOne(d1, [d2, d3, d4], f);
    assert [d4] + [] == [d4] && [d3] + [d4] == [d3, d4] && [d2] + [d3, d4] == [d2, d3, d4];
    assert [d1] + [d2, d3, d4] == [d1, d2, d3, d4] && [d1] + [d3, d4] == [d1, d3, d4];
  }

  /** A cursor ahead of the only document: HasPrev is set although nothing comes before. */
  lemma FarCursorMisleads(d: Doc, limit: nat)
    requires d.id == 1 && limit >= 1
    ensures
      var page := PageByCursor([d], map[], At(0), true, limit);
      page.items == [d] && page.hasPrev && !Truthful([d], page, true, 0, limit)
  {
    var f: Filter := map[];
    MatchingAllIff([d], f);
    PlainPool(f, At(0));
    PageIsWindow([d], f, [d], At(0), true, limit, 0);
  }

  /** Ids 1 to 3, two a page: before 3 FindWithCursor shows 2, 1 and not 1, 2. */
  lemma PreviousIsReversed(d1: Doc, d2: Doc, d3: Doc)
    requires d1.id == 1 && d2.id == 2 && d3.id == 3
    ensures PageWithCursor([d1, d2, d3], map[], CursorOpts(At(3), Previous, 2, true)).items == [d2, d1]
  {
    var coll, f: Filter := [d1, d2, d3], map[];
    MatchingAllIff(coll, f);
    PlainPool(f, At(3));
    PreviousIsReversedHead(coll, f, 3, 2, true, coll, 2);
    assert Take(coll[..2], 2) == [d1, d2];
  }
}
