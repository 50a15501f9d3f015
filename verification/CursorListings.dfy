/** Listings of a MongoDB collection: what a filter matches in sort order, and what a cursor does to it. */
module CursorListings {
  import opened CursorPages
  import opened Traversal

  // ------------------------------------------------------- order and filtering

  /** What is left of a listing beyond a position. */
  function Rest(asc: bool, docs: seq<Doc>, c: int): seq<Doc> {
    if docs == [] then []
    else if Precedes(asc, c, docs[0].id) then docs
    else Rest(asc, docs[1..], c)
  }

  /** What a listing holds ahead of a position. */
  function Ahead(asc: bool, docs: seq<Doc>, c: int): seq<Doc> {
    if docs == [] || !Precedes(asc, docs[0].id, c) then []
    else [docs[0]] + Ahead(asc, docs[1..], c)
  }

  lemma {:induction false} MatchingIsSorted(asc: bool, docs: seq<Doc>, f: Filter)
    requires SortedBy(asc, docs)
    ensures SortedBy(asc, Matching(docs, f))
    ensures forall d :: d in Matching(docs, f) ==> d in docs
  {
    if docs == [] {
    } else {
      MatchingIsSorted(asc, docs[1..], f);
      var rest := Matching(docs[1..], f);
      assert forall i :: 0 <= i < |rest| ==> rest[i] in docs[1..];
    }
  }

  lemma ScanIsSorted(coll: seq<Doc>, asc: bool)
    requires SortedBy(true, coll)
    ensures SortedBy(asc, Scan(coll, asc))
  {
  }

  /** A cursor replaces whatever the filter said about _id and keeps every other condition. */
  lemma CursorReplacesIdCondition(doc: Doc, f: Filter, cond: Cond)
    ensures Matches(doc, f[ID := cond]) <==> Matches(doc, f - {ID}) && Compare(doc.id, cond)
  {
    var g, h := f[ID := cond], f - {ID};
    if Matches(doc, g) {
      assert Holds(doc, ID, g[ID]);
      forall k | k in h ensures Holds(doc, k, h[k]) {
        assert g[k] == h[k] && Holds(doc, k, g[k]);
      }
    }
    if Matches(doc, h) && Compare(doc.id, cond) {
      forall k | k in g ensures Holds(doc, k, g[k]) {
        assert k != ID ==> g[k] == h[k] && Holds(doc, k, h[k]);
      }
    }
  }

  lemma {:induction false} AllBeyond(asc: bool, docs: seq<Doc>, f: Filter, c: int)
    requires forall i :: 0 <= i < |docs| ==> Precedes(asc, c, docs[i].id)
    ensures Matching(docs, f[ID := Beyond(asc, c)]) == Matching(docs, f - {ID})
  {
    if docs == [] {
    } else {
      CursorReplacesIdCondition(docs[0], f, Beyond(asc, c));
      AllBeyond(asc, docs[1..], f, c);
    }
  }

  /** On a sorted scan the cursor condition cuts off exactly the part up to the cursor, of what
      the rest of the filter matches. */
  lemma {:induction false} CursorCuts(asc: bool, docs: seq<Doc>, f: Filter, c: int)
    requires SortedBy(asc, docs)
    ensures Matching(docs, f[ID := Beyond(asc, c)]) == Rest(asc, Matching(docs, f - {ID}), c)
  {
    if docs == [] {
    } else {
      CursorReplacesIdCondition(docs[0], f, Beyond(asc, c));
      var m := Matching(docs, f - {ID});
      if Precedes(asc, c, docs[0].id) {
        AllBeyond(asc, docs, f, c);
        MatchingIsSorted(asc, docs, f - {ID});
        assert m != [] ==> m[0] in docs;
      } else {
        CursorCuts(asc, docs[1..], f, c);
        assert Matches(docs[0], f - {ID}) ==> m[1..] == Matching(docs[1..], f - {ID});
      }
    }
  }

  lemma {:induction false} NoneAhead(asc: bool, docs: seq<Doc>, f: Filter, c: int)
    requires forall i :: 0 <= i < |docs| ==> !Precedes(asc, docs[i].id, c)
    ensures Matching(docs, f[ID := Beyond(!asc, c)]) == []
  {
    if docs == [] {
    } else {
      CursorReplacesIdCondition(docs[0], f, Beyond(!asc, c));
      NoneAhead(asc, docs[1..], f, c);
    }
  }

  /** The flipped condition keeps exactly the part ahead of the cursor. */
  lemma {:induction false} FlippedCursorCuts(asc: bool, docs: seq<Doc>, f: Filter, c: int)
    requires SortedBy(asc, docs)
    ensures Matching(docs, f[ID := Beyond(!asc, c)]) == Ahead(asc, Matching(docs, f - {ID}), c)
  {
    if docs == [] {
    } else {
      CursorReplacesIdCondition(docs[0], f, Beyond(!asc, c));
      var m := Matching(docs, f - {ID});
      if Precedes(asc, docs[0].id, c) {
        FlippedCursorCuts(asc, docs[1..], f, c);
        assert Matches(docs[0], f - {ID}) ==> m[1..] == Matching(docs[1..], f - {ID});
      } else {
        NoneAhead(asc, docs, f, c);
        MatchingIsSorted(asc, docs, f - {ID});
        assert m != [] ==> m[0] in docs;
      }
    }
  }

  /** From the id of entry i of a sorted listing, the rest starts right after it. */
  lemma {:induction false} RestAfter(asc: bool, docs: seq<Doc>, i: nat)
    requires SortedBy(asc, docs) && i < |docs|
    ensures Rest(asc, docs, docs[i].id) == docs[i + 1..]
  {
    if i == 0 {
      assert |docs| > 1 ==> Precedes(asc, docs[0].id, docs[1..][0].id);
    } else {
      RestAfter(asc, docs[1..], i - 1);
      assert docs[1..][i..] == docs[i + 1..];
    }
  }

  // ------------------------------------------------------------------- listings

  /** The sorted listing of the matching documents. */
  function Listing(coll: seq<Doc>, f: Filter, asc: bool): seq<Doc> {
    Matching(Scan(coll, asc), f)
  }

  /** The filter a request obeys apart from its cursor: a cursor makes it forget conditions on _id. */
  function Pool(f: Filter, cursor: Cursor): Filter {
    if cursor.At? then f - {ID} else f
  }

  lemma PlainPool(f: Filter, cursor: Cursor)
    requires ID !in f
    ensures f - {ID} == f && Pool(f, cursor) == f
  {
  }

  lemma ListingIsSorted(coll: seq<Doc>, f: Filter, asc: bool)
    requires SortedBy(true, coll)
    ensures SortedBy(asc, Listing(coll, f, asc))
  {
    ScanIsSorted(coll, asc);
    MatchingIsSorted(asc, Scan(coll, asc), f);
  }

  lemma MatchesWithoutId(doc: Doc, f: Filter)
    requires Matches(doc, f)
    ensures Matches(doc, f - {ID})
  {
    forall k | k in f - {ID} ensures Holds(doc, k, (f - {ID})[k]) {
      assert Holds(doc, k, f[k]);
    }
  }

  /** Filtering without the _id condition and then with it is filtering with it. */
  lemma {:induction false} MatchingComposes(docs: seq<Doc>, f: Filter)
    ensures Matching(docs, f) == Matching(Matching(docs, f - {ID}), f)
  {
    if docs == [] {
    } else {
      MatchingComposes(docs[1..], f);
      var m := Matching(docs[1..], f - {ID});
      assert ([docs[0]] + m)[1..] == m;
      if Matches(docs[0], f) {
        MatchesWithoutId(docs[0], f);
      }
    }
  }

  predicate AllMatch(docs: seq<Doc>, f: Filter) {
    forall i :: 0 <= i < |docs| ==> Matches(docs[i], f)
  }

  lemma {:induction false} MatchingAllIff(docs: seq<Doc>, f: Filter)
    ensures Matching(docs, f) == docs <==> AllMatch(docs, f)
  {
    if docs == [] {
    } else {
      MatchingAllIff(docs[1..], f);
      MatchingIsShorter(docs[1..], f);
      assert docs == [docs[0]] + docs[1..];
      if Matches(docs[0], f) {
        assert Matching(docs, f)[1..] == Matching(docs[1..], f);
      }
    }
  }

  lemma {:induction false} MatchingMatches(docs: seq<Doc>, f: Filter)
    ensures AllMatch(Matching(docs, f), f)
  {
    if docs == [] {
    } else {
      MatchingMatches(docs[1..], f);
    }
  }

  /** The listing holds exactly the matching documents, each once, in sort order. */
  lemma ListingIsExact(coll: seq<Doc>, f: Filter, asc: bool)
    requires SortedBy(true, coll)
    ensures SortedBy(asc, Listing(coll, f, asc))
    ensures forall d :: d in Listing(coll, f, asc) <==> d in coll && Matches(d, f)
  {
    ListingIsSorted(coll, f, asc);
    ListingMembers(coll, f, asc);
  }

  lemma {:induction false} MatchingIsShorter(docs: seq<Doc>, f: Filter)
    ensures |Matching(docs, f)| <= |docs|
  {
    if docs == [] {
    } else {
      MatchingIsShorter(docs[1..], f);
    }
  }

  lemma {:induction false} MatchingMembers(docs: seq<Doc>, f: Filter, d: Doc)
    ensures d in Matching(docs, f) <==> d in docs && Matches(d, f)
  {
    if docs == [] {
    } else {
      MatchingMembers(docs[1..], f, d);
      assert docs == [docs[0]] + docs[1..];
    }
  }

  lemma ReversedHolds(docs: seq<Doc>, d: Doc)
    ensures d in Reversed(docs) <==> d in docs
  {
    var r := Reversed(docs);
    if d in docs {
      var i :| 0 <= i < |docs| && docs[i] == d;
      assert r[|docs| - 1 - i] == d;
    }
    if d in r {
      var i :| 0 <= i < |r| && r[i] == d;
      assert docs[|docs| - 1 - i] == d;
    }
  }

  lemma ScanHolds(coll: seq<Doc>, asc: bool)
    ensures forall d :: d in Scan(coll, asc) <==> d in coll
  {
    forall d ensures d in Scan(coll, asc) <==> d in coll {
      ReversedHolds(coll, d);
    }
  }

  lemma ListingMembers(coll: seq<Doc>, f: Filter, asc: bool)
    ensures forall d :: d in Listing(coll, f, asc) <==> d in coll && Matches(d, f)
  {
    ScanHolds(coll, asc);
    forall d ensures d in Listing(coll, f, asc) <==> d in coll && Matches(d, f) {
      MatchingMembers(Scan(coll, asc), f, d);
    }
  }

  lemma ReversedConcat(a: seq<Doc>, b: seq<Doc>)
    ensures Reversed(a + b) == Reversed(b) + Reversed(a)
  {
  }

  lemma {:induction false} MatchingConcat(a: seq<Doc>, b: seq<Doc>, f: Filter)
    ensures Matching(a + b, f) == Matching(a, f) + Matching(b, f)
  {
    if a == [] {
      assert a + b == b;
    } else {
      assert (a + b)[1..] == a[1..] + b;
      MatchingConcat(a[1..], b, f);
    }
  }

  lemma {:induction false} MatchingReversed(docs: seq<Doc>, f: Filter)
    ensures Matching(Reversed(docs), f) == Reversed(Matching(docs, f))
  {
    if docs == [] {
      assert Reversed(docs) == [];
    } else {
      var head, tail := [docs[0]], docs[1..];
      assert docs == head + tail;
      ReversedConcat(head, tail);
      MatchingConcat(Reversed(tail), Reversed(head), f);
      MatchingReversed(tail, f);
      MatchingConcat(head, tail, f);
      ReversedConcat(Matching(head, f), Matching(tail, f));
      assert Reversed(head) == head;
      assert Matching(head, f) == [] || Matching(head, f) == head;
      assert Reversed(Matching(head, f)) == Matching(head, f);
    }
  }

  /** The documents a forward page draws on. */
  function Remaining(asc: bool, all: seq<Doc>, cursor: Cursor): seq<Doc> {
    if cursor.At? then Rest(asc, all, cursor.id) else all
  }

  lemma ForwardQuery(coll: seq<Doc>, f: Filter, asc: bool, cursor: Cursor, limit: nat)
    requires SortedBy(true, coll)
    ensures Find(coll, WithCursor(f, cursor, asc), asc, limit)
            == Take(Remaining(asc, Listing(coll, Pool(f, cursor), asc), cursor), limit)
  {
    ScanIsSorted(coll, asc);
    if cursor.At? {
      CursorCuts(asc, Scan(coll, asc), f, cursor.id);
    }
  }

  /** Every matching document is also in the listing without the _id condition. */
  lemma IndexInBase(docs: seq<Doc>, f: Filter, m: nat) returns (i: nat)
    requires m < |Matching(docs, f)|
    ensures i < |Matching(docs, f - {ID})| && Matching(docs, f - {ID})[i] == Matching(docs, f)[m]
  {
    var d, base := Matching(docs, f)[m], Matching(docs, f - {ID});
    MatchingMembers(docs, f, d);
    MatchesWithoutId(d, f);
    MatchingMembers(docs, f - {ID}, d);
    i :| 0 <= i < |base| && base[i] == d;
  }

  /** With the condition flipped and the sort kept, a query returns the head of the listing. */
  lemma FlippedQuery(coll: seq<Doc>, f: Filter, asc: bool, c: int, limit: nat)
    requires SortedBy(true, coll)
    ensures Find(coll, WithCursor(f, At(c), !asc), asc, limit)
            == Take(Ahead(asc, Listing(coll, f - {ID}, asc), c), limit)
  {
    ScanIsSorted(coll, asc);
    FlippedCursorCuts(asc, Scan(coll, asc), f, c);
  }
}
