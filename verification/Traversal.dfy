/** Pages, and following cursors from page to page. */
module Traversal {
  import opened Optional

  /** One page: its items, and the cursor of the next page if there is one. */
  datatype Slice<T, C> = Slice(items: seq<T>, next: Option<C>)

  /** What a client collects that follows next cursors, making at most fuel further requests. */
  function Follow<T, C>(fetch: C -> Slice<T, C>, cursor: C, fuel: nat): seq<T>
    decreases fuel
  {
    var page := fetch(cursor);
    if page.next.None? || fuel == 0 then page.items
    else page.items + Follow(fetch, page.next.value, fuel - 1)
  }

  function Take<T>(items: seq<T>, n: nat): (r: seq<T>)
    ensures |r| <= n
  {
    if |items| <= n then items else items[..n]
  }

  function Min(a: nat, b: nat): nat {
    if a <= b then a else b
  }

  /** From a cursor standing at position lo, a fetch yields the next limit items of the list,
      a next cursor exactly when items remain, and that cursor stands where the page ends. */
  ghost predicate PageAt<T, C>(page: Slice<T, C>, all: seq<T>, limit: nat, at: (C, nat) -> bool, lo: nat) {
    && lo <= |all|
    && page.items == all[lo..Min(lo + limit, |all|)]
    && (page.next.Some? <==> lo + limit < |all|)
    && (page.next.Some? ==> at(page.next.value, lo + limit))
  }

  ghost predicate PagesThrough<T, C(!new)>(fetch: C -> Slice<T, C>, all: seq<T>, limit: nat, at: (C, nat) -> bool) {
    forall c, lo: nat :: at(c, lo) ==> PageAt(fetch(c), all, limit, at, lo)
  }

  /** Then following cursors returns everything from there on, once and in order. */
  lemma {:induction false} FollowReturnsAll<T, C(!new)>(
    fetch: C -> Slice<T, C>, all: seq<T>, limit: nat, at: (C, nat) -> bool, c: C, lo: nat, fuel: nat)
    requires limit >= 1 && PagesThrough(fetch, all, limit, at) && at(c, lo) && fuel >= |all| - lo
    ensures Follow(fetch, c, fuel) == all[lo..]
    decreases fuel
  {
    var page, hi := fetch(c), Min(lo + limit, |all|);
    assert PageAt(page, all, limit, at, lo);
    if page.next.Some? {
      FollowReturnsAll(fetch, all, limit, at, page.next.value, lo + limit, fuel - 1);
      assert all[lo..hi] + all[hi..] == all[lo..];
    } else {
      assert all[lo..hi] == all[lo..];
    }
  }
}
