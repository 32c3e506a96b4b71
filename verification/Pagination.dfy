/** Walking a listing page by page: `paginate` of src/agent-store.ts. */
module Pagination {
  import opened Prelude

  datatype Page<T> = Page(items: seq<T>, next: Option<string>)

  /** `findIndex`, or none. */
  function FirstIndex(ids: seq<string>, id: string): (r: Option<nat>)
    ensures r.Some? ==> r.value < |ids| && ids[r.value] == id && forall j | 0 <= j < r.value :: ids[j] != id
    ensures r.None? ==> id !in ids
  {
    if ids == [] then None
    else if ids[0] == id then Some(0)
    else
      var r := FirstIndex(ids[1..], id);
      if r.Some? then
        assert forall j | 0 < j < r.value + 1 :: ids[j] == ids[1..][j - 1];
        Some(r.value + 1)
      else None
  }

  /** Where the page after this cursor starts; an empty or unknown cursor starts over. */
  function Start(ids: seq<string>, cursor: Option<string>): (r: nat)
    ensures r <= |ids|
  {
    if cursor.Some? && cursor.value != "" && FirstIndex(ids, cursor.value).Some?
    then FirstIndex(ids, cursor.value).value + 1 else 0
  }

  function Min(a: nat, b: nat): nat { if a <= b then a else b }

  function PageEnd(n: nat, start: nat, limit: Option<int>): nat
    requires start <= n
  {
    if limit.Some? && limit.value >= 0 then Min(start + limit.value, n) else n
  }

  /** The items from the cursor on, and the id of the last one if more follow. */
  function PageAt<T>(items: seq<T>, ids: seq<string>, cursor: Option<string>, limit: Option<int>): Page<T>
    requires |ids| == |items|
  {
    var start := Start(ids, cursor);
    var end := PageEnd(|items|, start, limit);
    Page(items[start..end], if end < |items| && start < end then Some(ids[end - 1]) else None)
  }

  method Paginate<T>(items: seq<T>, idOf: T -> string, cursor: Option<string>, limit: Option<int>) returns (page: Page<T>)
    ensures page == PageAt(items, Ids(items, idOf), cursor, limit)
  {
    var start := 0;
    if cursor.Some? && cursor.value != "" {
      var index := FindIndex(Ids(items, idOf), cursor.value);
      if index.Some? { start := index.value + 1; }
    }
    var end := |items|;
    if limit.Some? && limit.value >= 0 && start + limit.value < |items| { end := start + limit.value; }
    var shown := items[start..end];
    var hasMore := start + |shown| < |items|;
    page := Page(shown, if hasMore && shown != [] then Some(idOf(shown[|shown| - 1])) else None);
  }

  method FindIndex(ids: seq<string>, id: string) returns (index: Option<nat>)
    ensures index == FirstIndex(ids, id)
  {
    var i := 0;
    while i < |ids|
      invariant 0 <= i <= |ids| && forall j | 0 <= j < i :: ids[j] != id
    {
      if ids[i] == id { return Some(i); }
      i := i + 1;
    }
    index := None;
  }

  function Ids<T>(items: seq<T>, idOf: T -> string): (r: seq<string>)
    ensures |r| == |items| && forall i | 0 <= i < |items| :: r[i] == idOf(items[i])
  {
    seq(|items|, i requires 0 <= i < |items| => idOf(items[i]))
  }

  // ---- following nextCursor ------------------------------------------------------------------------------

  /** Everything a client collects by following the cursor; nothing if that takes more than `fuel` further requests. */
  function Walk<T>(items: seq<T>, ids: seq<string>, limit: nat, cursor: Option<string>, fuel: nat): Option<seq<T>>
    requires |ids| == |items|
    decreases fuel
  {
    var page := PageAt(items, ids, cursor, Some(limit));
    if page.next.None? then Some(page.items)
    else if fuel == 0 then None
    else
      var rest := Walk(items, ids, limit, page.next, fuel - 1);
      if rest.Some? then Some(page.items + rest.value) else None
  }

  /** The walk ends, with every item once and in order. */
  ghost predicate WalkIsExact<T>(items: seq<T>, ids: seq<string>, limit: nat)
    requires |ids| == |items|
  {
    exists fuel :: Walk(items, ids, limit, None, fuel) == Some(items)
  }

  /** An id that finds its own position as a cursor. */
  predicate FindsItself(ids: seq<string>, i: nat)
    requires i < |ids|
  {
    ids[i] != "" && forall j | 0 <= j < i :: ids[j] != ids[i]
  }

  /** The ids at the ends of full pages other than the last do. */
  ghost predicate GoodBoundaries(ids: seq<string>, limit: nat) {
    forall k: nat {:trigger Boundary(k, limit)} | 0 <= Boundary(k, limit) < |ids| - 1 :: FindsItself(ids, Boundary(k, limit))
  }

  function Boundary(k: nat, limit: nat): int { k * limit - 1 }

  lemma StartAfter(ids: seq<string>, i: nat)
    requires i < |ids|
    ensures FindsItself(ids, i) ==> Start(ids, Some(ids[i])) == i + 1
    ensures !FindsItself(ids, i) ==> Start(ids, Some(ids[i])) <= i
  {
    assert ids[i] in ids;
  }

  /** However it got there, a walk that ends delivers at least all items from where it starts. */
  lemma {:induction false} WalkCovers<T>(items: seq<T>, ids: seq<string>, limit: nat, cursor: Option<string>, fuel: nat)
    requires |ids| == |items| && limit >= 1 && Walk(items, ids, limit, cursor, fuel).Some?
    ensures |Walk(items, ids, limit, cursor, fuel).value| >= |items| - Start(ids, cursor)
    decreases fuel
  {
    var page := PageAt(items, ids, cursor, Some(limit));
    if page.next.Some? {
      var end := PageEnd(|items|, Start(ids, cursor), Some(limit));
      WalkCovers(items, ids, limit, page.next, fuel - 1);
      StartAfter(ids, end - 1);
    }
  }

  /** The page after `k` full pages. */
  lemma FullPages<T>(items: seq<T>, ids: seq<string>, limit: nat, cursor: Option<string>, k: nat)
    requires |ids| == |items| && limit >= 1 && Start(ids, cursor) == k * limit
    ensures (k + 1) * limit == k * limit + limit
    ensures (k + 1) * limit >= |items| ==> PageAt(items, ids, cursor, Some(limit)) == Page(items[k * limit..], None)
    ensures (k + 1) * limit < |items| ==>
      PageAt(items, ids, cursor, Some(limit)) == Page(items[k * limit..(k + 1) * limit], Some(ids[Boundary(k + 1, limit)]))
  {
  }

  lemma WalkStep<T>(items: seq<T>, ids: seq<string>, limit: nat, cursor: Option<string>, fuel: nat, shown: seq<T>, next: string)
    requires |ids| == |items| && fuel > 0 && PageAt(items, ids, cursor, Some(limit)) == Page(shown, Some(next))
    ensures Walk(items, ids, limit, cursor, fuel).Some? <==> Walk(items, ids, limit, Some(next), fuel - 1).Some?
    ensures Walk(items, ids, limit, cursor, fuel).Some? ==>
      Walk(items, ids, limit, cursor, fuel).value == shown + Walk(items, ids, limit, Some(next), fuel - 1).value
  {
  }

  lemma {:induction false} WalkFrom<T>(items: seq<T>, ids: seq<string>, limit: nat, cursor: Option<string>, k: nat, fuel: nat)
    requires |ids| == |items| && limit >= 1 && Start(ids, cursor) == k * limit
    requires fuel >= |items| - k * limit
    requires forall j: nat {:trigger Boundary(j, limit)} | j > k && Boundary(j, limit) < |ids| - 1 :: FindsItself(ids, Boundary(j, limit))
    ensures Walk(items, ids, limit, cursor, fuel) == Some(items[k * limit..])
    decreases fuel
  {
    FullPages(items, ids, limit, cursor, k);
    if (k + 1) * limit < |items| {
      var next := ids[Boundary(k + 1, limit)];
      StartAfter(ids, Boundary(k + 1, limit));
      WalkFrom(items, ids, limit, Some(next), k + 1, fuel - 1);
      WalkStep(items, ids, limit, cursor, fuel, items[k * limit..(k + 1) * limit], next);
      assert items[k * limit..(k + 1) * limit] + items[(k + 1) * limit..] == items[k * limit..];
    }
  }

  /** Up to the first bad boundary the walk is right, and from there on it delivers something twice. */
  lemma {:induction false} WalkGoesWrong<T>(
    items: seq<T>, ids: seq<string>, limit: nat, cursor: Option<string>, k: nat, bad: nat, fuel: nat)
    requires |ids| == |items| && limit >= 1 && Start(ids, cursor) == k * limit
    requires bad > k && Boundary(bad, limit) < |ids| - 1 && !FindsItself(ids, Boundary(bad, limit))
    requires forall j: nat {:trigger Boundary(j, limit)} | k < j < bad && Boundary(j, limit) < |ids| - 1 ::
      FindsItself(ids, Boundary(j, limit))
    requires Walk(items, ids, limit, cursor, fuel).Some?
    ensures |Walk(items, ids, limit, cursor, fuel).value| > |items| - k * limit
    decreases fuel
  {
    FullPages(items, ids, limit, cursor, k);
    MultiplyUp(k + 1, bad, limit);
    var next := ids[Boundary(k + 1, limit)];
    StartAfter(ids, Boundary(k + 1, limit));
    WalkStep(items, ids, limit, cursor, fuel, items[k * limit..(k + 1) * limit], next);
    if bad == k + 1 {
      WalkCovers(items, ids, limit, Some(next), fuel - 1);
    } else {
      WalkGoesWrong(items, ids, limit, Some(next), k + 1, bad, fuel - 1);
    }
  }

  lemma MultiplyUp(a: nat, b: nat, c: nat)
    requires a <= b
    ensures a * c <= b * c
  {
  }

  lemma {:induction false} FirstBad(ids: seq<string>, limit: nat, bound: nat) returns (bad: nat)
    requires limit >= 1
    requires exists k: nat :: k < bound && 0 <= Boundary(k, limit) < |ids| - 1 && !FindsItself(ids, Boundary(k, limit))
    ensures bad >= 1 && 0 <= Boundary(bad, limit) < |ids| - 1 && !FindsItself(ids, Boundary(bad, limit))
    ensures forall j: nat {:trigger Boundary(j, limit)} | 0 < j < bad && Boundary(j, limit) < |ids| - 1 ::
      FindsItself(ids, Boundary(j, limit))
  {
    var k: nat :| k < bound && 0 <= Boundary(k, limit) < |ids| - 1 && !FindsItself(ids, Boundary(k, limit));
    if exists j: nat :: j < k && 0 <= Boundary(j, limit) < |ids| - 1 && !FindsItself(ids, Boundary(j, limit)) {
      bad := FirstBad(ids, limit, k);
    } else {
      bad := k;
      assert k >= 1;
      forall j: nat {:trigger Boundary(j, limit)} | 0 < j < k && Boundary(j, limit) < |ids| - 1
        ensures FindsItself(ids, Boundary(j, limit))
      {
        MultiplyUp(1, j, limit);
      }
    }
  }

  /** Following `nextCursor` collects every item once, in order, exactly if every inner page ends with an id that finds itself. */
  lemma WalkExactlyWhen<T>(items: seq<T>, ids: seq<string>, limit: nat)
    requires |ids| == |items| && limit >= 1
    ensures WalkIsExact(items, ids, limit) <==> GoodBoundaries(ids, limit)
  {
    if GoodBoundaries(ids, limit) {
      forall j: nat {:trigger Boundary(j, limit)} | j > 0 && Boundary(j, limit) < |ids| - 1
        ensures FindsItself(ids, Boundary(j, limit))
      {
        MultiplyUp(1, j, limit);
      }
      WalkFrom(items, ids, limit, None, 0, |items|);
      assert items[0 * limit..] == items;
    } else {
      var k: nat :| 0 <= Boundary(k, limit) < |ids| - 1 && !FindsItself(ids, Boundary(k, limit));
      var bad := FirstBad(ids, limit, k + 1);
      forall fuel ensures Walk(items, ids, limit, None, fuel) != Some(items) {
        if Walk(items, ids, limit, None, fuel).Some? { WalkGoesWrong(items, ids, limit, None, 0, bad, fuel); }
      }
    }
  }

  /** In particular with distinct, non-empty ids. */
  lemma DistinctIdsWalk<T>(items: seq<T>, ids: seq<string>, limit: nat)
    requires |ids| == |items| && limit >= 1 && "" !in ids
    requires forall i, j | 0 <= i < j < |ids| :: ids[i] != ids[j]
    ensures WalkIsExact(items, ids, limit)
  {
    forall k: nat {:trigger Boundary(k, limit)} | 0 <= Boundary(k, limit) < |ids| - 1
      ensures FindsItself(ids, Boundary(k, limit))
    {
      assert ids[Boundary(k, limit)] in ids;
    }
    WalkExactlyWhen(items, ids, limit);
  }

  /** Two checkpoints of one name, asked for one at a time: the walk never ends. */
  lemma {:induction false} SharedBlobNameLoops(fuel: nat)
    ensures Walk(["a", "a", "b"], ["a", "a", "b"], 1, None, fuel).None?
    ensures Walk(["a", "a", "b"], ["a", "a", "b"], 1, Some("a"), fuel).None?
  {
    var ids := ["a", "a", "b"];
    assert FirstIndex(ids, "a") == Some(0);
    if fuel > 0 { SharedBlobNameLoops(fuel - 1); }
  }
}
