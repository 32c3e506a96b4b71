/**
 The shares of a rotation in src/key-pool.ts: how often each key comes out when one request after
 the other is served by weighted round robin, across the wrap of the cursor.
 */
module RotationShares {
  import opened Prelude
  import opened Routing
  import opened WeightedPick
  import opened KeyPool
  import opened KeyAccounting
  import opened CursorWrap
  import opened RotationSteps

  lemma RotationPick(pool: Pool, excluded: set<string>, opts: PickOptions, now: int, ids: seq<string>, ws: seq<nat>)
    requires Rotates(pool, excluded, opts, now, ids, ws)
    ensures |ids| == |ws| && Positive(ws)
    ensures
      var picked := Select(pool, excluded, opts, true, now).0;
      picked.Picked? && !picked.sticky && picked.key.id == ids[WeightedIndex(ws, pool.cursor)]
  {
    SelectionWithoutSession(pool, excluded, opts, now);
  }

  lemma PoolAfterRotation(
    pool: Pool, excluded: set<string>, opts: PickOptions, now: int, ids: seq<string>, ws: seq<nat>, pruned: Pool)
    requires Rotates(pool, excluded, opts, now, ids, ws)
    requires pruned == AfterPrune(pool, Screen(pool.keys, excluded, opts).keys, opts.bucket, now)
    ensures
      var next := Advanced(WithoutStale(pruned, Choices(pool.keys, excluded, opts, now), opts.sessionHash, now), true);
      next.cursor == NextCursor(pool.cursor) && Rotates(next, excluded, opts, now, ids, ws)
  {
    var choices, after := Choices(pool.keys, excluded, opts, now), Choices(pruned.keys, excluded, opts, now);
    ChoicesAfterPrune(pool, excluded, opts, now);
    PrunedDistinct(pool, Screen(pool.keys, excluded, opts).keys, opts.bucket, now);
    PoolAfterSelection(pool, pruned, choices, after, opts.sessionHash, now);
    RotatesOn(pool, Advanced(WithoutStale(pruned, choices, opts.sessionHash, now), true), excluded, opts, now, ids, ws);
  }

  lemma RotationStep(pool: Pool, excluded: set<string>, opts: PickOptions, now: int, ids: seq<string>, ws: seq<nat>)
    requires Rotates(pool, excluded, opts, now, ids, ws)
    ensures
      var next := Select(pool, excluded, opts, true, now).1;
      next.cursor == NextCursor(pool.cursor) && Rotates(next, excluded, opts, now, ids, ws)
  {
    SelectionWithoutSession(pool, excluded, opts, now);
    PoolAfterRotation(pool, excluded, opts, now, ids, ws,
                      AfterPrune(pool, Screen(pool.keys, excluded, opts).keys, opts.bucket, now));
  }

  lemma StickyPick(pool: Pool, excluded: set<string>, opts: PickOptions, now: int, id: string)
    requires Sticks(pool, excluded, opts, now, id)
    ensures Screen(pool.keys, excluded, opts).Candidates?
    ensures
      var (picked, next) := Select(pool, excluded, opts, true, now);
      && picked.Picked? && picked.sticky && picked.key.id == id
      && next == AfterPrune(pool, Screen(pool.keys, excluded, opts).keys, opts.bucket, now)
  {
  }

  lemma StickyStep(pool: Pool, excluded: set<string>, opts: PickOptions, now: int, id: string)
    requires Sticks(pool, excluded, opts, now, id)
    ensures Returns(Select(pool, excluded, opts, true, now).0, id, true)
    ensures Sticks(Select(pool, excluded, opts, true, now).1, excluded, opts, now, id)
  {
    StickyPick(pool, excluded, opts, now, id);
    var next := Select(pool, excluded, opts, true, now).1;
    ChoicesAfterPrune(pool, excluded, opts, now);
    FindById(Choices(pool.keys, excluded, opts, now), id);
    FindById(Choices(next.keys, excluded, opts, now), id);
  }

  /** Selections that walk the weights by cursor return each key when its turn comes. */
  lemma {:induction false} PicksAreWrappedHits(
    select: Pool -> (Selection, Pool), pool: Pool, ids: seq<string>, ws: seq<nat>, i: nat, n: nat)
    requires i < |ids| == |ws| && Positive(ws) && DistinctIds(ids) && Walks(select, pool, ids, ws, n)
    ensures TimesPicked(select, pool, ids[i], false, n) == WrappedHits(ws, i, pool.cursor, n)
    decreases n
  {
    if n > 0 {
      WalkStep(select, pool, ids, ws, i, n);
      PicksAreWrappedHits(select, select(pool).1, ids, ws, i, n - 1);
    }
  }

  lemma {:induction false} RotationWalks(
    pool: Pool, excluded: set<string>, opts: PickOptions, now: int, ids: seq<string>, ws: seq<nat>, n: nat)
    requires Rotates(pool, excluded, opts, now, ids, ws)
    ensures |ids| == |ws| && Positive(ws) && Walks(Selecting(excluded, opts, now), pool, ids, ws, n)
    decreases n
  {
    RotationPick(pool, excluded, opts, now, ids, ws);
    if n > 0 {
      RotationStep(pool, excluded, opts, now, ids, ws);
      RotationWalks(Select(pool, excluded, opts, true, now).1, excluded, opts, now, ids, ws, n - 1);
    }
  }

  lemma RotationHits(
    pool: Pool, excluded: set<string>, opts: PickOptions, now: int, ids: seq<string>, ws: seq<nat>, i: nat, n: nat)
    requires Rotates(pool, excluded, opts, now, ids, ws) && i < |ids|
    ensures |ids| == |ws| && Positive(ws)
    ensures TimesPicked(Selecting(excluded, opts, now), pool, ids[i], false, n) == WrappedHits(ws, i, pool.cursor, n)
  {
    RotationWalks(pool, excluded, opts, now, ids, ws, n);
    ChoicesDistinct(pool, excluded, opts, now);
    PicksAreWrappedHits(Selecting(excluded, opts, now), pool, ids, ws, i, n);
  }

  /** A full cycle of selections returns a key exactly as often as it weighs if and only if the cycle is fair to it. */
  lemma RotationIsFairExactlyWhen(
    pool: Pool, excluded: set<string>, opts: PickOptions, now: int, ids: seq<string>, ws: seq<nat>, i: nat)
    requires Rotates(pool, excluded, opts, now, ids, ws) && i < |ids|
    ensures |ws| == |ids| && Total(ws) > 0
    ensures TimesPicked(Selecting(excluded, opts, now), pool, ids[i], false, Total(ws)) == ws[i]
      <==> FairCycle(ws, i, pool.cursor)
  {
    RotationPick(pool, excluded, opts, now, ids, ws);
    TotalPositive(ws);
    RotationHits(pool, excluded, opts, now, ids, ws, i, Total(ws));
    CycleIsFairExactlyWhen(ws, i, pool.cursor);
  }

  /**
   In particular, a cycle no longer than the modulus that wraps is fair to a key exactly if its draws after the wrap
   hit the interval of the key as often from position 0 as from where the wrap cut the cycle off.
   */
  lemma WrappedCycleIsFairExactlyWhen(
    pool: Pool, excluded: set<string>, opts: PickOptions, now: int, ids: seq<string>, ws: seq<nat>, i: nat)
    requires Rotates(pool, excluded, opts, now, ids, ws) && i < |ids| == |ws| && Positive(ws)
    requires 0 < Total(ws) <= ROTATION_CURSOR_MODULUS < pool.cursor + Total(ws)
    ensures TimesPicked(Selecting(excluded, opts, now), pool, ids[i], false, Total(ws)) == ws[i]
      <==> AlikeAfterTheCut(ws, i, pool.cursor)
  {
    RotationIsFairExactlyWhen(pool, excluded, opts, now, ids, ws, i);
    FairByResidues(ws, i, pool.cursor);
  }

  // ---- a cycle the wrap makes unfair --------------------------------------------------------------------

  function PlainKey(id: string): KeyRecord {
    KeyRecord(id, true, 0, Scope([], []), Finite(1.0), map[])
  }

  /** Three keys of weight one, with a cursor about to wrap, for requests without model, session or bucket. */
  function ThreeKeys(): Pool {
    Pool([PlainKey("a"), PlainKey("b"), PlainKey("c")], map[], RoutingPolicy(RoundRobin, false, 0),
         AutoDisable(false, 0), ROTATION_CURSOR_MODULUS - 1, 0)
  }

  const PlainRequest := PickOptions(None, None, None, [], None, None)

  lemma AllAreCandidates(keys: seq<KeyRecord>)
    requires keys != [] && forall k | k in keys :: k.active
    ensures Screen(keys, {}, PlainRequest) == Candidates(keys)
  {
    assert BoundIds([]) == {};
    AllPass(keys, CanUse({}));
    AllPass(keys, CanServe(None, None));
    AllPass(keys, NotTried({}));
  }

  lemma ThreeKeysListed(keys: seq<KeyRecord>)
    requires keys == ThreeKeys().keys
    ensures Distinct(keys) && IdList(keys) == ["a", "b", "c"] && Normalized(Weights(keys)) == [1, 1, 1]
  {
    assert NormalizeWeight(Finite(1.0)) == 1;
  }

  lemma ThreeKeysRotate(now: int)
    ensures Rotates(ThreeKeys(), {}, PlainRequest, now, ["a", "b", "c"], [1, 1, 1])
  {
    var keys := ThreeKeys().keys;
    AllAreCandidates(keys);
    ThreeKeysListed(keys);
  }

  lemma {:induction false} AllPass(keys: seq<KeyRecord>, p: KeyRecord -> bool)
    requires forall k | k in keys :: p(k)
    ensures Filter(keys, p) == keys
  {
    if keys != [] { AllPass(keys[1..], p); }
  }

  lemma OneCycleOfThree(ws: seq<nat>, cursor: nat)
    requires ws == [1, 1, 1] && cursor == ROTATION_CURSOR_MODULUS - 1
    ensures Positive(ws) && WrappedHits(ws, 0, cursor, 3) == 2
    ensures WrappedHits(ws, 1, cursor, 3) == 1 && WrappedHits(ws, 2, cursor, 3) == 0
  {
    assert Before(ws, 0) == 0 && Before(ws, 1) == 1 && Before(ws, 2) == 2 && Before(ws, 3) == 3;
    forall i: nat | i < 3
      ensures WrappedHits(ws, i, cursor, 3) == (if i == 0 then 2 else 0) + (if i == 1 then 1 else 0)
    {
      assert cursor % 3 == 0 && NextCursor(cursor) == 0 && NextCursor(0) == 1;
      assert WrappedHits(ws, i, 1, 1) == (if i == 1 then 1 else 0);
      assert WrappedHits(ws, i, 0, 2) == (if i == 0 then 1 else 0) + WrappedHits(ws, i, 1, 1);
    }
  }

  /** There three selections return the first key twice and the last one never. */
  lemma WrapBreaksACycle(now: int)
    ensures
      var select := Selecting({}, PlainRequest, now);
      && TimesPicked(select, ThreeKeys(), "a", false, 3) == 2
      && TimesPicked(select, ThreeKeys(), "b", false, 3) == 1
      && TimesPicked(select, ThreeKeys(), "c", false, 3) == 0
  {
    ThreeKeysRotate(now);
    var ids, ws := ["a", "b", "c"], [1, 1, 1];
    OneCycleOfThree(ws, ThreeKeys().cursor);
    RotationHits(ThreeKeys(), {}, PlainRequest, now, ids, ws, 0, 3);
    RotationHits(ThreeKeys(), {}, PlainRequest, now, ids, ws, 1, 3);
    RotationHits(ThreeKeys(), {}, PlainRequest, now, ids, ws, 2, 3);
  }

  // ---- sessions that stick ------------------------------------------------------------------------------

  lemma {:induction false} PicksStick(select: Pool -> (Selection, Pool), sticks: Pool -> bool, pool: Pool, id: string, n: nat)
    requires sticks(pool)
    requires forall p | sticks(p) :: sticks(select(p).1) && Returns(select(p).0, id, true)
    ensures TimesPicked(select, pool, id, true, n) == n
    decreases n
  {
    if n > 0 { PicksStick(select, sticks, select(pool).1, id, n - 1); }
  }

  /** A session with a live binding to one of the choices gets that key every time. */
  lemma SessionSticks(pool: Pool, excluded: set<string>, opts: PickOptions, now: int, id: string, n: nat)
    requires Sticks(pool, excluded, opts, now, id)
    ensures TimesPicked(Selecting(excluded, opts, now), pool, id, true, n) == n
  {
    var sticks := (p: Pool) => Sticks(p, excluded, opts, now, id);
    var select := Selecting(excluded, opts, now);
    forall p | sticks(p) ensures sticks(select(p).1) && Returns(select(p).0, id, true) {
      StickyStep(p, excluded, opts, now, id);
    }
    PicksStick(select, sticks, pool, id, n);
  }
}
