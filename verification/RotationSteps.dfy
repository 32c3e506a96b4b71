/** What repeated selections of src/key-pool.ts choose from stays the same. */
module RotationSteps {
  import opened Prelude
  import opened WeightedPick
  import opened KeyPool
  import opened KeyAccounting
  import opened CursorWrap

  // ---- pruning marks changes neither the candidates nor their weights -----------------------------------

  /** What `PruneMarks` does to one key. */
  function Prune(ids: set<string>, now: int): KeyRecord -> KeyRecord {
    (k: KeyRecord) => if k.id in ids then PrunedKey(k, now) else k
  }

  function MapKeys(keys: seq<KeyRecord>, f: KeyRecord -> KeyRecord): (r: seq<KeyRecord>)
    ensures |r| == |keys| && forall i | 0 <= i < |keys| :: r[i] == f(keys[i])
  {
    seq(|keys|, i requires 0 <= i < |keys| => f(keys[i]))
  }

  lemma {:induction false} FilterOfMapped(keys: seq<KeyRecord>, f: KeyRecord -> KeyRecord, p: KeyRecord -> bool)
    requires forall k | k in keys :: p(f(k)) == p(k)
    ensures Filter(MapKeys(keys, f), p) == MapKeys(Filter(keys, p), f)
  {
    if keys != [] {
      FilterOfMapped(keys[1..], f, p);
      assert MapKeys(keys, f)[1..] == MapKeys(keys[1..], f);
      if p(keys[0]) {
        assert Filter(keys, p) == [keys[0]] + Filter(keys[1..], p);
        assert MapKeys(Filter(keys, p), f) == [f(keys[0])] + MapKeys(Filter(keys[1..], p), f);
      } else {
        assert Filter(keys, p) == Filter(keys[1..], p);
      }
    }
  }

  lemma ScreenOfPruned(keys: seq<KeyRecord>, excluded: set<string>, opts: PickOptions, ids: set<string>, now: int)
    requires Screen(keys, excluded, opts).Candidates?
    ensures Screen(MapKeys(keys, Prune(ids, now)), excluded, opts)
      == Candidates(MapKeys(Screen(keys, excluded, opts).keys, Prune(ids, now)))
  {
    var f := Prune(ids, now);
    var mayUse, maySee := CanUse(BoundIds(opts.allowedKeyIds)), CanServe(RequestIdentity(opts), opts.gateway);
    var authorized := Keep(keys, mayUse);
    var servable := Keep(authorized, maySee);
    FilterOfMapped(keys, f, mayUse);
    FilterOfMapped(authorized, f, maySee);
    FilterOfMapped(servable, f, NotTried(excluded));
  }

  lemma PreferenceOfPruned(untried: seq<KeyRecord>, bucket: Option<string>, ids: set<string>, now: int)
    ensures PreferQuota(MapKeys(untried, Prune(ids, now)), bucket, now) == MapKeys(PreferQuota(untried, bucket, now), Prune(ids, now))
  {
    if bucket.Some? { FilterOfMapped(untried, Prune(ids, now), HasQuota(bucket.value, now)); }
  }

  // ---- selecting again and again ------------------------------------------------------------------------

  function IdList(keys: seq<KeyRecord>): (r: seq<string>)
    ensures |r| == |keys| && forall i | 0 <= i < |keys| :: r[i] == keys[i].id
  {
    seq(|keys|, i requires 0 <= i < |keys| => keys[i].id)
  }

  lemma FindById(keys: seq<KeyRecord>, id: string)
    ensures FindKey(keys, id).Some? <==> id in IdList(keys)
  {
    if id in IdList(keys) {
      var i :| 0 <= i < |keys| && IdList(keys)[i] == id;
      assert keys[i] in keys;
    }
  }

  /** The keys a request chooses from, the ones with an exhausted bucket avoided. */
  function Choices(keys: seq<KeyRecord>, excluded: set<string>, opts: PickOptions, now: int): seq<KeyRecord> {
    var screened := Screen(keys, excluded, opts);
    if screened.Candidates? then PreferQuota(screened.keys, opts.bucket, now) else []
  }

  /** Requests of this kind rotate over these ids with these weights: no session sticks to one of them. */
  predicate Rotates(pool: Pool, excluded: set<string>, opts: PickOptions, now: int, ids: seq<string>, ws: seq<nat>) {
    var choices := Choices(pool.keys, excluded, opts, now);
    && Distinct(pool.keys) && pool.routing.strategy == RoundRobin && pool.cursor < ROTATION_CURSOR_MODULUS
    && choices != [] && IdList(choices) == ids && Normalized(Weights(choices)) == ws
    && StickyKey(pool, choices, opts.sessionHash, now).None?
  }

  /** Requests of this kind stick to this key. */
  predicate Sticks(pool: Pool, excluded: set<string>, opts: PickOptions, now: int, id: string) {
    var sticky := StickyKey(pool, Choices(pool.keys, excluded, opts, now), opts.sessionHash, now);
    sticky.Some? && sticky.value.id == id
  }

  lemma ChoicesDistinct(pool: Pool, excluded: set<string>, opts: PickOptions, now: int)
    requires Distinct(pool.keys)
    ensures Distinct(Choices(pool.keys, excluded, opts, now))
  {
    var screened := Screen(pool.keys, excluded, opts);
    if screened.Candidates? {
      ScreenDistinct(pool, excluded, opts);
      if opts.bucket.Some? { KeepDistinct(screened.keys, HasQuota(opts.bucket.value, now)); }
    }
  }

  lemma PrunedMapped(pool: Pool, untried: seq<KeyRecord>, bucket: Option<string>, now: int)
    requires bucket.Some?
    ensures AfterPrune(pool, untried, bucket, now) == pool.(keys := MapKeys(pool.keys, Prune(Ids(untried), now)))
  {
    assert PruneMarks(pool.keys, Ids(untried), now) == MapKeys(pool.keys, Prune(Ids(untried), now));
  }

  lemma ChoicesOfPruned(keys: seq<KeyRecord>, excluded: set<string>, opts: PickOptions, ids: set<string>, now: int)
    requires Screen(keys, excluded, opts).Candidates?
    ensures Choices(MapKeys(keys, Prune(ids, now)), excluded, opts, now)
      == MapKeys(Choices(keys, excluded, opts, now), Prune(ids, now))
  {
    ScreenOfPruned(keys, excluded, opts, ids, now);
    PreferenceOfPruned(Screen(keys, excluded, opts).keys, opts.bucket, ids, now);
  }

  lemma SameIdsAndWeights(keys: seq<KeyRecord>, ids: set<string>, now: int)
    ensures IdList(MapKeys(keys, Prune(ids, now))) == IdList(keys)
    ensures Weights(MapKeys(keys, Prune(ids, now))) == Weights(keys)
  {
  }

  /** The marks a selection prunes change neither the ids it chooses from nor their weights. */
  lemma ChoicesAfterPrune(pool: Pool, excluded: set<string>, opts: PickOptions, now: int)
    requires Screen(pool.keys, excluded, opts).Candidates?
    ensures
      var untried := Screen(pool.keys, excluded, opts).keys;
      var before, after := Choices(pool.keys, excluded, opts, now), Choices(AfterPrune(pool, untried, opts.bucket, now).keys, excluded, opts, now);
      IdList(after) == IdList(before) && Weights(after) == Weights(before)
  {
    var untried := Screen(pool.keys, excluded, opts).keys;
    if opts.bucket.Some? {
      PrunedMapped(pool, untried, opts.bucket, now);
      ChoicesOfPruned(pool.keys, excluded, opts, Ids(untried), now);
      SameIdsAndWeights(Choices(pool.keys, excluded, opts, now), Ids(untried), now);
    }
  }

  lemma PrunedDistinct(pool: Pool, untried: seq<KeyRecord>, bucket: Option<string>, now: int)
    requires Distinct(pool.keys)
    ensures Distinct(AfterPrune(pool, untried, bucket, now).keys)
  {
  }

  /** A selection that does not stick moves the cursor on, and leaves no binding to stick to. */
  lemma PoolAfterSelection(
    pool: Pool, pruned: Pool, choices: seq<KeyRecord>, after: seq<KeyRecord>, hash: Option<string>, now: int)
    requires pool.routing.strategy == RoundRobin && pruned == pool.(keys := pruned.keys)
    requires StickyKey(pool, choices, hash, now).None? && IdList(after) == IdList(choices)
    ensures
      var next := Advanced(WithoutStale(pruned, choices, hash, now), true);
      && next.keys == pruned.keys && next.routing == pool.routing && next.cursor == NextCursor(pool.cursor)
      && StickyKey(next, after, hash, now).None?
  {
    var b := StickyBinding(pool, hash, now);
    if b.Some? {
      FindById(choices, b.value.keyId);
      FindById(after, b.value.keyId);
    }
  }

  lemma SelectionWithoutSession(pool: Pool, excluded: set<string>, opts: PickOptions, now: int)
    requires Choices(pool.keys, excluded, opts, now) != []
    requires StickyKey(pool, Choices(pool.keys, excluded, opts, now), opts.sessionHash, now).None?
    ensures
      var choices := Choices(pool.keys, excluded, opts, now);
      var pruned := AfterPrune(pool, Screen(pool.keys, excluded, opts).keys, opts.bucket, now);
      Select(pool, excluded, opts, true, now)
        == (Picked(ByStrategy(pool, choices), false), Advanced(WithoutStale(pruned, choices, opts.sessionHash, now), true))
  {
  }

  // ---- runs of selections -----------------------------------------------------------------------------

  /** Selecting again and again for requests of one kind. */
  ghost function Selecting(excluded: set<string>, opts: PickOptions, now: int): Pool -> (Selection, Pool) {
    pool => Select(pool, excluded, opts, true, now)
  }

  predicate Returns(picked: Selection, id: string, sticky: bool) {
    picked.Picked? && picked.key.id == id && picked.sticky == sticky
  }

  /** How many of the next `n` selections return this key. */
  ghost function TimesPicked(select: Pool -> (Selection, Pool), pool: Pool, id: string, sticky: bool, n: nat): nat
    decreases n
  {
    if n == 0 then 0
    else (if Returns(select(pool).0, id, sticky) then 1 else 0) + TimesPicked(select, select(pool).1, id, sticky, n - 1)
  }

  predicate DistinctIds(ids: seq<string>) {
    forall i, j | 0 <= i < j < |ids| :: ids[i] != ids[j]
  }

  /** The next `n` selections return the keys whose turn it is, and move the cursor on. */
  ghost predicate Walks(select: Pool -> (Selection, Pool), pool: Pool, ids: seq<string>, ws: seq<nat>, n: nat)
    requires |ids| == |ws| && Positive(ws)
    decreases n
  {
    n > 0 ==>
      && Returns(select(pool).0, ids[WeightedIndex(ws, pool.cursor)], false)
      && select(pool).1.cursor == NextCursor(pool.cursor)
      && Walks(select, select(pool).1, ids, ws, n - 1)
  }

  lemma WalkStep(select: Pool -> (Selection, Pool), pool: Pool, ids: seq<string>, ws: seq<nat>, i: nat, n: nat)
    requires i < |ids| == |ws| && Positive(ws) && DistinctIds(ids) && n > 0 && Walks(select, pool, ids, ws, n)
    ensures select(pool).1.cursor == NextCursor(pool.cursor) && Walks(select, select(pool).1, ids, ws, n - 1)
    ensures Returns(select(pool).0, ids[i], false) <==> Chosen(ws, pool.cursor, i)
  {
    var at := WeightedIndex(ws, pool.cursor);
    if Chosen(ws, pool.cursor, i) { ChosenIsUnique(ws, pool.cursor, i, at); }
  }

  /** The pool a selection without session leaves rotates like the one it found. */
  lemma RotatesOn(pool: Pool, next: Pool, excluded: set<string>, opts: PickOptions, now: int, ids: seq<string>, ws: seq<nat>)
    requires Rotates(pool, excluded, opts, now, ids, ws)
    requires Distinct(next.keys) && next.routing == pool.routing && next.cursor == NextCursor(pool.cursor)
    requires
      var choices, after := Choices(pool.keys, excluded, opts, now), Choices(next.keys, excluded, opts, now);
      IdList(after) == IdList(choices) && Weights(after) == Weights(choices)
      && StickyKey(next, after, opts.sessionHash, now).None?
    ensures Rotates(next, excluded, opts, now, ids, ws)
  {
    var after := Choices(next.keys, excluded, opts, now);
    assert |after| == |IdList(after)|;
  }
}
