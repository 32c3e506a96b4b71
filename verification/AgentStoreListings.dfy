/** Lists of checkpoint ids, which agents may share, and what a bound of zero keeps. */
module AgentStoreListings {
  import opened Prelude
  import opened Sorting
  import opened AgentStore
  import opened AgentStoreProofs
  import opened AgentStoreTheorems

  // ---- checkpoint ids -----------------------------------------------------------------------------------

  function BlobIds(keys: seq<(string, string)>): (r: seq<string>)
    ensures |r| == |keys| && forall i | 0 <= i < |keys| :: r[i] == keys[i].1
  {
    seq(|keys|, i requires 0 <= i < |keys| => keys[i].1)
  }

  lemma WithoutOneElement<T>(xs: seq<T>, i: nat)
    requires i < |xs|
    ensures multiset(xs[..i] + xs[i + 1..]) == multiset(xs) - multiset{xs[i]}
    ensures multiset(xs) == multiset(xs[..i] + xs[i + 1..]) + multiset{xs[i]}
  {
    assert xs == xs[..i] + [xs[i]] + xs[i + 1..];
  }

  lemma BlobIdsWithoutOne(keys: seq<(string, string)>, i: nat)
    requires i < |keys|
    ensures multiset(BlobIds(keys)) == multiset(BlobIds(keys[..i] + keys[i + 1..])) + multiset{keys[i].1}
  {
    var ids := BlobIds(keys);
    WithoutOneElement(ids, i);
    assert BlobIds(keys[..i] + keys[i + 1..]) == ids[..i] + ids[i + 1..];
  }

  lemma RemoveBoth<T>(xs: seq<T>, ys: seq<T>, i: nat)
    requires xs != [] && i < |ys| && ys[i] == xs[0] && multiset(xs) == multiset(ys)
    ensures multiset(xs[1..]) == multiset(ys[..i] + ys[i + 1..])
  {
    TailMultiset(xs);
    WithoutOneElement(ys, i);
  }

  lemma AddBoth(xs: seq<(string, string)>, ys: seq<(string, string)>, i: nat)
    requires xs != [] && i < |ys| && ys[i] == xs[0]
    requires multiset(BlobIds(xs[1..])) == multiset(BlobIds(ys[..i] + ys[i + 1..]))
    ensures multiset(BlobIds(xs)) == multiset(BlobIds(ys))
  {
    BlobIdsWithoutOne(xs, 0);
    assert xs[..0] + xs[1..] == xs[1..];
    BlobIdsWithoutOne(ys, i);
  }

  /** Keys read in another order give the same ids, each as often. */
  lemma {:induction false} SameBlobIds(xs: seq<(string, string)>, ys: seq<(string, string)>)
    requires multiset(xs) == multiset(ys)
    ensures multiset(BlobIds(xs)) == multiset(BlobIds(ys))
    decreases |xs|
  {
    if xs != [] {
      var i := IndexIn(xs[0], xs, ys);
      RemoveBoth(xs, ys, i);
      SameBlobIds(xs[1..], ys[..i] + ys[i + 1..]);
      AddBoth(xs, ys, i);
    } else {
      SameLength(xs, ys);
    }
  }

  lemma IndexIn<T>(x: T, xs: seq<T>, ys: seq<T>) returns (i: nat)
    requires x in xs && multiset(xs) == multiset(ys)
    ensures i < |ys| && ys[i] == x
  {
    assert x in multiset(ys);
    i :| 0 <= i < |ys| && ys[i] == x;
  }

  /** The default order of `Array.prototype.sort` on strings. */
  function ByCodeUnits(): (string, string) -> bool { (a: string, b: string) => Less(a, b) }

  lemma ByCodeUnitsOrders()
    ensures StrictOrder(ByCodeUnits())
  {
    var before := ByCodeUnits();
    forall x, y | before(x, y) ensures !before(y, x) { LessIsTotal(x, y); }
    forall x, y, z | Links(before, x, y, z) ensures before(x, z) { LessTransitive(x, y, z); }
  }

  /** Both stores list the same checkpoint ids in the same order, an id once for every agent that has it. */
  lemma BlobListsAgree(
    m: Mem, s: Sql, agentIds: seq<string>, blobIds: seq<string>, xs: seq<(string, string)>, ys: seq<(string, string)>)
    requires Refines(m, s)
    requires Enumerates(xs, MemBlobKeys(m, agentIds, blobIds)) && Enumerates(ys, SqlBlobKeys(s, agentIds, blobIds))
    ensures Sort(ByCodeUnits(), BlobIds(xs)) == Sort(ByCodeUnits(), BlobIds(ys))
    ensures Sorted(ByCodeUnits(), Sort(ByCodeUnits(), BlobIds(xs)))
  {
    BlobKeysAgree(m, s, agentIds, blobIds);
    EnumerationCounts(xs, MemBlobKeys(m, agentIds, blobIds));
    EnumerationCounts(ys, SqlBlobKeys(s, agentIds, blobIds));
    SameBlobIds(xs, ys);
    ByCodeUnitsOrders();
    forall x, y | x in BlobIds(xs) && y in BlobIds(xs) && x != y ensures ByCodeUnits()(x, y) || ByCodeUnits()(y, x) {
      LessIsTotal(x, y);
    }
    SortSorts(ByCodeUnits(), BlobIds(xs));
    SortForgetsOrder(ByCodeUnits(), BlobIds(xs), BlobIds(ys));
  }

  // ---- a bound of zero ----------------------------------------------------------------------------------

  function Writer(op: Op): Option<string> {
    match op
    case WriteAgent(doc) => Some(doc.agentId)
    case WriteRun(run) => Some(run.agentId)
    case WriteBlob(a, _, _) => Some(a)
    case _ => None
  }

  lemma MemZeroTouch(m: Mem, config: Config, a: string, now: int)
    requires config.maxAgents == 0 && MemValid(m) && |m.order| <= 1
    ensures MemTouch(m, config, a, now).order == [a]
  {
    if a in m.buckets {
      assert a in m.order;
      WithoutOne(m.order, a);
    } else {
      MemEvictBound(MemRemove(m, MemIdle(m, config, now)), config);
    }
  }

  lemma SqlZeroTouch(s: Sql, config: Config, a: string, now: int)
    requires config.maxAgents == 0 && |s.agents| <= 1
    ensures SqlTouch(s, config, a, now).agents.Keys == {a}
  {
    if a in s.agents {
      assert |s.agents.Keys - {a}| == |s.agents.Keys| - 1;
    } else {
      SqlEvictBound(SqlRemove(SqlTicked(s), SqlIdle(SqlTicked(s), config, now)), config);
    }
  }

  /** With a bound of zero, as a configured fraction below one gives, every run keeps exactly the agent written last. */
  lemma ZeroBoundKeepsTheWriter(config: Config, ops: seq<Timed>, op: Op, now: int)
    requires config.maxAgents == 0 && Writer(op).Some?
    ensures MemStep(MemAfter(Mem([], map[]), config, ops), config, op, now).order == [Writer(op).value]
    ensures SqlStep(SqlAfter(Sql(map[], map[], map[], 0), config, ops), config, op, now).agents.Keys == {Writer(op).value}
  {
    var m, s := MemAfter(Mem([], map[]), config, ops), SqlAfter(Sql(map[], map[], map[], 0), config, ops);
    MemNeverOutgrows(Mem([], map[]), config, ops);
    SqlNeverOutgrows(Sql(map[], map[], map[], 0), config, ops);
    OrderIsSize(m.order, m.buckets.Keys);
    MemZeroTouch(m, config, Writer(op).value, now);
    SqlZeroTouch(s, config, Writer(op).value, now);
    SqlTouchListed(s, config, Writer(op).value, now);
  }
}
