/** The SQL store refines the in-memory store, and neither outgrows its bound. */
module AgentStoreProofs {
  import opened Prelude
  import opened Sorting
  import opened AgentStore

  // ---- the refinement relation --------------------------------------------------------------------------

  predicate DistinctOrder(order: seq<string>) {
    forall i, j | 0 <= i < j < |order| :: order[i] != order[j]
  }

  /** The in-memory store by itself. */
  ghost predicate MemValid(m: Mem) {
    && DistinctOrder(m.order)
    && (forall a :: a in m.order <==> a in m.buckets)
    && (forall a | a in m.buckets :: BucketValid(a, m.buckets[a]))
  }

  /** Documents sit under their own ids. */
  predicate BucketValid(a: string, b: Bucket) {
    && (b.agent.Some? ==> b.agent.value.agentId == a)
    && (forall r | r in b.runs :: b.runs[r].agentId == a && b.runs[r].runId == r)
  }

  /** The LRU numbers grow along the insertion order. */
  ghost predicate OrderAgrees(m: Mem, s: Sql) {
    && (forall a :: a in m.buckets <==> a in s.agents)
    && (forall a | a in s.agents :: s.agents[a].lruSeq <= s.lruClock)
    && Growing(m.order, s.agents)
  }

  ghost predicate Growing(order: seq<string>, rows: map<string, AgentRow>) {
    forall i, j | 0 <= i < j < |order| ::
      order[i] in rows && order[j] in rows ==> rows[order[i]].lruSeq < rows[order[j]].lruSeq
  }

  ghost predicate RowsAgree(m: Mem, s: Sql) {
    forall a | a in m.buckets && a in s.agents ::
      m.buckets[a].agent == s.agents[a].document && m.buckets[a].touchedAt == s.agents[a].touchedAt
  }

  ghost predicate RunsAgree(m: Mem, s: Sql) { forall a, r :: MemRun(m, a, r) == SqlRun(s, a, r) }

  ghost predicate BlobsAgree(m: Mem, s: Sql) { forall a, b :: MemBlob(m, a, b) == SqlBlob(s, a, b) }

  ghost predicate Refines(m: Mem, s: Sql) {
    MemValid(m) && OrderAgrees(m, s) && RowsAgree(m, s) && RunsAgree(m, s) && BlobsAgree(m, s)
  }

  // ---- removal and eviction --------------------------------------------------------------------------------

  lemma {:induction false} WithoutKeepsOrder(order: seq<string>, ids: set<string>)
    requires DistinctOrder(order)
    ensures DistinctOrder(Without(order, ids))
    ensures forall i, j | 0 <= i < j < |Without(order, ids)| :: Precedes(order, Without(order, ids)[i], Without(order, ids)[j])
  {
    if order != [] {
      var rest := Without(order[1..], ids);
      WithoutKeepsOrder(order[1..], ids);
      forall i, j | 0 <= i < j < |rest| ensures Precedes(order, rest[i], rest[j]) {
        var p, q :| 0 <= p < q < |order[1..]| && order[1..][p] == rest[i] && order[1..][q] == rest[j];
        assert order[p + 1] == rest[i] && order[q + 1] == rest[j];
      }
      forall j | 0 <= j < |rest| ensures Precedes(order, order[0], rest[j]) && order[0] != rest[j] {
        assert rest[j] in order[1..];
        var q :| 0 <= q < |order[1..]| && order[1..][q] == rest[j];
        assert order[q + 1] == rest[j];
      }
    }
  }

  ghost predicate Precedes(order: seq<string>, a: string, b: string) {
    exists i, j :: 0 <= i < j < |order| && order[i] == a && order[j] == b
  }

  /** Leaving agents out keeps the numbers growing. */
  lemma GrowingWithout(order: seq<string>, ids: set<string>, rows: map<string, AgentRow>, kept: map<string, AgentRow>)
    requires DistinctOrder(order) && Growing(order, rows)
    requires forall a | a in kept && a !in ids :: a in rows && kept[a].lruSeq == rows[a].lruSeq
    ensures Growing(Without(order, ids), kept)
  {
    var rest := Without(order, ids);
    WithoutKeepsOrder(order, ids);
    forall i, j | 0 <= i < j < |rest| && rest[i] in kept && rest[j] in kept
      ensures kept[rest[i]].lruSeq < kept[rest[j]].lruSeq
    {
      assert Precedes(order, rest[i], rest[j]) && rest[i] in rest && rest[j] in rest;
      var p, q :| 0 <= p < q < |order| && order[p] == rest[i] && order[q] == rest[j];
    }
  }

  lemma GrowingTail(order: seq<string>, a: string, rows: map<string, AgentRow>)
    requires Growing(order, rows) && a in rows && forall b | b in rows && b != a :: rows[b].lruSeq < rows[a].lruSeq
    requires a !in order
    ensures Growing(order + [a], rows)
  {
    forall i, j | 0 <= i < j < |order + [a]| && (order + [a])[i] in rows && (order + [a])[j] in rows
      ensures rows[(order + [a])[i]].lruSeq < rows[(order + [a])[j]].lruSeq
    {
      assert order[i] in order;
    }
  }

  lemma RemoveOrder(m: Mem, s: Sql, ids: set<string>)
    requires MemValid(m) && OrderAgrees(m, s)
    ensures MemValid(MemRemove(m, ids)) && OrderAgrees(MemRemove(m, ids), SqlRemove(s, ids))
  {
    WithoutKeepsOrder(m.order, ids);
    GrowingWithout(m.order, ids, s.agents, s.agents - ids);
  }

  lemma RemoveRuns(m: Mem, s: Sql, ids: set<string>)
    requires RunsAgree(m, s)
    ensures RunsAgree(MemRemove(m, ids), SqlRemove(s, ids))
  {
    var m', s' := MemRemove(m, ids), SqlRemove(s, ids);
    forall a, r ensures MemRun(m', a, r) == SqlRun(s', a, r) { assert MemRun(m, a, r) == SqlRun(s, a, r); }
  }

  lemma RemoveBlobs(m: Mem, s: Sql, ids: set<string>)
    requires BlobsAgree(m, s)
    ensures BlobsAgree(MemRemove(m, ids), SqlRemove(s, ids))
  {
    var m', s' := MemRemove(m, ids), SqlRemove(s, ids);
    forall a, b ensures MemBlob(m', a, b) == SqlBlob(s', a, b) { assert MemBlob(m, a, b) == SqlBlob(s, a, b); }
  }

  /** Removing agents with all they own keeps the stores in step. */
  lemma RemoveRefines(m: Mem, s: Sql, ids: set<string>)
    requires Refines(m, s)
    ensures Refines(MemRemove(m, ids), SqlRemove(s, ids))
  {
    RemoveOrder(m, s, ids);
    RemoveRuns(m, s, ids);
    RemoveBlobs(m, s, ids);
  }

  /** The head of the insertion order is the row with the smallest LRU number. */
  lemma HeadIsOldest(m: Mem, s: Sql)
    requires MemValid(m) && OrderAgrees(m, s) && m.order != []
    ensures s.agents != map[] && Oldest(s) == m.order[0]
  {
    var head := m.order[0];
    assert head in m.order && head in s.agents;
    forall b | b in s.agents && b != head ensures RowBefore(s, head, b) {
      assert b in m.order;
      var j :| 0 <= j < |m.order| && m.order[j] == b;
    }
    OldestIsUnique(s, head, Oldest(s));
  }

  lemma {:induction false} OrderIsSize(order: seq<string>, ids: set<string>)
    requires DistinctOrder(order) && forall a :: a in order <==> a in ids
    ensures |order| == |ids|
  {
    if order == [] {
      if a :| a in ids { assert a in order; }
    } else {
      var rest := order[1..];
      assert order[0] in ids;
      forall a ensures a in rest <==> a in ids - {order[0]} {
        assert a in order <==> a == order[0] || a in rest;
      }
      OrderIsSize(rest, ids - {order[0]});
    }
  }

  lemma SizesAgree(m: Mem, s: Sql)
    requires MemValid(m) && OrderAgrees(m, s)
    ensures |m.order| == |m.buckets| == |s.agents|
  {
    OrderIsSize(m.order, m.buckets.Keys);
    OrderIsSize(m.order, s.agents.Keys);
  }

  lemma HeadRemoved(m: Mem)
    requires MemValid(m) && m.order != []
    ensures Mem(m.order[1..], m.buckets - {m.order[0]}) == MemRemove(m, {m.order[0]})
  {
    NothingToRemove(m.order[1..], {m.order[0]});
  }

  lemma {:induction false} NothingToRemove(order: seq<string>, ids: set<string>)
    requires forall a | a in order :: a !in ids
    ensures Without(order, ids) == order
  {
    if order != [] { NothingToRemove(order[1..], ids); }
  }

  /** Both stores evict the same agents. */
  lemma {:induction false} EvictRefines(m: Mem, s: Sql, config: Config)
    requires Refines(m, s)
    ensures Refines(MemEvict(m, config), SqlEvict(s, config))
    ensures |MemEvict(m, config).order| < config.maxAgents || MemEvict(m, config).order == []
    ensures forall a | a in MemEvict(m, config).buckets :: a in m.buckets
    ensures SqlEvict(s, config).lruClock == s.lruClock
    decreases |m.order|
  {
    SizesAgree(m, s);
    if !(|m.order| < config.maxAgents || m.order == []) {
      HeadIsOldest(m, s);
      HeadRemoved(m);
      RemoveRefines(m, s, {m.order[0]});
      EvictRefines(MemRemove(m, {m.order[0]}), SqlRemove(s, {m.order[0]}), config);
    }
  }

  lemma SweepRefines(m: Mem, s: Sql, config: Config, now: int)
    requires Refines(m, s)
    ensures Refines(MemSweep(m, config, now), SqlSweep(s, config, now))
    ensures |MemSweep(m, config, now).order| < config.maxAgents || MemSweep(m, config, now).order == []
    ensures forall a | a in MemSweep(m, config, now).buckets :: a in m.buckets
    ensures SqlSweep(s, config, now).lruClock == s.lruClock
  {
    assert MemIdle(m, config, now) == SqlIdle(s, config, now);
    RemoveRefines(m, s, MemIdle(m, config, now));
    EvictRefines(MemRemove(m, MemIdle(m, config, now)), SqlRemove(s, MemIdle(m, config, now)), config);
  }

  // ---- touching ------------------------------------------------------------------------------------------------

  /** What the two stores show of runs and checkpoints does not change. */
  ghost predicate SameOwned(m: Mem, s: Sql, m': Mem, s': Sql) {
    && (forall a, r :: MemRun(m', a, r) == MemRun(m, a, r))
    && (forall a, b :: MemBlob(m', a, b) == MemBlob(m, a, b))
    && s'.runs == s.runs && s'.checkpoints == s.checkpoints
  }

  lemma OwnedAgree(m: Mem, s: Sql, m': Mem, s': Sql)
    requires RunsAgree(m, s) && BlobsAgree(m, s) && SameOwned(m, s, m', s')
    ensures RunsAgree(m', s') && BlobsAgree(m', s')
  {
    forall a, r ensures MemRun(m', a, r) == SqlRun(s', a, r) { assert MemRun(m, a, r) == SqlRun(s, a, r); }
    forall a, b ensures MemBlob(m', a, b) == SqlBlob(s', a, b) { assert MemBlob(m, a, b) == SqlBlob(s, a, b); }
  }

  lemma ClockRefines(m: Mem, s: Sql)
    requires Refines(m, s)
    ensures Refines(m, SqlTicked(s))
  {
    OwnedAgree(m, s, m, SqlTicked(s));
  }

  lemma TailValid(m: Mem, a: string, now: int)
    requires MemValid(m) && a !in m.buckets
    ensures MemValid(MemTail(m, a, now))
  {
    assert a !in m.order;
  }

  lemma TailOrder(m: Mem, s: Sql, a: string, now: int)
    requires OrderAgrees(m, s) && a !in m.order && a !in m.buckets
    requires forall c | c in s.agents :: s.agents[c].lruSeq < s.lruClock
    ensures OrderAgrees(MemTail(m, a, now), SqlTail(s, a, now, s.lruClock))
  {
    var rows := SqlTail(s, a, now, s.lruClock).agents;
    forall i, j | 0 <= i < j < |m.order| && m.order[i] in rows && m.order[j] in rows
      ensures rows[m.order[i]].lruSeq < rows[m.order[j]].lruSeq
    {
      assert m.order[i] in m.order && m.order[j] in m.order;
    }
    GrowingTail(m.order, a, rows);
  }

  lemma TailOwned(m: Mem, s: Sql, a: string, now: int)
    requires a !in m.buckets
    ensures SameOwned(m, s, MemTail(m, a, now), SqlTail(s, a, now, s.lruClock))
    ensures RowsAgree(m, s) && a !in s.agents ==> RowsAgree(MemTail(m, a, now), SqlTail(s, a, now, s.lruClock))
  {
  }

  /** A new bucket at the tail, with the highest LRU number. */
  lemma TailRefines(m: Mem, s: Sql, a: string, now: int)
    requires Refines(m, s) && a !in m.buckets && forall c | c in s.agents :: s.agents[c].lruSeq < s.lruClock
    ensures Refines(MemTail(m, a, now), SqlTail(s, a, now, s.lruClock))
  {
    TailValid(m, a, now);
    TailOrder(m, s, a, now);
    TailOwned(m, s, a, now);
    OwnedAgree(m, s, MemTail(m, a, now), SqlTail(s, a, now, s.lruClock));
  }

  lemma MovedValid(m: Mem, a: string, now: int)
    requires MemValid(m) && a in m.buckets
    ensures MemValid(MemMoved(m, a, now))
  {
    WithoutKeepsOrder(m.order, {a});
  }

  lemma MovedOrder(m: Mem, s: Sql, a: string, now: int)
    requires DistinctOrder(m.order) && OrderAgrees(m, s) && a in m.buckets
    ensures OrderAgrees(MemMoved(m, a, now), SqlMoved(s, a, now))
  {
    var rows := SqlMoved(s, a, now).agents;
    GrowingWithout(m.order, {a}, s.agents, rows);
    GrowingTail(Without(m.order, {a}), a, rows);
  }

  lemma MovedOwned(m: Mem, s: Sql, a: string, now: int)
    requires a in m.buckets && a in s.agents
    ensures SameOwned(m, s, MemMoved(m, a, now), SqlMoved(s, a, now))
    ensures RowsAgree(m, s) ==> RowsAgree(MemMoved(m, a, now), SqlMoved(s, a, now))
  {
  }

  /** A known agent moves to the tail. */
  lemma MoveRefines(m: Mem, s: Sql, a: string, now: int)
    requires Refines(m, s) && a in m.buckets && a in s.agents
    ensures Refines(MemMoved(m, a, now), SqlMoved(s, a, now))
  {
    MovedValid(m, a, now);
    MovedOrder(m, s, a, now);
    MovedOwned(m, s, a, now);
    OwnedAgree(m, s, MemMoved(m, a, now), SqlMoved(s, a, now));
  }

  /** The number drawn before the sweep is above all that survive it. */
  lemma SweepClock(s: Sql, config: Config, now: int)
    requires forall c | c in s.agents :: s.agents[c].lruSeq < s.lruClock
    ensures forall c | c in SqlSweep(s, config, now).agents :: SqlSweep(s, config, now).agents[c].lruSeq < s.lruClock
  {
    EvictKeepsRows(SqlRemove(s, SqlIdle(s, config, now)), config);
  }

  /** Ready for a new agent: in step, without it, and below the number drawn. */
  ghost predicate ReadyFor(m: Mem, s: Sql, a: string) {
    Refines(m, s) && a !in m.buckets && forall c | c in s.agents :: s.agents[c].lruSeq < s.lruClock
  }

  lemma SweptReady(m: Mem, s: Sql, config: Config, a: string, now: int)
    requires Refines(m, s) && a !in m.buckets
    ensures ReadyFor(MemSweep(m, config, now), SqlSweep(SqlTicked(s), config, now), a)
    ensures SqlSweep(SqlTicked(s), config, now).lruClock == s.lruClock + 1
  {
    ClockRefines(m, s);
    SweepRefines(m, SqlTicked(s), config, now);
    SweepClock(SqlTicked(s), config, now);
  }

  lemma ReadyTail(m: Mem, s: Sql, a: string, now: int, n: nat)
    requires ReadyFor(m, s, a) && n == s.lruClock
    ensures Refines(MemTail(m, a, now), SqlTail(s, a, now, n))
  {
    TailRefines(m, s, a, now);
  }

  lemma SameAgents(m: Mem, s: Sql, a: string)
    requires Refines(m, s)
    ensures a in m.buckets <==> a in s.agents
  {
  }

  lemma TouchNewRefines(m: Mem, s: Sql, config: Config, a: string, now: int)
    requires Refines(m, s) && a !in m.buckets
    ensures Refines(
      MemTail(MemSweep(m, config, now), a, now), SqlTail(SqlSweep(SqlTicked(s), config, now), a, now, s.lruClock + 1))
  {
    SweptReady(m, s, config, a, now);
    ReadyTail(MemSweep(m, config, now), SqlSweep(SqlTicked(s), config, now), a, now, s.lruClock + 1);
  }

  lemma TouchUnfolds(m: Mem, s: Sql, config: Config, a: string, now: int)
    requires a in m.buckets <==> a in s.agents
    ensures a in m.buckets ==>
      MemTouch(m, config, a, now) == MemMoved(m, a, now) && SqlTouch(s, config, a, now) == SqlMoved(s, a, now)
    ensures a !in m.buckets ==>
      && MemTouch(m, config, a, now) == MemTail(MemSweep(m, config, now), a, now)
      && SqlTouch(s, config, a, now) == SqlTail(SqlSweep(SqlTicked(s), config, now), a, now, s.lruClock + 1)
  {
  }

  lemma TouchRefines(m: Mem, s: Sql, config: Config, a: string, now: int)
    requires Refines(m, s)
    ensures Refines(MemTouch(m, config, a, now), SqlTouch(s, config, a, now))
  {
    SameAgents(m, s, a);
    TouchUnfolds(m, s, config, a, now);
    if a in m.buckets { MoveRefines(m, s, a, now); } else { TouchNewRefines(m, s, config, a, now); }
  }

  lemma {:induction false} EvictKeepsRows(s: Sql, config: Config)
    ensures forall a | a in SqlEvict(s, config).agents :: a in s.agents && SqlEvict(s, config).agents[a] == s.agents[a]
    decreases |s.agents|
  {
    if !(|s.agents| < config.maxAgents || s.agents == map[]) {
      EvictKeepsRows(SqlRemove(s, {Oldest(s)}), config);
    }
  }

  // ---- steps ---------------------------------------------------------------------------------------------------

  /** Another agent that is still there after the touch holds this run id. */
  ghost predicate Clashes(m: Mem, config: Config, op: Op, now: int) {
    op.WriteRun? && HeldByOther(MemTouch(m, config, op.run.agentId, now), op.run)
  }

  ghost predicate HeldByOther(m: Mem, run: RunDoc) {
    exists a :: a != run.agentId && MemRun(m, a, run.runId).Some?
  }

  lemma PutAgentOwned(m: Mem, s: Sql, doc: AgentDoc)
    requires doc.agentId in m.buckets && doc.agentId in s.agents
    ensures SameOwned(m, s, MemPutAgent(m, doc), SqlPutAgent(s, doc))
  {
  }

  lemma PutAgentValid(m: Mem, doc: AgentDoc)
    requires MemValid(m) && doc.agentId in m.buckets
    ensures MemValid(MemPutAgent(m, doc))
  {
  }

  lemma PutAgentOrder(m: Mem, s: Sql, doc: AgentDoc)
    requires OrderAgrees(m, s) && doc.agentId in m.buckets && doc.agentId in s.agents
    ensures OrderAgrees(MemPutAgent(m, doc), SqlPutAgent(s, doc))
    ensures RowsAgree(m, s) ==> RowsAgree(MemPutAgent(m, doc), SqlPutAgent(s, doc))
  {
  }

  lemma PutAgentRefines(m: Mem, s: Sql, doc: AgentDoc)
    requires Refines(m, s) && doc.agentId in m.buckets && doc.agentId in s.agents
    ensures Refines(MemPutAgent(m, doc), SqlPutAgent(s, doc))
  {
    PutAgentOwned(m, s, doc);
    PutAgentValid(m, doc);
    PutAgentOrder(m, s, doc);
    OwnedAgree(m, s, MemPutAgent(m, doc), SqlPutAgent(s, doc));
  }

  /** Putting a run keeps the stores in step exactly if no other agent holds its id. */
  lemma PutRunAgrees(m: Mem, s: Sql, run: RunDoc)
    requires RunsAgree(m, s) && run.agentId in m.buckets
    ensures RunsAgree(MemPutRun(m, run), SqlPutRun(s, run)) <==> !HeldByOther(m, run)
  {
    var m', s' := MemPutRun(m, run), SqlPutRun(s, run);
    forall a, r ensures MemRun(m', a, r) == SqlRun(s', a, r) <==> a == run.agentId || r != run.runId || MemRun(m, a, r).None? {
      assert MemRun(m, a, r) == SqlRun(s, a, r);
    }
  }

  lemma PutRunValid(m: Mem, run: RunDoc)
    requires MemValid(m) && run.agentId in m.buckets
    ensures MemValid(MemPutRun(m, run))
  {
  }

  lemma PutRunOrder(m: Mem, s: Sql, run: RunDoc)
    requires OrderAgrees(m, s) && RowsAgree(m, s) && run.agentId in m.buckets
    ensures OrderAgrees(MemPutRun(m, run), SqlPutRun(s, run)) && RowsAgree(MemPutRun(m, run), SqlPutRun(s, run))
  {
  }

  lemma PutRunBlobs(m: Mem, s: Sql, run: RunDoc)
    requires BlobsAgree(m, s) && run.agentId in m.buckets
    ensures BlobsAgree(MemPutRun(m, run), SqlPutRun(s, run))
  {
    var m', s' := MemPutRun(m, run), SqlPutRun(s, run);
    forall a, b ensures MemBlob(m', a, b) == SqlBlob(s', a, b) { assert MemBlob(m, a, b) == SqlBlob(s, a, b); }
  }

  lemma PutBlobOwned(m: Mem, s: Sql, a: string, blobId: string, data: Blob)
    requires RunsAgree(m, s) && BlobsAgree(m, s) && a in m.buckets
    ensures RunsAgree(MemPutBlob(m, a, blobId, data), SqlPutBlob(s, a, blobId, data))
    ensures BlobsAgree(MemPutBlob(m, a, blobId, data), SqlPutBlob(s, a, blobId, data))
  {
    var m', s' := MemPutBlob(m, a, blobId, data), SqlPutBlob(s, a, blobId, data);
    forall c, r ensures MemRun(m', c, r) == SqlRun(s', c, r) { assert MemRun(m, c, r) == SqlRun(s, c, r); }
    forall c, d ensures MemBlob(m', c, d) == SqlBlob(s', c, d) { assert MemBlob(m, c, d) == SqlBlob(s, c, d); }
  }

  lemma PutBlobRefines(m: Mem, s: Sql, a: string, blobId: string, data: Blob)
    requires Refines(m, s) && a in m.buckets
    ensures Refines(MemPutBlob(m, a, blobId, data), SqlPutBlob(s, a, blobId, data))
  {
    PutBlobOwned(m, s, a, blobId, data);
  }

  lemma DropRunsOwned(m: Mem, s: Sql, agentIds: seq<string>, runIds: seq<string>)
    requires MemValid(m) && RunsAgree(m, s) && BlobsAgree(m, s)
    ensures RunsAgree(MemDropRuns(m, agentIds, runIds), SqlDropRuns(s, agentIds, runIds))
    ensures BlobsAgree(MemDropRuns(m, agentIds, runIds), SqlDropRuns(s, agentIds, runIds))
  {
    var m', s' := MemDropRuns(m, agentIds, runIds), SqlDropRuns(s, agentIds, runIds);
    forall a, r ensures MemRun(m', a, r) == SqlRun(s', a, r) { assert MemRun(m, a, r) == SqlRun(s, a, r); }
    forall a, b ensures MemBlob(m', a, b) == SqlBlob(s', a, b) { assert MemBlob(m, a, b) == SqlBlob(s, a, b); }
  }

  lemma DropRunsOrder(m: Mem, s: Sql, agentIds: seq<string>, runIds: seq<string>)
    requires OrderAgrees(m, s) && RowsAgree(m, s)
    ensures MemValid(m) ==> MemValid(MemDropRuns(m, agentIds, runIds))
    ensures OrderAgrees(MemDropRuns(m, agentIds, runIds), SqlDropRuns(s, agentIds, runIds))
    ensures RowsAgree(MemDropRuns(m, agentIds, runIds), SqlDropRuns(s, agentIds, runIds))
  {
  }

  lemma DropRunsRefines(m: Mem, s: Sql, agentIds: seq<string>, runIds: seq<string>)
    requires Refines(m, s)
    ensures Refines(MemDropRuns(m, agentIds, runIds), SqlDropRuns(s, agentIds, runIds))
  {
    DropRunsOwned(m, s, agentIds, runIds);
    DropRunsOrder(m, s, agentIds, runIds);
  }

  lemma DropBlobsOwned(m: Mem, s: Sql, agentIds: seq<string>, blobIds: seq<string>)
    requires RunsAgree(m, s) && BlobsAgree(m, s)
    ensures RunsAgree(MemDropBlobs(m, agentIds, blobIds), SqlDropBlobs(s, agentIds, blobIds))
    ensures BlobsAgree(MemDropBlobs(m, agentIds, blobIds), SqlDropBlobs(s, agentIds, blobIds))
  {
    var m', s' := MemDropBlobs(m, agentIds, blobIds), SqlDropBlobs(s, agentIds, blobIds);
    forall a, r ensures MemRun(m', a, r) == SqlRun(s', a, r) { assert MemRun(m, a, r) == SqlRun(s, a, r); }
    forall a, b ensures MemBlob(m', a, b) == SqlBlob(s', a, b) { assert MemBlob(m, a, b) == SqlBlob(s, a, b); }
  }

  lemma DropBlobsOrder(m: Mem, s: Sql, agentIds: seq<string>, blobIds: seq<string>)
    requires OrderAgrees(m, s) && RowsAgree(m, s)
    ensures MemValid(m) ==> MemValid(MemDropBlobs(m, agentIds, blobIds))
    ensures OrderAgrees(MemDropBlobs(m, agentIds, blobIds), SqlDropBlobs(s, agentIds, blobIds))
    ensures RowsAgree(MemDropBlobs(m, agentIds, blobIds), SqlDropBlobs(s, agentIds, blobIds))
  {
  }

  lemma DropBlobsRefines(m: Mem, s: Sql, agentIds: seq<string>, blobIds: seq<string>)
    requires Refines(m, s)
    ensures Refines(MemDropBlobs(m, agentIds, blobIds), SqlDropBlobs(s, agentIds, blobIds))
  {
    DropBlobsOwned(m, s, agentIds, blobIds);
    DropBlobsOrder(m, s, agentIds, blobIds);
  }

  lemma DoomedAgree(m: Mem, s: Sql, agentIds: seq<string>, cwd: Option<string>)
    requires OrderAgrees(m, s) && RowsAgree(m, s)
    ensures MemDoomed(m, agentIds, cwd) == SqlDoomed(s, agentIds, cwd)
  {
    forall a ensures a in MemDoomed(m, agentIds, cwd) <==> a in SqlDoomed(s, agentIds, cwd) {}
  }

  /** The agent written next is there, in both stores. */
  ghost predicate Touched(m: Mem, s: Sql, a: string) { Refines(m, s) && a in m.buckets && a in s.agents }

  lemma TouchReady(m: Mem, s: Sql, config: Config, a: string, now: int)
    requires Refines(m, s)
    ensures Touched(MemTouch(m, config, a, now), SqlTouch(s, config, a, now), a)
  {
    TouchRefines(m, s, config, a, now);
    MemTouchListed(m, config, a, now);
    SqlTouchListed(s, config, a, now);
  }

  lemma PutBlobTouched(m: Mem, s: Sql, a: string, blobId: string, data: Blob)
    requires Touched(m, s, a)
    ensures Refines(MemPutBlob(m, a, blobId, data), SqlPutBlob(s, a, blobId, data))
  {
    PutBlobRefines(m, s, a, blobId, data);
  }

  lemma PutAgentTouched(m: Mem, s: Sql, doc: AgentDoc)
    requires Touched(m, s, doc.agentId)
    ensures Refines(MemPutAgent(m, doc), SqlPutAgent(s, doc))
  {
    PutAgentRefines(m, s, doc);
  }

  lemma PutRunTouched(m: Mem, s: Sql, run: RunDoc)
    requires Touched(m, s, run.agentId)
    ensures Refines(MemPutRun(m, run), SqlPutRun(s, run)) <==> !HeldByOther(m, run)
  {
    PutRunAgrees(m, s, run);
    PutRunValid(m, run);
    PutRunOrder(m, s, run);
    PutRunBlobs(m, s, run);
  }
}
