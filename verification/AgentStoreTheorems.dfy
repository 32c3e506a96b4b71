/** Runs of both agent stores: what callers see, and how many agents are kept. */
module AgentStoreTheorems {
  import opened Prelude
  import opened Sorting
  import opened AgentStore
  import opened AgentStoreProofs

  datatype Timed = Timed(op: Op, now: int)

  function MemAfter(m: Mem, config: Config, ops: seq<Timed>): Mem
    decreases |ops|
  {
    if ops == [] then m else MemAfter(MemStep(m, config, ops[0].op, ops[0].now), config, ops[1..])
  }

  ghost function SqlAfter(s: Sql, config: Config, ops: seq<Timed>): Sql
    decreases |ops|
  {
    if ops == [] then s else SqlAfter(SqlStep(s, config, ops[0].op, ops[0].now), config, ops[1..])
  }

  // ---- one operation ---------------------------------------------------------------------------------------

  lemma StepWriteAgent(m: Mem, s: Sql, config: Config, doc: AgentDoc, now: int)
    requires Refines(m, s)
    ensures Refines(MemStep(m, config, WriteAgent(doc), now), SqlStep(s, config, WriteAgent(doc), now))
  {
    TouchReady(m, s, config, doc.agentId, now);
    PutAgentTouched(MemTouch(m, config, doc.agentId, now), SqlTouch(s, config, doc.agentId, now), doc);
  }

  lemma StepWriteRun(m: Mem, s: Sql, config: Config, run: RunDoc, now: int)
    requires Refines(m, s)
    ensures Refines(MemStep(m, config, WriteRun(run), now), SqlStep(s, config, WriteRun(run), now))
      <==> !Clashes(m, config, WriteRun(run), now)
  {
    TouchReady(m, s, config, run.agentId, now);
    PutRunTouched(MemTouch(m, config, run.agentId, now), SqlTouch(s, config, run.agentId, now), run);
  }

  lemma WriteBlobUnfolds(m: Mem, s: Sql, config: Config, a: string, blobId: string, data: Blob, now: int)
    ensures a in MemTouch(m, config, a, now).buckets
    ensures MemStep(m, config, WriteBlob(a, blobId, data), now) == MemPutBlob(MemTouch(m, config, a, now), a, blobId, data)
    ensures SqlStep(s, config, WriteBlob(a, blobId, data), now) == SqlPutBlob(SqlTouch(s, config, a, now), a, blobId, data)
  {
    MemTouchListed(m, config, a, now);
  }

  lemma StepWriteBlob(m: Mem, s: Sql, config: Config, a: string, blobId: string, data: Blob, now: int)
    requires Refines(m, s)
    ensures Refines(MemStep(m, config, WriteBlob(a, blobId, data), now), SqlStep(s, config, WriteBlob(a, blobId, data), now))
  {
    WriteBlobUnfolds(m, s, config, a, blobId, data, now);
    TouchReady(m, s, config, a, now);
    PutBlobTouched(MemTouch(m, config, a, now), SqlTouch(s, config, a, now), a, blobId, data);
  }

  lemma StepDeleteAgents(m: Mem, s: Sql, config: Config, ids: seq<string>, cwd: Option<string>, now: int)
    requires Refines(m, s)
    ensures Refines(MemStep(m, config, DeleteAgents(ids, cwd), now), SqlStep(s, config, DeleteAgents(ids, cwd), now))
  {
    DoomedAgree(m, s, ids, cwd);
    RemoveRefines(m, s, MemDoomed(m, ids, cwd));
  }

  /** One operation keeps the stores in step exactly if it writes no run whose id another agent holds. */
  lemma StepRefines(m: Mem, s: Sql, config: Config, op: Op, now: int)
    requires Refines(m, s)
    ensures Refines(MemStep(m, config, op, now), SqlStep(s, config, op, now)) <==> !Clashes(m, config, op, now)
  {
    match op
    case WriteAgent(doc) => StepWriteAgent(m, s, config, doc, now);
    case DeleteAgents(ids, cwd) => StepDeleteAgents(m, s, config, ids, cwd, now);
    case WriteRun(run) => StepWriteRun(m, s, config, run, now);
    case DeleteRuns(agentIds, runIds) => DropRunsRefines(m, s, agentIds, runIds);
    case WriteBlob(a, blobId, data) => StepWriteBlob(m, s, config, a, blobId, data, now);
    case DeleteBlobs(agentIds, blobIds) => DropBlobsRefines(m, s, agentIds, blobIds);
  }

  // ---- the same view ---------------------------------------------------------------------------------------

  /** Every single read answers alike. */
  ghost predicate SameReads(m: Mem, s: Sql) {
    && (forall a :: MemAgent(m, a) == SqlAgent(s, a))
    && (forall a, r :: MemRun(m, a, r) == SqlRun(s, a, r))
    && (forall a, b :: MemBlob(m, a, b) == SqlBlob(s, a, b))
  }

  lemma RefinesReads(m: Mem, s: Sql)
    requires Refines(m, s)
    ensures SameReads(m, s)
  {
  }

  /** No write of the run hits an id that another agent holds at that time. */
  ghost predicate NeverClashes(m: Mem, config: Config, ops: seq<Timed>)
    decreases |ops|
  {
    ops == [] || (
      !Clashes(m, config, ops[0].op, ops[0].now) && NeverClashes(MemStep(m, config, ops[0].op, ops[0].now), config, ops[1..]))
  }

  /** Over any run without clashes, sweeps and evictions included, the stores stay in step. */
  lemma {:induction false} RunRefines(m: Mem, s: Sql, config: Config, ops: seq<Timed>)
    requires Refines(m, s) && NeverClashes(m, config, ops)
    ensures Refines(MemAfter(m, config, ops), SqlAfter(s, config, ops))
    decreases |ops|
  {
    if ops != [] {
      var t := ops[0];
      StepRefines(m, s, config, t.op, t.now);
      RunRefines(MemStep(m, config, t.op, t.now), SqlStep(s, config, t.op, t.now), config, ops[1..]);
    }
  }

  lemma EmptyRefines(n: nat)
    ensures Refines(Mem([], map[]), Sql(map[], map[], map[], n))
  {
  }

  /** From empty stores, every read of a run without clashes answers alike. */
  lemma StoresAgree(config: Config, ops: seq<Timed>)
    requires NeverClashes(Mem([], map[]), config, ops)
    ensures SameReads(MemAfter(Mem([], map[]), config, ops), SqlAfter(Sql(map[], map[], map[], 0), config, ops))
  {
    EmptyRefines(0);
    RunRefines(Mem([], map[]), Sql(map[], map[], map[], 0), config, ops);
    RefinesReads(MemAfter(Mem([], map[]), config, ops), SqlAfter(Sql(map[], map[], map[], 0), config, ops));
  }

  lemma PutRunShows(m: Mem, s: Sql, run: RunDoc)
    requires RunsAgree(m, s) && run.agentId in m.buckets
    ensures HeldByOther(m, run) <==>
      exists a :: MemRun(MemPutRun(m, run), a, run.runId) != SqlRun(SqlPutRun(s, run), a, run.runId)
  {
    forall a ensures MemRun(MemPutRun(m, run), a, run.runId) != SqlRun(SqlPutRun(s, run), a, run.runId)
      <==> a != run.agentId && MemRun(m, a, run.runId).Some?
    {
    }
  }

  /** A clash shows at once: the old holder still reads its run in memory, and no longer from the tables. */
  lemma ClashShows(m: Mem, s: Sql, config: Config, run: RunDoc, now: int)
    requires Refines(m, s)
    ensures run.agentId in MemTouch(m, config, run.agentId, now).buckets
    ensures Clashes(m, config, WriteRun(run), now) <==> exists a ::
      MemRun(MemPutRun(MemTouch(m, config, run.agentId, now), run), a, run.runId)
      != SqlRun(SqlPutRun(SqlTouch(s, config, run.agentId, now), run), a, run.runId)
  {
    TouchRefines(m, s, config, run.agentId, now);
    MemTouchListed(m, config, run.agentId, now);
    PutRunShows(MemTouch(m, config, run.agentId, now), SqlTouch(s, config, run.agentId, now), run);
  }

  // ---- owned run ids -----------------------------------------------------------------------------------------

  /** Every run sits with its owner. */
  ghost predicate Owned(m: Mem, owner: string -> string) {
    forall a, r | MemRun(m, a, r).Some? :: a == owner(r)
  }

  ghost predicate OpOwned(op: Op, owner: string -> string) { op.WriteRun? ==> op.run.agentId == owner(op.run.runId) }

  lemma {:induction false} EvictShrinks(m: Mem, config: Config)
    ensures forall a | a in MemEvict(m, config).buckets :: a in m.buckets && MemEvict(m, config).buckets[a] == m.buckets[a]
    decreases |m.order|
  {
    if !(|m.order| < config.maxAgents || m.order == []) {
      EvictShrinks(Mem(m.order[1..], m.buckets - {m.order[0]}), config);
    }
  }

  lemma SweepShrinks(m: Mem, config: Config, a: string, now: int)
    ensures forall c, r | c != a && MemRun(MemTouch(m, config, a, now), c, r).Some? ::
      MemRun(m, c, r) == MemRun(MemTouch(m, config, a, now), c, r)
    ensures forall r | MemRun(MemTouch(m, config, a, now), a, r).Some? :: MemRun(m, a, r).Some?
  {
    EvictShrinks(MemRemove(m, MemIdle(m, config, now)), config);
  }

  lemma OwnedStep(m: Mem, config: Config, op: Op, now: int, owner: string -> string)
    requires Owned(m, owner) && OpOwned(op, owner)
    ensures !Clashes(m, config, op, now) && Owned(MemStep(m, config, op, now), owner)
  {
    var m' := MemStep(m, config, op, now);
    match op
    case WriteAgent(doc) =>
      SweepShrinks(m, config, doc.agentId, now);
      PutAgentRuns(MemTouch(m, config, doc.agentId, now), doc);
    case WriteRun(run) =>
      SweepShrinks(m, config, run.agentId, now);
      MemTouchListed(m, config, run.agentId, now);
      var t := MemTouch(m, config, run.agentId, now);
      forall a, r ensures MemRun(MemPutRun(t, run), a, r) ==
        if a == run.agentId && r == run.runId then Some(run) else MemRun(t, a, r) {}
    case WriteBlob(a, b, data) =>
      SweepShrinks(m, config, a, now);
      MemTouchListed(m, config, a, now);
      var t := MemTouch(m, config, a, now);
      forall c, r ensures MemRun(MemPutBlob(t, a, b, data), c, r) == MemRun(t, c, r) {}
    case DeleteAgents(_, _) =>
      forall a, r | MemRun(m', a, r).Some? ensures a == owner(r) { assert MemRun(m, a, r).Some?; }
    case DeleteRuns(_, _) =>
      forall a, r | MemRun(m', a, r).Some? ensures a == owner(r) { assert MemRun(m, a, r).Some?; }
    case DeleteBlobs(_, _) =>
      forall a, r | MemRun(m', a, r).Some? ensures a == owner(r) { assert MemRun(m, a, r).Some?; }
  }

  lemma PutAgentRuns(m: Mem, doc: AgentDoc)
    requires doc.agentId in m.buckets
    ensures forall a, r :: MemRun(MemPutAgent(m, doc), a, r) == MemRun(m, a, r)
  {
  }

  /** If no run id is shared by two agents, there is no clash. */
  lemma {:induction false} OwnedRunIdsNeverClash(m: Mem, config: Config, ops: seq<Timed>, owner: string -> string)
    requires Owned(m, owner) && forall t | t in ops :: OpOwned(t.op, owner)
    ensures NeverClashes(m, config, ops)
    decreases |ops|
  {
    if ops != [] {
      OwnedStep(m, config, ops[0].op, ops[0].now, owner);
      OwnedRunIdsNeverClash(MemStep(m, config, ops[0].op, ops[0].now), config, ops[1..], owner);
    }
  }

  // ---- listings ------------------------------------------------------------------------------------------------

  /** The rows in whatever order the store yields them. */
  ghost predicate Enumerates<T(!new)>(xs: seq<T>, items: set<T>) {
    (forall i, j | 0 <= i < j < |xs| :: xs[i] != xs[j]) && forall x :: x in xs <==> x in items
  }

  lemma {:induction false} EnumerationCounts<T(!new)>(xs: seq<T>, items: set<T>)
    requires Enumerates(xs, items)
    ensures multiset(xs) == multiset(items)
  {
    if xs == [] {
      assert items == {};
    } else {
      var rest := xs[1..];
      assert xs == [xs[0]] + rest;
      forall x ensures x in rest <==> x in items - {xs[0]} {
        assert x in xs <==> x == xs[0] || x in rest;
      }
      EnumerationCounts(rest, items - {xs[0]});
    }
  }

  function ByRecency(): (AgentDoc, AgentDoc) -> bool {
    (a: AgentDoc, b: AgentDoc) => a.updatedAt > b.updatedAt || (a.updatedAt == b.updatedAt && Less(b.agentId, a.agentId))
  }

  function ByTurn(): (RunDoc, RunDoc) -> bool {
    (a: RunDoc, b: RunDoc) => a.turnNumber < b.turnNumber || (a.turnNumber == b.turnNumber && Less(a.runId, b.runId))
  }

  lemma ByRecencyOrders()
    ensures StrictOrder(ByRecency())
  {
    var before := ByRecency();
    forall x, y | before(x, y) ensures !before(y, x) { LessIsTotal(x.agentId, y.agentId); }
    forall x, y, z | Links(before, x, y, z) ensures before(x, z) {
      if Less(y.agentId, x.agentId) && Less(z.agentId, y.agentId) { LessTransitive(z.agentId, y.agentId, x.agentId); }
    }
  }

  lemma ByTurnOrders()
    ensures StrictOrder(ByTurn())
  {
    var before := ByTurn();
    forall x, y | before(x, y) ensures !before(y, x) { LessIsTotal(x.runId, y.runId); }
    forall x, y, z | Links(before, x, y, z) ensures before(x, z) {
      if Less(x.runId, y.runId) && Less(y.runId, z.runId) { LessTransitive(x.runId, y.runId, z.runId); }
    }
  }

  predicate InCwd(doc: AgentDoc, cwd: Option<string>) { cwd.Some? ==> doc.cwd == cwd.value }

  ghost function MemAgentDocs(m: Mem, cwd: Option<string>): set<AgentDoc> {
    set a | a in m.buckets && m.buckets[a].agent.Some? && InCwd(m.buckets[a].agent.value, cwd) :: m.buckets[a].agent.value
  }

  ghost function SqlAgentDocs(s: Sql, cwd: Option<string>): set<AgentDoc> {
    set a | a in s.agents && s.agents[a].document.Some? && InCwd(s.agents[a].document.value, cwd) :: s.agents[a].document.value
  }

  lemma AgentDocsAgree(m: Mem, s: Sql, cwd: Option<string>)
    requires Refines(m, s)
    ensures MemAgentDocs(m, cwd) == SqlAgentDocs(s, cwd)
    ensures forall d, e | d in MemAgentDocs(m, cwd) && e in MemAgentDocs(m, cwd) && d != e :: d.agentId != e.agentId
  {
    forall d ensures d in MemAgentDocs(m, cwd) ==> d in SqlAgentDocs(s, cwd) {
      if d in MemAgentDocs(m, cwd) {
        var a :| a in m.buckets && m.buckets[a].agent == Some(d);
        assert a in s.agents;
      }
    }
    forall d ensures d in SqlAgentDocs(s, cwd) ==> d in MemAgentDocs(m, cwd) {
      if d in SqlAgentDocs(s, cwd) {
        var a :| a in s.agents && s.agents[a].document == Some(d);
        assert a in m.buckets;
      }
    }
  }

  /** Both stores list the same agents in the same order. */
  lemma AgentListsAgree(m: Mem, s: Sql, cwd: Option<string>, xs: seq<AgentDoc>, ys: seq<AgentDoc>)
    requires Refines(m, s) && Enumerates(xs, MemAgentDocs(m, cwd)) && Enumerates(ys, SqlAgentDocs(s, cwd))
    ensures Sort(ByRecency(), xs) == Sort(ByRecency(), ys) && Sorted(ByRecency(), Sort(ByRecency(), xs))
  {
    AgentDocsAgree(m, s, cwd);
    EnumerationCounts(xs, MemAgentDocs(m, cwd));
    EnumerationCounts(ys, SqlAgentDocs(s, cwd));
    ByRecencyOrders();
    forall x, y | x in xs && y in xs && x != y ensures ByRecency()(x, y) || ByRecency()(y, x) {
      LessIsTotal(x.agentId, y.agentId);
    }
    SortSorts(ByRecency(), xs);
    SortForgetsOrder(ByRecency(), xs, ys);
  }

  predicate RunMatches(run: RunDoc, agentIds: seq<string>, runIds: seq<string>) {
    Matches(agentIds, run.agentId) && Matches(runIds, run.runId)
  }

  ghost function MemRunDocs(m: Mem, agentIds: seq<string>, runIds: seq<string>): set<RunDoc> {
    set a, r | a in m.buckets && r in m.buckets[a].runs && RunMatches(m.buckets[a].runs[r], agentIds, runIds) :: m.buckets[a].runs[r]
  }

  ghost function SqlRunDocs(s: Sql, agentIds: seq<string>, runIds: seq<string>): set<RunDoc> {
    set r | r in s.runs && RunMatches(s.runs[r].document, agentIds, runIds) :: s.runs[r].document
  }

  lemma RunDocsAgree(m: Mem, s: Sql, agentIds: seq<string>, runIds: seq<string>)
    requires MemValid(m) && RunsAgree(m, s)
    ensures MemRunDocs(m, agentIds, runIds) == SqlRunDocs(s, agentIds, runIds)
    ensures forall d, e | d in MemRunDocs(m, agentIds, runIds) && e in MemRunDocs(m, agentIds, runIds) && d != e ::
      d.runId != e.runId
  {
    forall d | d in MemRunDocs(m, agentIds, runIds) ensures SqlRun(s, d.agentId, d.runId) == Some(d) {
      var a, r :| a in m.buckets && r in m.buckets[a].runs && m.buckets[a].runs[r] == d;
      assert BucketValid(a, m.buckets[a]);
      assert MemRun(m, a, r) == SqlRun(s, a, r);
    }
    forall d | d in SqlRunDocs(s, agentIds, runIds) ensures d in MemRunDocs(m, agentIds, runIds) {
      var r :| r in s.runs && s.runs[r].document == d && RunMatches(d, agentIds, runIds);
      var a := s.runs[r].agentId;
      assert MemRun(m, a, r) == SqlRun(s, a, r);
    }
  }

  /** Both stores list the same runs in the same order. */
  lemma RunListsAgree(m: Mem, s: Sql, agentIds: seq<string>, runIds: seq<string>, xs: seq<RunDoc>, ys: seq<RunDoc>)
    requires Refines(m, s)
    requires Enumerates(xs, MemRunDocs(m, agentIds, runIds)) && Enumerates(ys, SqlRunDocs(s, agentIds, runIds))
    ensures Sort(ByTurn(), xs) == Sort(ByTurn(), ys) && Sorted(ByTurn(), Sort(ByTurn(), xs))
  {
    RunDocsAgree(m, s, agentIds, runIds);
    EnumerationCounts(xs, MemRunDocs(m, agentIds, runIds));
    EnumerationCounts(ys, SqlRunDocs(s, agentIds, runIds));
    ByTurnOrders();
    forall x, y | x in xs && y in xs && x != y ensures ByTurn()(x, y) || ByTurn()(y, x) {
      LessIsTotal(x.runId, y.runId);
    }
    SortSorts(ByTurn(), xs);
    SortForgetsOrder(ByTurn(), xs, ys);
  }

  ghost function MemBlobKeys(m: Mem, agentIds: seq<string>, blobIds: seq<string>): set<(string, string)> {
    set a, b | a in m.buckets && b in m.buckets[a].blobs && Matches(agentIds, a) && Matches(blobIds, b) :: (a, b)
  }

  ghost function SqlBlobKeys(s: Sql, agentIds: seq<string>, blobIds: seq<string>): set<(string, string)> {
    set c | c in s.checkpoints && Matches(agentIds, c.0) && Matches(blobIds, c.1)
  }

  /** Both stores hold the same checkpoints. */
  lemma BlobKeysAgree(m: Mem, s: Sql, agentIds: seq<string>, blobIds: seq<string>)
    requires BlobsAgree(m, s)
    ensures MemBlobKeys(m, agentIds, blobIds) == SqlBlobKeys(s, agentIds, blobIds)
  {
    forall a, b ensures (a, b) in MemBlobKeys(m, agentIds, blobIds) <==> (a, b) in SqlBlobKeys(s, agentIds, blobIds) {
      assert MemBlob(m, a, b) == SqlBlob(s, a, b);
    }
  }

  // ---- the bound ---------------------------------------------------------------------------------------------------

  /** A bound below one counts as one: the agent just written stays. */
  function Bound(config: Config): nat { if config.maxAgents >= 1 then config.maxAgents else 1 }

  lemma {:induction false} MemEvictBound(m: Mem, config: Config)
    ensures |MemEvict(m, config).order| < Bound(config)
    decreases |m.order|
  {
    if !(|m.order| < config.maxAgents || m.order == []) {
      MemEvictBound(Mem(m.order[1..], m.buckets - {m.order[0]}), config);
    }
  }

  lemma {:induction false} SqlEvictBound(s: Sql, config: Config)
    ensures |SqlEvict(s, config).agents| < Bound(config)
    decreases |s.agents|
  {
    if !(|s.agents| < config.maxAgents || s.agents == map[]) {
      SqlEvictBound(SqlRemove(s, {Oldest(s)}), config);
    }
  }

  lemma {:induction false} WithoutOne(order: seq<string>, a: string)
    requires a in order
    ensures |Without(order, {a})| < |order|
  {
    if order[0] != a { WithoutOne(order[1..], a); }
  }

  lemma SubmapSize<K, V, W>(small: map<K, V>, big: map<K, W>)
    requires small.Keys <= big.Keys
    ensures |small| <= |big|
  {
    assert |small.Keys| <= |big.Keys| by { SubsetSize(small.Keys, big.Keys); }
  }

  lemma {:induction false} SubsetSize<T>(a: set<T>, b: set<T>)
    requires a <= b
    ensures |a| <= |b|
  {
    assert b == a + (b - a);
  }

  lemma MemStepBound(m: Mem, config: Config, op: Op, now: int)
    requires MemValid(m) && |m.order| <= Bound(config)
    ensures |MemStep(m, config, op, now).order| <= Bound(config)
  {
    match op
    case WriteAgent(doc) => MemTouchBound(m, config, doc.agentId, now);
    case WriteRun(run) => MemTouchBound(m, config, run.agentId, now);
    case WriteBlob(a, _, _) => MemTouchBound(m, config, a, now);
    case _ =>
  }

  lemma MemTouchBound(m: Mem, config: Config, a: string, now: int)
    requires MemValid(m) && |m.order| <= Bound(config)
    ensures |MemTouch(m, config, a, now).order| <= Bound(config)
  {
    if a in m.buckets {
      assert a in m.order;
      WithoutOne(m.order, a);
    } else {
      MemEvictBound(MemRemove(m, MemIdle(m, config, now)), config);
    }
  }

  lemma SqlStepBound(s: Sql, config: Config, op: Op, now: int)
    requires |s.agents| <= Bound(config)
    ensures |SqlStep(s, config, op, now).agents| <= Bound(config)
  {
    match op
    case WriteAgent(doc) =>
      SqlTouchBound(s, config, doc.agentId, now);
      SqlTouchListed(s, config, doc.agentId, now);
    case WriteRun(run) => SqlTouchBound(s, config, run.agentId, now);
    case WriteBlob(a, _, _) => SqlTouchBound(s, config, a, now);
    case DeleteAgents(ids, cwd) => SubmapSize(s.agents - SqlDoomed(s, ids, cwd), s.agents);
    case _ =>
  }

  lemma SqlTouchBound(s: Sql, config: Config, a: string, now: int)
    requires |s.agents| <= Bound(config)
    ensures |SqlTouch(s, config, a, now).agents| <= Bound(config)
  {
    if a !in s.agents {
      SqlEvictBound(SqlRemove(SqlTicked(s), SqlIdle(SqlTicked(s), config, now)), config);
    }
  }

  /** Neither store ever keeps more agents than its bound, whatever is written. */
  lemma {:induction false} SqlNeverOutgrows(s: Sql, config: Config, ops: seq<Timed>)
    requires |s.agents| <= Bound(config)
    ensures |SqlAfter(s, config, ops).agents| <= Bound(config)
    decreases |ops|
  {
    if ops != [] {
      SqlStepBound(s, config, ops[0].op, ops[0].now);
      SqlNeverOutgrows(SqlStep(s, config, ops[0].op, ops[0].now), config, ops[1..]);
    }
  }

  lemma RemoveValid(m: Mem, ids: set<string>)
    requires MemValid(m)
    ensures MemValid(MemRemove(m, ids))
  {
    WithoutKeepsOrder(m.order, ids);
  }

  lemma {:induction false} EvictValid(m: Mem, config: Config)
    requires MemValid(m)
    ensures MemValid(MemEvict(m, config))
    decreases |m.order|
  {
    if !(|m.order| < config.maxAgents || m.order == []) {
      HeadRemoved(m);
      RemoveValid(m, {m.order[0]});
      EvictValid(MemRemove(m, {m.order[0]}), config);
    }
  }

  lemma TouchValid(m: Mem, config: Config, a: string, now: int)
    requires MemValid(m)
    ensures MemValid(MemTouch(m, config, a, now))
  {
    if a in m.buckets {
      MovedValid(m, a, now);
    } else {
      var idle := MemRemove(m, MemIdle(m, config, now));
      RemoveValid(m, MemIdle(m, config, now));
      EvictValid(idle, config);
      EvictShrinks(idle, config);
      TailValid(MemEvict(idle, config), a, now);
    }
  }

  lemma PutBlobValid(m: Mem, a: string, blobId: string, data: Blob)
    requires MemValid(m) && a in m.buckets
    ensures MemValid(MemPutBlob(m, a, blobId, data))
  {
  }

  lemma DropRunsValid(m: Mem, agentIds: seq<string>, runIds: seq<string>)
    requires MemValid(m)
    ensures MemValid(MemDropRuns(m, agentIds, runIds))
  {
  }

  lemma DropBlobsValid(m: Mem, agentIds: seq<string>, blobIds: seq<string>)
    requires MemValid(m)
    ensures MemValid(MemDropBlobs(m, agentIds, blobIds))
  {
  }

  lemma MemStepValid(m: Mem, config: Config, op: Op, now: int)
    requires MemValid(m)
    ensures MemValid(MemStep(m, config, op, now))
  {
    match op
    case WriteAgent(doc) =>
      TouchValid(m, config, doc.agentId, now);
      MemTouchListed(m, config, doc.agentId, now);
      PutAgentValid(MemTouch(m, config, doc.agentId, now), doc);
    case DeleteAgents(ids, cwd) => RemoveValid(m, MemDoomed(m, ids, cwd));
    case WriteRun(run) =>
      TouchValid(m, config, run.agentId, now);
      MemTouchListed(m, config, run.agentId, now);
      PutRunValid(MemTouch(m, config, run.agentId, now), run);
    case WriteBlob(a, blobId, data) =>
      TouchValid(m, config, a, now);
      MemTouchListed(m, config, a, now);
      PutBlobValid(MemTouch(m, config, a, now), a, blobId, data);
    case DeleteRuns(agentIds, runIds) => DropRunsValid(m, agentIds, runIds);
    case DeleteBlobs(agentIds, blobIds) => DropBlobsValid(m, agentIds, blobIds);
  }

  lemma {:induction false} MemNeverOutgrows(m: Mem, config: Config, ops: seq<Timed>)
    requires MemValid(m) && |m.order| <= Bound(config)
    ensures MemValid(MemAfter(m, config, ops)) && |MemAfter(m, config, ops).buckets| <= Bound(config)
    decreases |ops|
  {
    if ops == [] {
      OrderIsSize(m.order, m.buckets.Keys);
    } else {
      MemStepBound(m, config, ops[0].op, ops[0].now);
      MemStepValid(m, config, ops[0].op, ops[0].now);
      MemNeverOutgrows(MemStep(m, config, ops[0].op, ops[0].now), config, ops[1..]);
    }
  }
}
