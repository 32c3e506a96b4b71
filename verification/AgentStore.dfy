/** The two agent stores of src/agent-store.ts on values: an insertion-ordered map, and SQL tables. */
module AgentStore {
  import opened Prelude
  import opened Sorting
  import opened WeightedPick

  datatype AgentDoc = AgentDoc(agentId: string, cwd: string, updatedAt: int, body: int)

  datatype RunDoc = RunDoc(runId: string, agentId: string, turnNumber: int, body: int)

  type Blob = seq<bv8>

  datatype Config = Config(idleTtl: nat, maxAgents: nat)

  /** `positiveBound`: a fraction below one becomes zero. */
  function PositiveBound(value: Option<Number>, fallback: nat): (r: nat)
    ensures value.Some? && value.value.Finite? && value.value.value > 0.0 ==>
      r as real <= value.value.value < r as real + 1.0
    ensures r == 0 <==>
      if value.Some? && value.value.Finite? && value.value.value > 0.0 then value.value.value < 1.0 else fallback == 0
  {
    if value.Some? && value.value.Finite? && value.value.value > 0.0 then value.value.value.Floor else fallback
  }

  // ---- the operations ----------------------------------------------------------------------------------

  datatype Op =
    | WriteAgent(agent: AgentDoc)
    | DeleteAgents(agentIds: seq<string>, cwd: Option<string>)
    | WriteRun(run: RunDoc)
    | DeleteRuns(agentIds: seq<string>, runIds: seq<string>)
    | WriteBlob(agentId: string, blobId: string, data: Blob)
    | DeleteBlobs(agentIds: seq<string>, blobIds: seq<string>)

  /** An empty filter list matches everything. */
  predicate Matches(ids: seq<string>, id: string) { ids == [] || id in ids }

  // ---- the in-memory store -------------------------------------------------------------------------------

  datatype Bucket = Bucket(agent: Option<AgentDoc>, runs: map<string, RunDoc>, blobs: map<string, Blob>, touchedAt: int)

  /** `order` is the insertion order of the map, the longest untouched agent first. */
  datatype Mem = Mem(order: seq<string>, buckets: map<string, Bucket>)

  function Without(order: seq<string>, ids: set<string>): (r: seq<string>)
    ensures forall a :: a in r <==> a in order && a !in ids
    ensures |r| <= |order|
  {
    if order == [] then []
    else
      var rest := Without(order[1..], ids);
      assert forall a :: a in order <==> a == order[0] || a in order[1..];
      (if order[0] in ids then [] else [order[0]]) + rest
  }

  function MemRemove(m: Mem, ids: set<string>): Mem { Mem(Without(m.order, ids), m.buckets - ids) }

  function MemIdle(m: Mem, config: Config, now: int): set<string> {
    set a | a in m.buckets && now - m.buckets[a].touchedAt >= config.idleTtl
  }

  /** Evict from the head until there is room for one more. */
  function MemEvict(m: Mem, config: Config): Mem
    decreases |m.order|
  {
    if |m.order| < config.maxAgents || m.order == [] then m
    else MemEvict(Mem(m.order[1..], m.buckets - {m.order[0]}), config)
  }

  function MemSweep(m: Mem, config: Config, now: int): Mem {
    MemEvict(MemRemove(m, MemIdle(m, config, now)), config)
  }

  function MemMoved(m: Mem, a: string, now: int): Mem
    requires a in m.buckets
  {
    Mem(Without(m.order, {a}) + [a], m.buckets[a := m.buckets[a].(touchedAt := now)])
  }

  function MemTail(m: Mem, a: string, now: int): Mem {
    Mem(m.order + [a], m.buckets[a := Bucket(None, map[], map[], now)])
  }

  /** `touch`: the bucket moves to the tail; a new one is preceded by a sweep. */
  function MemTouch(m: Mem, config: Config, a: string, now: int): Mem {
    if a in m.buckets then MemMoved(m, a, now) else MemTail(MemSweep(m, config, now), a, now)
  }

  function MemPutAgent(m: Mem, doc: AgentDoc): Mem
    requires doc.agentId in m.buckets
  {
    m.(buckets := m.buckets[doc.agentId := m.buckets[doc.agentId].(agent := Some(doc))])
  }

  function MemPutRun(m: Mem, run: RunDoc): Mem
    requires run.agentId in m.buckets
  {
    var b := m.buckets[run.agentId];
    m.(buckets := m.buckets[run.agentId := b.(runs := b.runs[run.runId := run])])
  }

  function MemPutBlob(m: Mem, a: string, blobId: string, data: Blob): Mem
    requires a in m.buckets
  {
    var b := m.buckets[a];
    m.(buckets := m.buckets[a := b.(blobs := b.blobs[blobId := data])])
  }

  function BucketDropRuns(b: Bucket, agentIds: seq<string>, runIds: seq<string>): Bucket {
    b.(runs := map r | r in b.runs && !(Matches(agentIds, b.runs[r].agentId) && Matches(runIds, r)) :: b.runs[r])
  }

  function MemDropRuns(m: Mem, agentIds: seq<string>, runIds: seq<string>): Mem {
    m.(buckets := map a | a in m.buckets :: BucketDropRuns(m.buckets[a], agentIds, runIds))
  }

  function BucketDropBlobs(a: string, b: Bucket, agentIds: seq<string>, blobIds: seq<string>): Bucket {
    b.(blobs := map c | c in b.blobs && !(Matches(agentIds, a) && Matches(blobIds, c)) :: b.blobs[c])
  }

  function MemDropBlobs(m: Mem, agentIds: seq<string>, blobIds: seq<string>): Mem {
    m.(buckets := map a | a in m.buckets :: BucketDropBlobs(a, m.buckets[a], agentIds, blobIds))
  }

  function MemDoomed(m: Mem, agentIds: seq<string>, cwd: Option<string>): set<string> {
    set a | a in m.buckets && Matches(agentIds, a)
      && (cwd.Some? ==> m.buckets[a].agent.Some? && m.buckets[a].agent.value.cwd == cwd.value)
  }

  function MemStep(m: Mem, config: Config, op: Op, now: int): Mem {
    match op
    case WriteAgent(doc) =>
      MemTouchListed(m, config, doc.agentId, now);
      MemPutAgent(MemTouch(m, config, doc.agentId, now), doc)
    case DeleteAgents(ids, cwd) => MemRemove(m, MemDoomed(m, ids, cwd))
    case WriteRun(run) =>
      MemTouchListed(m, config, run.agentId, now);
      MemPutRun(MemTouch(m, config, run.agentId, now), run)
    case DeleteRuns(agentIds, runIds) => MemDropRuns(m, agentIds, runIds)
    case WriteBlob(a, blobId, data) =>
      MemTouchListed(m, config, a, now);
      MemPutBlob(MemTouch(m, config, a, now), a, blobId, data)
    case DeleteBlobs(agentIds, blobIds) => MemDropBlobs(m, agentIds, blobIds)
  }

  lemma MemTouchListed(m: Mem, config: Config, a: string, now: int)
    ensures a in MemTouch(m, config, a, now).buckets
  {
  }

  // ---- the SQL store ------------------------------------------------------------------------------------------

  datatype AgentRow = AgentRow(document: Option<AgentDoc>, touchedAt: int, lruSeq: nat)

  datatype RunRow = RunRow(agentId: string, document: RunDoc)

  /** The tables by primary key. */
  datatype Sql = Sql(
    agents: map<string, AgentRow>, runs: map<string, RunRow>, checkpoints: map<(string, string), Blob>, lruClock: nat)

  function SqlRemove(s: Sql, ids: set<string>): Sql {
    s.(agents := s.agents - ids,
       runs := map r | r in s.runs && s.runs[r].agentId !in ids :: s.runs[r],
       checkpoints := map c | c in s.checkpoints && c.0 !in ids :: s.checkpoints[c])
  }

  function SqlIdle(s: Sql, config: Config, now: int): set<string> {
    set a | a in s.agents && now - s.agents[a].touchedAt >= config.idleTtl
  }

  /** `ORDER BY lru_seq ASC, agent_id ASC`. */
  predicate RowBefore(s: Sql, a: string, b: string)
    requires a in s.agents && b in s.agents
  {
    s.agents[a].lruSeq < s.agents[b].lruSeq || (s.agents[a].lruSeq == s.agents[b].lruSeq && Less(a, b))
  }

  ghost predicate IsOldest(s: Sql, a: string) {
    a in s.agents && forall b | b in s.agents && b != a :: RowBefore(s, a, b)
  }

  lemma {:induction false} OldestExistsAmong(s: Sql, ids: set<string>)
    requires ids <= s.agents.Keys && ids != {}
    ensures exists a :: a in ids && forall b | b in ids && b != a :: RowBefore(s, a, b)
    decreases |ids|
  {
    var x :| x in ids;
    if ids != {x} {
      var rest := ids - {x};
      assert rest != {};
      OldestExistsAmong(s, rest);
      var y :| y in rest && forall b | b in rest && b != y :: RowBefore(s, y, b);
      LessIsTotal(x, y);
      forall b | b in rest && b != y && RowBefore(s, x, y) ensures RowBefore(s, x, b) {
        if Less(x, y) && Less(y, b) { LessTransitive(x, y, b); }
      }
      if RowBefore(s, x, y) {
        assert forall b | b in ids && b != x :: RowBefore(s, x, b);
      } else {
        assert forall b | b in ids && b != y :: RowBefore(s, y, b);
      }
    }
  }

  lemma OldestExists(s: Sql)
    requires s.agents != map[]
    ensures exists a :: IsOldest(s, a)
  {
    assert s.agents.Keys != {};
    OldestExistsAmong(s, s.agents.Keys);
    var a :| a in s.agents.Keys && forall b | b in s.agents.Keys && b != a :: RowBefore(s, a, b);
    assert IsOldest(s, a);
  }

  /** The row `LIMIT 1` returns. */
  ghost function Oldest(s: Sql): (a: string)
    requires s.agents != map[]
    ensures IsOldest(s, a)
  {
    OldestExists(s);
    var a :| IsOldest(s, a);
    a
  }

  lemma OldestIsUnique(s: Sql, a: string, b: string)
    requires IsOldest(s, a) && IsOldest(s, b)
    ensures a == b
  {
    if a != b { LessIsTotal(a, b); }
  }

  ghost function SqlEvict(s: Sql, config: Config): Sql
    decreases |s.agents|
  {
    if |s.agents| < config.maxAgents || s.agents == map[] then s
    else SqlEvict(SqlRemove(s, {Oldest(s)}), config)
  }

  ghost function SqlSweep(s: Sql, config: Config, now: int): Sql {
    SqlEvict(SqlRemove(s, SqlIdle(s, config, now)), config)
  }

  function SqlTicked(s: Sql): Sql { s.(lruClock := s.lruClock + 1) }

  function SqlMoved(s: Sql, a: string, now: int): Sql
    requires a in s.agents
  {
    s.(lruClock := s.lruClock + 1, agents := s.agents[a := s.agents[a].(touchedAt := now, lruSeq := s.lruClock + 1)])
  }

  function SqlTail(s: Sql, a: string, now: int, n: nat): Sql { s.(agents := s.agents[a := AgentRow(None, now, n)]) }

  /** `touch`: the LRU number is drawn before the sweep. */
  ghost function SqlTouch(s: Sql, config: Config, a: string, now: int): Sql {
    if a in s.agents then SqlMoved(s, a, now) else SqlTail(SqlSweep(SqlTicked(s), config, now), a, now, s.lruClock + 1)
  }

  function SqlDoomed(s: Sql, agentIds: seq<string>, cwd: Option<string>): set<string> {
    set a | a in s.agents && Matches(agentIds, a)
      && (cwd.Some? ==> s.agents[a].document.Some? && s.agents[a].document.value.cwd == cwd.value)
  }

  function SqlPutAgent(s: Sql, doc: AgentDoc): Sql
    requires doc.agentId in s.agents
  {
    s.(agents := s.agents[doc.agentId := s.agents[doc.agentId].(document := Some(doc))])
  }

  /** `ON CONFLICT(run_id)`: the row moves to the new agent. */
  function SqlPutRun(s: Sql, run: RunDoc): Sql { s.(runs := s.runs[run.runId := RunRow(run.agentId, run)]) }

  function SqlPutBlob(s: Sql, a: string, blobId: string, data: Blob): Sql {
    s.(checkpoints := s.checkpoints[(a, blobId) := data])
  }

  function SqlDropRuns(s: Sql, agentIds: seq<string>, runIds: seq<string>): Sql {
    s.(runs := map r | r in s.runs && !(Matches(agentIds, s.runs[r].agentId) && Matches(runIds, r)) :: s.runs[r])
  }

  function SqlDropBlobs(s: Sql, agentIds: seq<string>, blobIds: seq<string>): Sql {
    s.(checkpoints :=
      map c | c in s.checkpoints && !(Matches(agentIds, c.0) && Matches(blobIds, c.1)) :: s.checkpoints[c])
  }

  lemma SqlTouchListed(s: Sql, config: Config, a: string, now: int)
    ensures a in SqlTouch(s, config, a, now).agents
  {
  }

  ghost function SqlStep(s: Sql, config: Config, op: Op, now: int): Sql {
    match op
    case WriteAgent(doc) =>
      SqlTouchListed(s, config, doc.agentId, now);
      SqlPutAgent(SqlTouch(s, config, doc.agentId, now), doc)
    case DeleteAgents(ids, cwd) => SqlRemove(s, SqlDoomed(s, ids, cwd))
    case WriteRun(run) => SqlPutRun(SqlTouch(s, config, run.agentId, now), run)
    case DeleteRuns(agentIds, runIds) => SqlDropRuns(s, agentIds, runIds)
    case WriteBlob(a, blobId, data) => SqlPutBlob(SqlTouch(s, config, a, now), a, blobId, data)
    case DeleteBlobs(agentIds, blobIds) => SqlDropBlobs(s, agentIds, blobIds)
  }

  // ---- what a caller can see -------------------------------------------------------------------------------------

  function MemAgent(m: Mem, a: string): Option<AgentDoc> { if a in m.buckets then m.buckets[a].agent else None }

  function SqlAgent(s: Sql, a: string): Option<AgentDoc> { if a in s.agents then s.agents[a].document else None }

  function MemRun(m: Mem, a: string, r: string): Option<RunDoc> {
    if a in m.buckets && r in m.buckets[a].runs then Some(m.buckets[a].runs[r]) else None
  }

  function SqlRun(s: Sql, a: string, r: string): Option<RunDoc> {
    if r in s.runs && s.runs[r].agentId == a then Some(s.runs[r].document) else None
  }

  function MemBlob(m: Mem, a: string, b: string): Option<Blob> {
    if a in m.buckets && b in m.buckets[a].blobs then Some(m.buckets[a].blobs[b]) else None
  }

  function SqlBlob(s: Sql, a: string, b: string): Option<Blob> {
    if (a, b) in s.checkpoints then Some(s.checkpoints[(a, b)]) else None
  }
}
