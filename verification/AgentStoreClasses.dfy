/** Both agent stores with their state and loops, proved against the models on values. */
module AgentStoreClasses {
  import opened Prelude
  import opened Sorting
  import opened AgentStore
  import opened AgentStoreProofs
  import opened AgentStoreTheorems

  lemma MemRemoveTwice(m: Mem, xs: set<string>, ys: set<string>)
    ensures MemRemove(MemRemove(m, xs), ys) == MemRemove(m, xs + ys)
  {
    WithoutTwice(m.order, xs, ys);
    assert m.buckets - xs - ys == m.buckets - (xs + ys);
  }

  lemma {:induction false} WithoutTwice(order: seq<string>, xs: set<string>, ys: set<string>)
    ensures Without(Without(order, xs), ys) == Without(order, xs + ys)
  {
    if order != [] {
      WithoutTwice(order[1..], xs, ys);
      WithoutHead(order[0], Without(order[1..], xs), ys);
      assert [] + Without(order[1..], xs) == Without(order[1..], xs);
    }
  }

  lemma WithoutHead(a: string, rest: seq<string>, ids: set<string>)
    ensures Without([a] + rest, ids) == (if a in ids then [] else [a]) + Without(rest, ids)
  {
    assert ([a] + rest)[1..] == rest;
  }

  lemma RemoveOneMore(m: Mem, gone: set<string>, a: string)
    requires MemValid(m)
    ensures MemRemove(MemRemove(m, gone), {a}) == MemRemove(m, gone + {a}) && MemValid(MemRemove(m, gone + {a}))
  {
    MemRemoveTwice(m, gone, {a});
    RemoveValid(m, gone + {a});
  }

  lemma MemRemoveNone(m: Mem)
    ensures MemRemove(m, {}) == m
  {
    NothingToRemove(m.order, {});
  }

  lemma MemRemoveAbsent(m: Mem, a: string)
    requires MemValid(m) && a !in m.buckets
    ensures MemRemove(m, {a}) == m
  {
    NothingToRemove(m.order, {a});
  }

  lemma SqlRemoveTwice(s: Sql, xs: set<string>, ys: set<string>)
    ensures SqlRemove(SqlRemove(s, xs), ys) == SqlRemove(s, xs + ys)
  {
    assert s.agents - xs - ys == s.agents - (xs + ys);
  }

  lemma NextInOrder(order: seq<string>, i: nat)
    requires i < |order| && DistinctOrder(order)
    ensures order[i] in order && order[i] !in order[..i]
    ensures forall a :: a in order[..i + 1] <==> a in order[..i] || a == order[i]
  {
    assert order[..i + 1] == order[..i] + [order[i]];
  }

  class EphemeralAgentStore {
    const config: Config
    /** One insertion-ordered `Map`: its keys in order, and its entries. */
    var order: seq<string>
    var buckets: map<string, Bucket>

    ghost function State(): Mem
      reads this
    {
      Mem(order, buckets)
    }

    constructor (bounds: Config)
      ensures config == bounds && State() == Mem([], map[])
    {
      config, order, buckets := bounds, [], map[];
    }

    method DropAgent(a: string)
      requires MemValid(State())
      modifies `order, `buckets
      ensures State() == MemRemove(old(State()), {a})
    {
      if a !in buckets {
        MemRemoveAbsent(State(), a);
        return;
      }
      order, buckets := Without(order, {a}), buckets - {a};
    }

    /** Drop those of these agents that are to go. */
    method DropAll(ids: seq<string>, doomed: set<string>)
      requires MemValid(State()) && forall a | a in doomed :: a in ids
      modifies `order, `buckets
      ensures State() == MemRemove(old(State()), doomed)
    {
      ghost var before := State();
      var i := 0;
      ghost var gone: set<string> := {};
      MemRemoveNone(before);
      while i < |ids|
        invariant 0 <= i <= |ids| && gone <= doomed
        invariant forall j | 0 <= j < i :: ids[j] in doomed ==> ids[j] in gone
        invariant State() == MemRemove(before, gone) && MemValid(State())
      {
        if ids[i] in doomed {
          DropAgent(ids[i]);
          RemoveOneMore(before, gone, ids[i]);
          gone := gone + {ids[i]};
        }
        i := i + 1;
      }
      assert gone == doomed;
    }

    method Sweep(now: int)
      requires MemValid(State())
      modifies `order, `buckets
      ensures State() == MemSweep(old(State()), config, now)
    {
      ghost var before := State();
      RemoveValid(before, MemIdle(before, config, now));
      DropAll(order, set a | a in buckets && now - buckets[a].touchedAt >= config.idleTtl);
      ghost var rest := State();
      while |buckets| >= config.maxAgents && |buckets| > 0
        invariant MemValid(State()) && MemEvict(State(), config) == MemEvict(rest, config)
        decreases |order|
      {
        OrderIsSize(order, buckets.Keys);
        HeadRemoved(State());
        RemoveValid(State(), {order[0]});
        ghost var size := |order|;
        WithoutOne(order, order[0]);
        DropAgent(order[0]);
      }
      OrderIsSize(order, buckets.Keys);
    }

    method Touch(a: string, now: int)
      requires MemValid(State())
      modifies `order, `buckets
      ensures State() == MemTouch(old(State()), config, a, now) && MemValid(State()) && a in buckets
    {
      TouchValid(State(), config, a, now);
      var bucket;
      if a in buckets {
        bucket := buckets[a];
        order := Without(order, {a});
      } else {
        bucket := Bucket(None, map[], map[], 0);
        Sweep(now);
      }
      bucket := bucket.(touchedAt := now);
      order, buckets := order + [a], buckets[a := bucket];
    }

    /** `agents.create` and `agents.update`. */
    method WriteAgent(doc: AgentDoc, now: int)
      requires MemValid(State())
      modifies `order, `buckets
      ensures State() == MemStep(old(State()), config, Op.WriteAgent(doc), now)
    {
      Touch(doc.agentId, now);
      buckets := buckets[doc.agentId := buckets[doc.agentId].(agent := Some(doc))];
    }

    /** `runs.create` and `runs.update`. */
    method WriteRun(run: RunDoc, now: int)
      requires MemValid(State())
      modifies `order, `buckets
      ensures State() == MemStep(old(State()), config, Op.WriteRun(run), now)
    {
      Touch(run.agentId, now);
      var b := buckets[run.agentId];
      buckets := buckets[run.agentId := b.(runs := b.runs[run.runId := run])];
    }

    method WriteBlob(a: string, blobId: string, data: Blob, now: int)
      requires MemValid(State())
      modifies `order, `buckets
      ensures State() == MemStep(old(State()), config, Op.WriteBlob(a, blobId, data), now)
    {
      Touch(a, now);
      var b := buckets[a];
      buckets := buckets[a := b.(blobs := b.blobs[blobId := data])];
    }

    method DeleteAgents(agentIds: seq<string>, cwd: Option<string>, now: int)
      requires MemValid(State())
      modifies `order, `buckets
      ensures State() == MemStep(old(State()), config, Op.DeleteAgents(agentIds, cwd), now)
    {
      DropAll(order, set a | a in buckets && Matches(agentIds, a)
        && (cwd.Some? ==> buckets[a].agent.Some? && buckets[a].agent.value.cwd == cwd.value));
    }

    /** One pass over the buckets. */
    method DeleteRuns(agentIds: seq<string>, runIds: seq<string>, now: int)
      requires MemValid(State())
      modifies `buckets
      ensures State() == MemStep(old(State()), config, Op.DeleteRuns(agentIds, runIds), now)
    {
      ghost var before := buckets;
      var i := 0;
      while i < |order|
        invariant 0 <= i <= |order| && buckets.Keys == before.Keys
        invariant forall a | a in before ::
          buckets[a] == if a in order[..i] then BucketDropRuns(before[a], agentIds, runIds) else before[a]
      {
        var a := order[i];
        NextInOrder(order, i);
        var runs := buckets[a].runs;
        var kept := map r | r in runs && !(Matches(agentIds, runs[r].agentId) && Matches(runIds, r)) :: runs[r];
        buckets := buckets[a := buckets[a].(runs := kept)];
        i := i + 1;
      }
      assert order[..i] == order;
    }

    method DeleteBlobs(agentIds: seq<string>, blobIds: seq<string>, now: int)
      requires MemValid(State())
      modifies `buckets
      ensures State() == MemStep(old(State()), config, Op.DeleteBlobs(agentIds, blobIds), now)
    {
      ghost var before := buckets;
      var i := 0;
      while i < |order|
        invariant 0 <= i <= |order| && buckets.Keys == before.Keys
        invariant forall a | a in before ::
          buckets[a] == if a in order[..i] then BucketDropBlobs(a, before[a], agentIds, blobIds) else before[a]
      {
        var a := order[i];
        NextInOrder(order, i);
        if Matches(agentIds, a) {
          var blobs := buckets[a].blobs;
          buckets := buckets[a := buckets[a].(blobs := map b | b in blobs && !Matches(blobIds, b) :: blobs[b])];
        }
        DroppedBlobs(a, before[a], agentIds, blobIds);
        i := i + 1;
      }
      assert order[..i] == order;
    }
  }

  lemma DroppedBlobs(a: string, b: Bucket, agentIds: seq<string>, blobIds: seq<string>)
    ensures BucketDropBlobs(a, b, agentIds, blobIds) ==
      if Matches(agentIds, a) then b.(blobs := map c | c in b.blobs && !Matches(blobIds, c) :: b.blobs[c]) else b
  {
  }

  class SqliteAgentStore {
    const config: Config
    /** The tables by primary key. */
    var agents: map<string, AgentRow>
    var runs: map<string, RunRow>
    var checkpoints: map<(string, string), Blob>
    var lruClock: nat

    ghost function State(): Sql
      reads this
    {
      Sql(agents, runs, checkpoints, lruClock)
    }

    constructor (bounds: Config)
      ensures config == bounds && State() == Sql(map[], map[], map[], 0)
    {
      config, agents, runs, checkpoints, lruClock := bounds, map[], map[], map[], 0;
    }

    method NextLru() returns (n: nat)
      modifies `lruClock
      ensures State() == SqlTicked(old(State())) && n == lruClock
    {
      lruClock := lruClock + 1;
      n := lruClock;
    }

    /** Three `DELETE`s. */
    method DropAgent(a: string)
      modifies `agents, `runs, `checkpoints
      ensures State() == SqlRemove(old(State()), {a})
    {
      runs := map r | r in runs && runs[r].agentId != a :: runs[r];
      checkpoints := map c | c in checkpoints && c.0 != a :: checkpoints[c];
      agents := agents - {a};
    }

    method DropAll(doomed: set<string>)
      modifies `agents, `runs, `checkpoints
      ensures State() == SqlRemove(old(State()), doomed)
    {
      ghost var before := State();
      var todo := doomed;
      assert SqlRemove(before, {}) == before;
      while todo != {}
        invariant todo <= doomed && State() == SqlRemove(before, doomed - todo)
        decreases |todo|
      {
        var a :| a in todo;
        DropAgent(a);
        SqlRemoveTwice(before, doomed - todo, {a});
        assert (doomed - todo) + {a} == doomed - (todo - {a});
        todo := todo - {a};
      }
      assert doomed - todo == doomed;
    }

    method Sweep(now: int)
      modifies `agents, `runs, `checkpoints
      ensures State() == SqlSweep(old(State()), config, now)
    {
      DropAll(set a | a in agents && now - agents[a].touchedAt >= config.idleTtl);
      ghost var rest := State();
      while |agents| >= config.maxAgents && |agents| > 0
        invariant SqlEvict(State(), config) == SqlEvict(rest, config) && lruClock == rest.lruClock
        decreases |agents|
      {
        var oldest := SelectOldest();
        OldestIsUnique(State(), oldest, Oldest(State()));
        DropAgent(oldest);
      }
    }

    /** `ORDER BY lru_seq ASC, agent_id ASC LIMIT 1`. */
    method SelectOldest() returns (a: string)
      requires agents != map[]
      ensures IsOldest(State(), a)
    {
      OldestExists(State());
      ghost var g :| IsOldest(State(), g);
      assert g in agents && forall b | b in agents && b != g :: Earlier(g, b);
      a :| a in agents && forall b | b in agents && b != a :: Earlier(a, b);
      forall b | b in agents && b != a ensures RowBefore(State(), a, b) { assert Earlier(a, b); }
    }

    predicate Earlier(a: string, b: string)
      reads this
      requires a in agents && b in agents
    {
      agents[a].lruSeq < agents[b].lruSeq || (agents[a].lruSeq == agents[b].lruSeq && Less(a, b))
    }

    method Touch(a: string, now: int)
      modifies `agents, `runs, `checkpoints, `lruClock
      ensures State() == SqlTouch(old(State()), config, a, now) && a in agents
    {
      var existing := a in agents;
      var n := NextLru();
      if existing {
        agents := agents[a := agents[a].(touchedAt := now, lruSeq := n)];
        return;
      }
      Sweep(now);
      agents := agents[a := AgentRow(None, now, n)];
    }

    method WriteAgent(doc: AgentDoc, now: int)
      modifies `agents, `runs, `checkpoints, `lruClock
      ensures State() == SqlStep(old(State()), config, Op.WriteAgent(doc), now)
    {
      Touch(doc.agentId, now);
      agents := agents[doc.agentId := agents[doc.agentId].(document := Some(doc))];
    }

    method WriteRun(run: RunDoc, now: int)
      modifies `agents, `runs, `checkpoints, `lruClock
      ensures State() == SqlStep(old(State()), config, Op.WriteRun(run), now)
    {
      Touch(run.agentId, now);
      runs := runs[run.runId := RunRow(run.agentId, run)];
    }

    method WriteBlob(a: string, blobId: string, data: Blob, now: int)
      modifies `agents, `runs, `checkpoints, `lruClock
      ensures State() == SqlStep(old(State()), config, Op.WriteBlob(a, blobId, data), now)
    {
      Touch(a, now);
      checkpoints := checkpoints[(a, blobId) := data];
    }

    method DeleteAgents(agentIds: seq<string>, cwd: Option<string>, now: int)
      modifies `agents, `runs, `checkpoints
      ensures State() == SqlStep(old(State()), config, Op.DeleteAgents(agentIds, cwd), now)
    {
      DropAll(set a | a in agents && Matches(agentIds, a)
        && (cwd.Some? ==> agents[a].document.Some? && agents[a].document.value.cwd == cwd.value));
    }

    /** Row by row. */
    method DeleteRuns(agentIds: seq<string>, runIds: seq<string>, now: int)
      modifies `runs
      ensures State() == SqlStep(old(State()), config, Op.DeleteRuns(agentIds, runIds), now)
    {
      ghost var before := runs;
      var todo := runs.Keys;
      while todo != {}
        invariant todo <= before.Keys
        invariant runs == map r | r in before && (r in todo || !(Matches(agentIds, before[r].agentId) && Matches(runIds, r))) :: before[r]
        decreases |todo|
      {
        var r :| r in todo;
        if Matches(agentIds, runs[r].agentId) && Matches(runIds, r) { runs := runs - {r}; }
        todo := todo - {r};
      }
    }

    method DeleteBlobs(agentIds: seq<string>, blobIds: seq<string>, now: int)
      modifies `checkpoints
      ensures State() == SqlStep(old(State()), config, Op.DeleteBlobs(agentIds, blobIds), now)
    {
      ghost var before := checkpoints;
      var todo := checkpoints.Keys;
      while todo != {}
        invariant todo <= before.Keys
        invariant checkpoints ==
          map c | c in before && (c in todo || !(Matches(agentIds, c.0) && Matches(blobIds, c.1))) :: before[c]
        decreases |todo|
      {
        var c :| c in todo;
        if Matches(agentIds, c.0) && Matches(blobIds, c.1) { checkpoints := checkpoints - {c}; }
        todo := todo - {c};
      }
    }
  }
}
