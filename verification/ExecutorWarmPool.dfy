/** The lease pool itself: its fields are updated in place, one method per synchronous stretch of the source. */
module ExecutorWarmPoolClass {
  import opened Prelude
  import opened ExecutorWarmup
  import Proofs = ExecutorWarmupProofs

  function Cooled(cfg: Config, s: Pool, key: string, now: int): Pool {
    s.(cooldowns := Trim(SetCooldown(s.cooldowns, key, now + cfg.cooldownMs), now, cfg.maxLeases))
  }

  lemma RecycleIs(cfg: Config, s: Pool, key: string, now: int, cooled: Pool)
    requires Enabled(cfg, s, Step.Recycle(key, now)) && cooled == Cooled(cfg, s, key, now)
    ensures Apply(cfg, s, Step.Recycle(key, now)) == if key in s.leases then Detach(cooled, key) else cooled
  {
  }

  class ExecutorWarmPool {
    const cfg: Config
    var objects: seq<Lease>
    var leases: map<string, nat>
    var orphans: seq<nat>
    var tasks: seq<Task>
    var calls: seq<Call>
    var waits: seq<Wait>
    var sweeps: seq<Sweep>
    var cooldowns: seq<Cooldown>

    ghost function State(): Pool
      reads this
    {
      Pool(objects, leases, orphans, tasks, calls, waits, sweeps, cooldowns)
    }

    ghost predicate Valid()
      reads this
    {
      Proofs.Inv(State())
    }

    constructor (cfg: Config)
      ensures this.cfg == cfg && State() == Empty && Valid()
    {
      this.cfg := cfg;
      objects, leases, orphans, tasks := [], map[], [], [];
      calls, waits, sweeps, cooldowns := [], [], [], [];
    }

    /** `settle` up to its first await, registered among the settling tasks. */
    method TrackSettle(key: Option<string>, l: nat)
      requires l < |objects|
      modifies this`objects, this`tasks
      ensures State() == ExecutorWarmup.TrackSettle(old(State()), key, l)
    {
      objects := objects[l := objects[l].(retiring := true)];
      tasks := tasks + [Task(key, l, AwaitPrewarm)];
    }

    method Retain(key: Option<string>, l: nat)
      requires l < |objects|
      modifies this`objects, this`leases, this`orphans
      ensures State() == ExecutorWarmup.Retain(old(State()), key, l)
    {
      if objects[l].retained { return; }
      objects := objects[l := objects[l].(retained := true)];
      if key.Some? && key.value !in leases {
        leases := leases[key.value := l];
        return;
      }
      orphans := orphans + [l];
    }

    method Detach(key: string)
      requires key in leases && leases[key] < |objects|
      modifies this`objects, this`leases, this`tasks
      ensures State() == ExecutorWarmup.Detach(old(State()), key)
    {
      var l := leases[key];
      objects := objects[l := objects[l].(retiring := true, retained := false)];
      leases := leases - {key};
      TrackSettle(Some(key), l);
    }

    /** The least recently touched entry other than `keep`, if there is one. */
    method FindOldest(keep: string) returns (oldest: Option<string>)
      requires Proofs.WellFormed(State())
      ensures oldest.None? ==> leases.Keys <= {keep}
      ensures oldest.Some? ==> IsOldest(State(), keep, oldest.value)
    {
      oldest := None;
      var left := leases.Keys;
      while left != {}
        invariant left <= leases.Keys
        invariant oldest.None? ==> leases.Keys - left <= {keep}
        invariant oldest.Some? ==> oldest.value in leases && oldest.value != keep
        invariant oldest.Some? ==> forall k | k in leases && k !in left && k != keep ::
            TouchedAt(State(), oldest.value) <= TouchedAt(State(), k)
        decreases left
      {
        var k :| k in left;
        ghost var seen := leases.Keys - left;
        ghost var before := oldest;
        left := left - {k};
        if k != keep && (oldest.None? || objects[leases[k]].touchedAt < objects[leases[oldest.value]].touchedAt) {
          oldest := Some(k);
        }
        forall j | oldest.Some? && j in leases && j !in left && j != keep
          ensures TouchedAt(State(), oldest.value) <= TouchedAt(State(), j)
        {
          if j != k {
            assert j in seen;
            assert TouchedAt(State(), before.value) <= TouchedAt(State(), j);
          }
        }
      }
    }

    method EvictOverflow(keep: string) returns (victims: seq<string>)
      requires Proofs.WellFormed(State())
      modifies this`objects, this`leases, this`tasks
      ensures Proofs.WellFormed(State()) && State() == EvictAll(old(State()), victims)
      ensures old(Valid()) ==> Valid()
      ensures LegalVictims(old(State()), keep, cfg.maxLeases, victims)
    {
      victims := [];
      ghost var start := State();
      while |leases| > cfg.maxLeases
        invariant Proofs.WellFormed(State()) && LegalPrefix(start, keep, cfg.maxLeases, victims) && State() == EvictAll(start, victims)
        decreases |leases|
      {
        var oldest := FindOldest(keep);
        if oldest.None? { break; }
        PrefixSnoc(start, keep, cfg.maxLeases, victims, oldest.value);
        Proofs.DetachWellFormed(State(), oldest.value);
        Detach(oldest.value);
        victims := victims + [oldest.value];
      }
      if Proofs.Inv(start) { Proofs.EvictAllKeeps(start, victims); }
      PrefixStops(start, keep, cfg.maxLeases, victims);
    }

    /** `warm` up to its first await; nothing is done for an empty key or during a cooldown. */
    method Warm(apiKey: string, key: string, now: int) returns (step: Option<Step>)
      requires Valid()
      modifies this
      ensures Valid()
      ensures step.None? <==> apiKey == "" || now < CooldownUntil(old(cooldowns), key)
      ensures step.None? ==> State() == old(State())
      ensures step.Some? ==>
        && step.value in {WarmTouch(key, now), WarmRetire(key, now), WarmFresh(key, now, if step.value.WarmFresh? then step.value.victims else [])}
        && Enabled(cfg, old(State()), step.value) && State() == Apply(cfg, old(State()), step.value)
    {
      if apiKey == "" || now < CooldownUntil(cooldowns, key) { return None; }
      if key in leases {
        var l := leases[key];
        var retiring := objects[l].retiring;
        objects := objects[l := objects[l].(touchedAt := now)];
        if retiring {
          waits := waits + [Wait(key, l, |tasks|, false)];
          TrackSettle(Some(key), l);
          step := Some(WarmRetire(key, now));
        } else {
          step := Some(WarmTouch(key, now));
        }
        Proofs.StepKeeps(cfg, old(State()), step.value);
      } else {
        var victims := Register(key, now);
        step := Some(WarmFresh(key, now, victims));
      }
    }

    /** The second half of `warm`: register the lease, then evict. */
    method Register(key: string, now: int) returns (victims: seq<string>)
      requires Valid()
      modifies this`objects, this`leases, this`tasks
      ensures Proofs.WellFormed(State()) && State() == Create(old(State()), key, now, victims)
      ensures old(key in leases ==> Proofs.Expendable(State(), leases[key])) ==> Valid()
      ensures LegalVictims(Create(old(State()), key, now, []), key, cfg.maxLeases, victims)
    {
      if key in leases ==> Proofs.Expendable(State(), leases[key]) { Proofs.CreateKeeps(State(), key, now, []); }
      objects := objects + [Lease(key, Running, now, false, false, None)];
      leases := leases[key := |objects| - 1];
      assert State() == Create(old(State()), key, now, []);
      victims := EvictOverflow(key);
    }

    /** `warm` resumes because the settle of the retiring lease it found has succeeded; it may overwrite a live lease. */
    method ResumeWarm(w: nat, now: int) returns (victims: seq<string>)
      requires Valid() && w < |waits| && !waits[w].resumed
      requires tasks[waits[w].task].phase == Settled(true)
      modifies this
      ensures Enabled(cfg, old(State()), WarmResume(w, now, victims))
      ensures State() == Apply(cfg, old(State()), WarmResume(w, now, victims))
      ensures old(Proofs.NoOverwrite(State(), WarmResume(w, now, []))) ==> Valid()
    {
      var wait := waits[w];
      if wait.key in leases && leases[wait.key] == wait.existing {
        leases := leases - {wait.key};
      }
      waits := waits[w := wait.(resumed := true)];
      Proofs.ResumeFrees(old(State()), w);
      victims := Register(wait.key, now);
    }

    /** `recycle` up to its await. */
    method Recycle(apiKey: string, key: string, now: int)
      requires Valid()
      modifies this
      ensures Valid()
      ensures apiKey == "" ==> State() == old(State())
      ensures apiKey != "" ==>
        Enabled(cfg, old(State()), ExecutorWarmup.Recycle(key, now))
        && State() == Apply(cfg, old(State()), ExecutorWarmup.Recycle(key, now))
    {
      if apiKey == "" { return; }
      Proofs.RecycleKeeps(cfg, State(), key, now);
      Cool(key, now);
      ghost var cooled := State();
      if key in leases { Detach(key); }
      RecycleIs(cfg, old(State()), key, now, cooled);
    }

    method Cool(key: string, now: int)
      modifies this`cooldowns
      ensures State() == Cooled(cfg, old(State()), key, now)
    {
      cooldowns := SetCooldown(cooldowns, key, now + cfg.cooldownMs);
      TrimCooldowns(now);
    }

    method TrimCooldowns(now: int)
      modifies this`cooldowns
      ensures cooldowns == Trim(old(cooldowns), now, cfg.maxLeases)
    {
      var live := DropExpired(cooldowns, now);
      cooldowns := DropFirst(live, cfg.maxLeases * 4);
    }

    static method DropExpired(all: seq<Cooldown>, now: int) returns (live: seq<Cooldown>)
      ensures live == Unexpired(all, now)
    {
      live := [];
      var i := 0;
      while i < |all|
        invariant 0 <= i <= |all| && live + Unexpired(all[i..], now) == Unexpired(all, now)
      {
        UnexpiredHead(all, i, now);
        if all[i].until > now { live := live + [all[i]]; }
        i := i + 1;
      }
      assert all[i..] == [];
    }

    static method DropFirst(live: seq<Cooldown>, max: nat) returns (kept: seq<Cooldown>)
      ensures kept == LastN(live, max)
    {
      kept := live;
      while |kept| > max
        invariant |kept| <= |live| && kept == live[|live| - |kept|..] && (|kept| >= max || kept == live)
      {
        kept := kept[1..];
      }
    }

    method TableKeys() returns (order: seq<string>)
      ensures Enumerates(order, leases.Keys)
    {
      order := [];
      var left := leases.Keys;
      while left != {}
        invariant left <= leases.Keys && (forall k :: k in order <==> k in leases && k !in left)
        invariant forall i, j | 0 <= i < j < |order| :: order[i] != order[j]
        decreases left
      {
        var k :| k in left;
        order, left := order + [k], left - {k};
      }
    }

    method CollectEntries(entries: seq<(Option<string>, nat)>)
      requires forall e | e in entries :: e.1 < |objects|
      modifies this`objects, this`tasks
      ensures State() == CollectAll(old(State()), entries)
    {
      var i := 0;
      while i < |entries|
        invariant 0 <= i <= |entries|
        invariant forall e | e in entries :: e.1 < |objects|
        invariant CollectAll(State(), entries[i..]) == CollectAll(old(State()), entries)
      {
        var l := entries[i].1;
        assert entries[i..][0] == entries[i] && entries[i..][1..] == entries[i + 1..];
        objects := objects[l := objects[l].(retiring := true, retained := false)];
        TrackSettle(entries[i].0, l);
        i := i + 1;
      }
      assert entries[i..] == [];
    }

    /** `releaseAll` up to its await: take everything out of both tables and settle it. */
    method ReleaseAll() returns (order: seq<string>)
      requires Valid()
      modifies this
      ensures Enabled(cfg, old(State()), ExecutorWarmup.ReleaseAll(order))
      ensures Valid() && State() == Apply(cfg, old(State()), ExecutorWarmup.ReleaseAll(order))
    {
      order := TableKeys();
      Proofs.EmptiedIsCollecting(State(), order);
      Proofs.StepKeeps(cfg, State(), ExecutorWarmup.ReleaseAll(order));
      var entries := Entries(Pool(objects, leases, orphans, tasks, calls, waits, sweeps, cooldowns), order);
      leases, orphans := map[], [];
      CollectEntries(entries);
      sweeps := sweeps + [Sweep(set e | e in entries :: e.1, set t: nat | t < |tasks| && !tasks[t].phase.Settled?)];
    }

    /** The prewarm landed; a lease nobody keeps any more is settled at once. */
    method PrewarmLands(l: nat, handle: bool)
      requires Valid() && l < |objects| && objects[l].prewarm.Running?
      modifies this`objects, this`tasks
      ensures Valid() && State() == Apply(cfg, old(State()), ExecutorWarmup.PrewarmLands(l, handle))
    {
      Proofs.StepKeeps(cfg, State(), ExecutorWarmup.PrewarmLands(l, handle));
      var key := objects[l].key;
      objects := objects[l := objects[l].(prewarm := Landed(handle))];
      if key !in leases || leases[key] != l { TrackSettle(Some(key), l); }
    }

    /** `settle` resumes after its prewarm and runs `releaseSettled` up to its await. */
    method ReleaseSettled(t: nat, throws: bool)
      requires Valid() && t < |tasks| && tasks[t].phase.AwaitPrewarm? && !objects[tasks[t].lease].prewarm.Running?
      modifies this
      ensures Valid() && State() == Apply(cfg, old(State()), TaskResumes(t, throws))
    {
      Proofs.StepKeeps(cfg, State(), TaskResumes(t, throws));
      var l := tasks[t].lease;
      if objects[l].prewarm != Landed(true) {
        tasks := tasks[t := tasks[t].(phase := Settled(true))];
        return;
      }
      if objects[l].releasing.None? {
        if throws {
          tasks := tasks[t := tasks[t].(phase := Settled(false))];
          Retain(tasks[t].key, l);
          return;
        }
        objects := objects[l := objects[l].(releasing := Some(|calls|))];
        calls := calls + [Call(l, InFlight)];
      }
      tasks := tasks[t := tasks[t].(phase := AwaitRelease(objects[l].releasing.value))];
    }

    /** The deadline of a settle task passes. */
    method TimeOut(t: nat)
      requires Valid() && t < |tasks| && !tasks[t].phase.Settled?
      modifies this
      ensures Valid() && State() == Apply(cfg, old(State()), TaskTimesOut(t))
    {
      Proofs.StepKeeps(cfg, State(), TaskTimesOut(t));
      tasks := tasks[t := tasks[t].(phase := Settled(false))];
      Retain(tasks[t].key, tasks[t].lease);
    }

    /** A rejected release call reaches all its waiters. */
    method DeliverRejection(c: nat)
      requires Valid() && c < |calls| && calls[c].status.Rejected?
      modifies this
      ensures Valid() && State() == Apply(cfg, old(State()), ExecutorWarmup.DeliverRejection(c))
    {
      Proofs.StepKeeps(cfg, State(), ExecutorWarmup.DeliverRejection(c));
      ghost var before := State();
      var t := 0;
      while t < |tasks|
        invariant TasksInRange(State()) && Deliver(State(), c, t) == Deliver(before, c, 0)
        decreases |tasks| - t
      {
        if tasks[t].phase == AwaitRelease(c) {
          var l := tasks[t].lease;
          tasks := tasks[t := tasks[t].(phase := Settled(false))];
          objects := objects[l := objects[l].(releasing := None)];
          Retain(tasks[t].key, l);
        }
        t := t + 1;
      }
    }

    /** The report of a finished `releaseAll`. */
    method Report(w: nat) returns (ok: bool)
      requires Valid() && w < |sweeps|
      ensures ok <==> forall t | t in sweeps[w].tasks && t < |tasks| :: tasks[t].phase == Settled(true)
      ensures ok ==> forall l | l in sweeps[w].collected :: l < |objects| && Proofs.Done(State(), l)
    {
      ok := forall t | t in sweeps[w].tasks && t < |tasks| :: tasks[t].phase == Settled(true);
    }
  }

  /** `victims` are evicted one after another, each while the table is still too big. */
  ghost predicate LegalPrefix(s: Pool, keep: string, max: nat, victims: seq<string>)
    decreases |victims|
  {
    victims == [] ||
    (|s.leases| > max && IsOldest(s, keep, victims[0]) && LegalPrefix(Detach(s, victims[0]), keep, max, victims[1..]))
  }

  lemma {:induction false} PrefixSnoc(s: Pool, keep: string, max: nat, victims: seq<string>, last: string)
    requires LegalPrefix(s, keep, max, victims)
    requires |EvictAll(s, victims).leases| > max && IsOldest(EvictAll(s, victims), keep, last)
    ensures LegalPrefix(s, keep, max, victims + [last])
    ensures EvictAll(s, victims + [last]) == Detach(EvictAll(s, victims), last)
    decreases |victims|
  {
    if victims != [] {
      assert (victims + [last])[1..] == victims[1..] + [last];
      PrefixSnoc(Detach(s, victims[0]), keep, max, victims[1..], last);
    } else {
      assert EvictAll(Detach(s, last), []) == Detach(s, last);
      assert ([last])[1..] == [];
    }
  }

  lemma {:induction false} PrefixStops(s: Pool, keep: string, max: nat, victims: seq<string>)
    requires LegalPrefix(s, keep, max, victims)
    requires |EvictAll(s, victims).leases| <= max || EvictAll(s, victims).leases.Keys <= {keep}
    ensures LegalVictims(s, keep, max, victims)
    decreases |victims|
  {
    if victims != [] {
      PrefixStops(Detach(s, victims[0]), keep, max, victims[1..]);
    }
  }

  lemma UnexpiredHead(all: seq<Cooldown>, i: nat, now: int)
    requires i < |all|
    ensures Unexpired(all[i..], now) == (if all[i].until <= now then [] else [all[i]]) + Unexpired(all[i + 1..], now)
  {
    assert all[i..][1..] == all[i + 1..];
  }
}
