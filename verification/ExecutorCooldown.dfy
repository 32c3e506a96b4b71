/** How long a recycled executor stays cold: the promise of the cooldown over every run, and where it ends early. */
module ExecutorCooldown {
  import opened Prelude
  import opened ExecutorWarmup
  import opened ExecutorWarmupProofs
  import opened CooldownTable

  // ---- every step keeps references in range -------------------------------------------------------------

  lemma TrackInRange(s: Pool, key: Option<string>, l: nat)
    requires InRange(s) && l < |s.objects|
    ensures InRange(TrackSettle(s, key, l)) && |TrackSettle(s, key, l).objects| == |s.objects|
  {
  }

  lemma DetachInRange(s: Pool, key: string)
    requires InRange(s) && key in s.leases
    ensures InRange(Detach(s, key)) && |Detach(s, key).objects| == |s.objects|
  {
  }

  lemma RetainInRange(s: Pool, key: Option<string>, l: nat)
    requires InRange(s) && l < |s.objects|
    ensures InRange(Retain(s, key, l)) && |Retain(s, key, l).objects| == |s.objects|
  {
  }

  lemma {:induction false} EvictInRange(s: Pool, victims: seq<string>)
    requires InRange(s)
    ensures InRange(EvictAll(s, victims)) && EvictAll(s, victims).cooldowns == s.cooldowns
    decreases |victims|
  {
    if victims != [] && victims[0] in s.leases {
      DetachInRange(s, victims[0]);
      EvictInRange(Detach(s, victims[0]), victims[1..]);
    }
  }

  lemma CreateInRange(s: Pool, key: string, now: int, victims: seq<string>)
    requires InRange(s)
    ensures InRange(Create(s, key, now, victims)) && Create(s, key, now, victims).cooldowns == s.cooldowns
  {
    var lease := Lease(key, Running, now, false, false, None);
    EvictInRange(s.(objects := s.objects + [lease], leases := s.leases[key := |s.objects|]), victims);
  }

  lemma {:induction false} CollectInRange(s: Pool, entries: seq<(Option<string>, nat)>)
    requires InRange(s) && forall e | e in entries :: e.1 < |s.objects|
    ensures InRange(CollectAll(s, entries)) && CollectAll(s, entries).cooldowns == s.cooldowns
    decreases |entries|
  {
    if entries != [] {
      var l := entries[0].1;
      TrackInRange(SetLease(s, l, s.objects[l].(retiring := true, retained := false)), entries[0].0, l);
      CollectInRange(Collect(s, entries[0].0, l), entries[1..]);
    }
  }

  lemma {:induction false} DeliverInRange(s: Pool, c: nat, t: nat)
    requires InRange(s)
    ensures InRange(Deliver(s, c, t)) && Deliver(s, c, t).cooldowns == s.cooldowns
    decreases |s.tasks| - t
  {
    if t < |s.tasks| {
      if s.tasks[t].phase == AwaitRelease(c) {
        var l := s.tasks[t].lease;
        var cleared := SetLease(SetPhase(s, t, Settled(false)), l, s.objects[l].(releasing := None));
        RetainInRange(cleared, s.tasks[t].key, l);
        DeliverInRange(Retain(cleared, s.tasks[t].key, l), c, t + 1);
      } else {
        DeliverInRange(s, c, t + 1);
      }
    }
  }

  lemma StartReleaseInRange(s: Pool, t: nat, throws: bool)
    requires InRange(s) && t < |s.tasks|
    ensures InRange(StartRelease(s, t, throws)) && StartRelease(s, t, throws).cooldowns == s.cooldowns
  {
    RetainInRange(SetPhase(s, t, Settled(false)), s.tasks[t].key, s.tasks[t].lease);
  }

  lemma WarmInRange(cfg: Config, s: Pool, step: Step)
    requires InRange(s) && Enabled(cfg, s, step)
    requires step.WarmFresh? || step.WarmTouch? || step.WarmRetire? || step.WarmResume? || step.WarmCatch?
    ensures InRange(Apply(cfg, s, step)) && Apply(cfg, s, step).cooldowns == s.cooldowns
  {
    match step
    case WarmFresh(key, now, victims) => CreateInRange(s, key, now, victims);
    case WarmResume(w, now, victims) => CreateInRange(Freed(s, w), s.waits[w].key, now, victims);
    case _ =>
  }

  lemma SettlingInRange(cfg: Config, s: Pool, step: Step)
    requires InRange(s) && Enabled(cfg, s, step)
    requires !step.WarmFresh? && !step.WarmTouch? && !step.WarmRetire? && !step.WarmResume? && !step.WarmCatch?
    requires !step.Recycle?
    ensures InRange(Apply(cfg, s, step)) && Apply(cfg, s, step).cooldowns == s.cooldowns
  {
    match step
    case ReleaseAll(order) => CollectInRange(s.(leases := map[], orphans := []), Entries(s, order));
    case TaskResumes(t, throws) => StartReleaseInRange(s, t, throws);
    case TaskTimesOut(t) => RetainInRange(SetPhase(s, t, Settled(false)), s.tasks[t].key, s.tasks[t].lease);
    case DeliverRejection(c) => DeliverInRange(s, c, 0);
    case _ =>
  }

  /** Only a recycle touches the cooldowns. */
  lemma StepInRange(cfg: Config, s: Pool, step: Step)
    requires InRange(s) && Enabled(cfg, s, step)
    ensures InRange(Apply(cfg, s, step))
    ensures !step.Recycle? ==> Apply(cfg, s, step).cooldowns == s.cooldowns
  {
    match step
    case Recycle(key, now) =>
      var cooled := s.(cooldowns := Trim(SetCooldown(s.cooldowns, key, now + cfg.cooldownMs), now, cfg.maxLeases));
      if key in s.leases { DetachInRange(cooled, key); }
    case WarmFresh(_, _, _) => WarmInRange(cfg, s, step);
    case WarmTouch(_, _) => WarmInRange(cfg, s, step);
    case WarmRetire(_, _) => WarmInRange(cfg, s, step);
    case WarmResume(_, _, _) => WarmInRange(cfg, s, step);
    case WarmCatch(_) => WarmInRange(cfg, s, step);
    case _ => SettlingInRange(cfg, s, step);
  }

  lemma StepKeepsTable(cfg: Config, s: Pool, step: Step)
    requires InRange(s) && Table(s.cooldowns, cfg.maxLeases) && Enabled(cfg, s, step)
    ensures InRange(Apply(cfg, s, step)) && Table(Apply(cfg, s, step).cooldowns, cfg.maxLeases)
  {
    StepInRange(cfg, s, step);
    if step.Recycle? {
      TrimmedFrom(s.cooldowns, step.key, step.now, step.now + cfg.cooldownMs, cfg.maxLeases);
      RecycledTable(cfg, s, step.key, step.now);
    }
  }

  lemma RecycledTable(cfg: Config, s: Pool, key: string, now: int)
    requires Enabled(cfg, s, Step.Recycle(key, now))
    ensures Apply(cfg, s, Step.Recycle(key, now)).cooldowns
      == Trim(SetCooldown(s.cooldowns, key, now + cfg.cooldownMs), now, cfg.maxLeases)
  {
  }

  lemma {:induction false} RunKeepsTable(cfg: Config, s: Pool, steps: seq<Step>, r: Pool)
    requires InRange(s) && Table(s.cooldowns, cfg.maxLeases) && Leads(cfg, s, steps, r)
    ensures InRange(r) && Table(r.cooldowns, cfg.maxLeases)
    decreases |steps|
  {
    if steps != [] {
      StepKeepsTable(cfg, s, steps[0]);
      RunKeepsTable(cfg, Apply(cfg, s, steps[0]), steps[1..], r);
    }
  }

  // ---- which warm steps are possible --------------------------------------------------------------------

  lemma {:induction false} OldestIn(s: Pool, keep: string, keys: set<string>) returns (oldest: string)
    requires InRange(s) && keys <= s.leases.Keys && keep !in keys && keys != {}
    ensures oldest in keys && forall k | k in keys :: TouchedAt(s, oldest) <= TouchedAt(s, k)
    decreases |keys|
  {
    var k :| k in keys;
    oldest := k;
    if keys != {k} {
      var rest := keys - {k};
      assert keys == rest + {k};
      var other := OldestIn(s, keep, rest);
      if TouchedAt(s, other) < TouchedAt(s, k) { oldest := other; }
    }
  }

  /** Eviction always finds its victims. */
  lemma {:induction false} VictimsExist(s: Pool, keep: string, max: nat) returns (victims: seq<string>)
    requires InRange(s)
    ensures LegalVictims(s, keep, max, victims)
    decreases |s.leases|
  {
    if |s.leases| <= max || s.leases.Keys <= {keep} {
      victims := [];
    } else {
      var oldest := OldestIn(s, keep, s.leases.Keys - {keep});
      DetachInRange(s, oldest);
      assert Detach(s, oldest).leases.Keys == s.leases.Keys - {oldest};
      assert |Detach(s, oldest).leases.Keys| < |s.leases.Keys|;
      var rest := VictimsExist(Detach(s, oldest), keep, max);
      victims := [oldest] + rest;
      assert victims[1..] == rest;
    }
  }

  lemma FreshIsPossible(cfg: Config, s: Pool, key: string, now: int)
    requires InRange(s) && key !in s.leases && now >= CooldownUntil(s.cooldowns, key)
    ensures CanWarm(cfg, s, key, now)
  {
    CreateInRange(s, key, now, []);
    var victims := VictimsExist(Create(s, key, now, []), key, cfg.maxLeases);
    assert Warms(s, WarmFresh(key, now, victims), key, now) && Enabled(cfg, s, WarmFresh(key, now, victims));
  }

  lemma ResumeIsPossible(cfg: Config, s: Pool, key: string, w: nat, now: int)
    requires InRange(s) && w < |s.waits| && MayResume(s, key, w)
    ensures CanWarm(cfg, s, key, now)
  {
    CreateInRange(Freed(s, w), key, now, []);
    var victims := VictimsExist(Create(Freed(s, w), key, now, []), key, cfg.maxLeases);
    assert Warms(s, WarmResume(w, now, victims), key, now) && Enabled(cfg, s, WarmResume(w, now, victims));
  }

  lemma ListedIsPossible(cfg: Config, s: Pool, key: string, now: int)
    requires InRange(s) && key in s.leases && now >= CooldownUntil(s.cooldowns, key)
    ensures CanWarm(cfg, s, key, now)
  {
    var step := if s.objects[s.leases[key]].retiring then WarmRetire(key, now) else WarmTouch(key, now);
    assert Warms(s, step, key, now) && Enabled(cfg, s, step);
  }

  lemma WarmShows(cfg: Config, s: Pool, step: Step, key: string, now: int)
    requires Warms(s, step, key, now) && Enabled(cfg, s, step)
    ensures now >= CooldownUntil(s.cooldowns, key) || Resumable(s, key)
  {
    if step.WarmResume? { assert MayResume(s, key, step.wait); }
  }

  /** `warm` does something for a key exactly if its cooldown has passed or a suspended call may resume. */
  lemma CanWarmExactlyWhen(cfg: Config, s: Pool, key: string, now: int)
    requires InRange(s)
    ensures CanWarm(cfg, s, key, now) <==> now >= CooldownUntil(s.cooldowns, key) || Resumable(s, key)
  {
    if now >= CooldownUntil(s.cooldowns, key) {
      if key in s.leases { ListedIsPossible(cfg, s, key, now); } else { FreshIsPossible(cfg, s, key, now); }
    } else if Resumable(s, key) {
      var w: nat :| w < |s.waits| && MayResume(s, key, w);
      ResumeIsPossible(cfg, s, key, w, now);
    }
    forall step | Warms(s, step, key, now) && Enabled(cfg, s, step)
      ensures now >= CooldownUntil(s.cooldowns, key) || Resumable(s, key)
    {
      WarmShows(cfg, s, step, key, now);
    }
  }

  // ---- the promise over runs ----------------------------------------------------------------------------

  lemma StepKeepsCold(cfg: Config, s: Pool, step: Step, key: string, until: int)
    requires InRange(s) && Table(s.cooldowns, cfg.maxLeases) && Enabled(cfg, s, step)
    requires ColdIfListed(s.cooldowns, key, until)
    requires step.Recycle? ==> step.now + cfg.cooldownMs >= until
    ensures ColdIfListed(Apply(cfg, s, step).cooldowns, key, until)
  {
    StepInRange(cfg, s, step);
    if step.Recycle? {
      TrimmedFrom(s.cooldowns, step.key, step.now, step.now + cfg.cooldownMs, cfg.maxLeases);
      RecycledTable(cfg, s, step.key, step.now);
    }
  }

  lemma {:induction false} RunKeepsCold(
    cfg: Config, s: Pool, start: int, steps: seq<Step>, r: Pool, end: int, key: string, until: int)
    requires InRange(s) && Table(s.cooldowns, cfg.maxLeases) && Follows(cfg, s, start, steps, r, end)
    requires ColdIfListed(s.cooldowns, key, until) && start + cfg.cooldownMs >= until
    ensures InRange(r) && Table(r.cooldowns, cfg.maxLeases) && ColdIfListed(r.cooldowns, key, until)
    decreases |steps|
  {
    if steps != [] {
      var now := TimeOf(steps[0]).GetOr(start);
      StepKeepsCold(cfg, s, steps[0], key, until);
      StepKeepsTable(cfg, s, steps[0]);
      RunKeepsCold(cfg, Apply(cfg, s, steps[0]), now, steps[1..], r, end, key, until);
    }
  }

  lemma PassedExactlyWhen(cs: seq<Cooldown>, key: string, until: int, now: int)
    requires DistinctKeys(cs) && ColdIfListed(cs, key, until) && 0 <= now < until
    ensures now >= CooldownUntil(cs, key) <==> !Listed(cs, key)
  {
    if Listed(cs, key) {
      var c :| c in cs && c.key == key;
      UntilOfListed(cs, c);
    } else {
      UntilOfUnlisted(cs, key);
    }
  }

  lemma RecycledIsCold(cfg: Config, s: Pool, key: string, now: int)
    requires InRange(s) && Table(s.cooldowns, cfg.maxLeases) && Enabled(cfg, s, Step.Recycle(key, now))
    ensures ColdIfListed(Apply(cfg, s, Step.Recycle(key, now)).cooldowns, key, now + cfg.cooldownMs)
  {
    TrimmedFrom(s.cooldowns, key, now, now + cfg.cooldownMs, cfg.maxLeases);
    RecycledTable(cfg, s, key, now);
  }

  /**
   After any run from the empty pool that ends with a recycle, and any run after that, until the cooldown has
   passed: no step of `warm` for the key is possible exactly if its entry is still in the table and no `warm`
   suspended on a retiring lease of the key may resume.
   */
  lemma RecycledStaysColdExactlyWhen(
    cfg: Config, before: seq<Step>, s: Pool, key: string, recycled: int, after: seq<Step>, r: Pool, end: int, now: int)
    requires Leads(cfg, Empty, before, s) && Enabled(cfg, s, Step.Recycle(key, recycled))
    requires Follows(cfg, Apply(cfg, s, Step.Recycle(key, recycled)), recycled, after, r, end)
    requires 0 <= recycled && end <= now < recycled + cfg.cooldownMs
    ensures !CanWarm(cfg, r, key, now) <==> Listed(r.cooldowns, key) && !Resumable(r, key)
  {
    RunKeepsTable(cfg, Empty, before, s);
    StepKeepsTable(cfg, s, Step.Recycle(key, recycled));
    RecycledIsCold(cfg, s, key, recycled);
    var first := Apply(cfg, s, Step.Recycle(key, recycled));
    RunKeepsCold(cfg, first, recycled, after, r, end, key, recycled + cfg.cooldownMs);
    EndsLater(cfg, first, recycled, after, r, end);
    PassedExactlyWhen(r.cooldowns, key, recycled + cfg.cooldownMs, now);
    CanWarmExactlyWhen(cfg, r, key, now);
  }

  lemma {:induction false} EndsLater(cfg: Config, s: Pool, start: int, steps: seq<Step>, r: Pool, end: int)
    requires Follows(cfg, s, start, steps, r, end)
    ensures start <= end
    decreases |steps|
  {
    if steps != [] { EndsLater(cfg, Apply(cfg, s, steps[0]), TimeOf(steps[0]).GetOr(start), steps[1..], r, end); }
  }

  lemma OwnEntryStaysExactlyWhen(cs: seq<Cooldown>, key: string, now: int, until: int, max: nat)
    requires Table(cs, max) && Listed(cs, key)
    ensures Listed(Trim(SetCooldown(cs, key, until), now, max), key) <==> now < until
  {
    SetIsUpdate(cs, key, until);
    UnexpiredIsFilter(SetCooldown(cs, key, until), now);
    if now < until { assert Cooldown(key, until) in Unexpired(SetCooldown(cs, key, until), now); }
  }

  lemma TableTakesOut(cfg: Config, s: Pool, key: string, other: string, now: int)
    requires Table(s.cooldowns, cfg.maxLeases) && Listed(s.cooldowns, key) && now < CooldownUntil(s.cooldowns, key)
    ensures !Listed(Trim(SetCooldown(s.cooldowns, other, now + cfg.cooldownMs), now, cfg.maxLeases), key)
      <==> TakesOut(cfg, s, key, Step.Recycle(other, now))
  {
    if other == key {
      OwnEntryStaysExactlyWhen(s.cooldowns, key, now, now + cfg.cooldownMs, cfg.maxLeases);
    } else {
      DropsExactlyWhen(s.cooldowns, key, other, now, now + cfg.cooldownMs, cfg.maxLeases);
    }
  }

  lemma RecycleTakesOut(cfg: Config, s: Pool, key: string, other: string, now: int)
    requires Enabled(cfg, s, Step.Recycle(other, now)) && Table(s.cooldowns, cfg.maxLeases)
    requires Listed(s.cooldowns, key) && now < CooldownUntil(s.cooldowns, key)
    ensures !Listed(Apply(cfg, s, Step.Recycle(other, now)).cooldowns, key)
      <==> TakesOut(cfg, s, key, Step.Recycle(other, now))
  {
    RecycledTable(cfg, s, other, now);
    TableTakesOut(cfg, s, key, other, now);
  }

  /**
   The entry of a live cooldown leaves the table with a step exactly if that step recycles another key that is
   not in the table, as many live entries are as the table holds, and this one has been in it longest (or if
   the key itself is recycled with a cooldown of zero).
   */
  lemma EntryLeavesExactlyWhen(cfg: Config, before: seq<Step>, s: Pool, key: string, step: Step)
    requires Leads(cfg, Empty, before, s) && Enabled(cfg, s, step) && Listed(s.cooldowns, key)
    requires step.Recycle? ==> step.now < CooldownUntil(s.cooldowns, key)
    ensures !Listed(Apply(cfg, s, step).cooldowns, key) <==> TakesOut(cfg, s, key, step)
  {
    RunKeepsTable(cfg, Empty, before, s);
    if step.Recycle? {
      RecycleTakesOut(cfg, s, key, step.key, step.now);
    } else {
      StepInRange(cfg, s, step);
    }
  }

  lemma ListedByUntil(cs: seq<Cooldown>, key: string)
    requires CooldownUntil(cs, key) != 0
    ensures Listed(cs, key)
  {
    if !Listed(cs, key) { UntilOfUnlisted(cs, key); }
  }

  /** The recycle itself puts the key into the table. */
  lemma RecycleLists(cfg: Config, before: seq<Step>, s: Pool, key: string, now: int)
    requires Leads(cfg, Empty, before, s) && Enabled(cfg, s, Step.Recycle(key, now))
    requires cfg.maxLeases >= 1 && cfg.cooldownMs > 0 && 0 <= now
    ensures Listed(Apply(cfg, s, Step.Recycle(key, now)).cooldowns, key)
  {
    RunKeepsTable(cfg, Empty, before, s);
    RecycledTable(cfg, s, key, now);
    TrimSparesRecycled(s.cooldowns, key, now, now + cfg.cooldownMs, cfg.maxLeases);
    ListedByUntil(Apply(cfg, s, Step.Recycle(key, now)).cooldowns, key);
  }
}
