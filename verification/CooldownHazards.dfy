/** Runs in which a recycled key is warmed before its cooldown has passed. */
module CooldownHazards {
  import opened Prelude
  import opened ExecutorWarmup
  import opened ExecutorWarmupProofs
  import opened ExecutorHazard
  import opened CooldownTable
  import opened ExecutorCooldown

  lemma {:induction false} LeadsSnoc(cfg: Config, s: Pool, steps: seq<Step>, p: Pool, step: Step)
    requires Leads(cfg, s, steps, p) && Enabled(cfg, p, step)
    ensures Leads(cfg, s, steps + [step], Apply(cfg, p, step))
    decreases |steps|
  {
    if steps == [] {
      LeadsOn(cfg, s, step, [], Apply(cfg, p, step));
      assert [] + [step] == [step] + [];
    } else {
      LeadsSnoc(cfg, Apply(cfg, s, steps[0]), steps[1..], p, step);
      LeadsOn(cfg, s, steps[0], steps[1..] + [step], Apply(cfg, p, step));
      assert steps + [step] == [steps[0]] + (steps[1..] + [step]);
    }
  }

  lemma LeadsTo(cfg: Config, steps: seq<Step>, step: Step, p: Pool, all: seq<Step>, r: Pool)
    requires Leads(cfg, Empty, steps, p) && Enabled(cfg, p, step)
    requires all == steps + [step] && r == Apply(cfg, p, step)
    ensures Leads(cfg, Empty, all, r)
  {
    LeadsSnoc(cfg, Empty, steps, p, step);
  }

  lemma LastStep(cfg: Config, steps: seq<Step>, s: Pool, init: seq<Step>, step: Step) returns (p: Pool)
    requires Reaches(cfg, steps, s) && steps != [] && init == steps[..|steps| - 1] && step == steps[|steps| - 1]
    ensures Reaches(cfg, init, p) && Enabled(cfg, p, step) && s == Apply(cfg, p, step)
  {
    p :| Reaches(cfg, init, p) && Enabled(cfg, p, step) && NoOverwrite(p, step) && s == Apply(cfg, p, step);
  }

  lemma SplitLast(steps: seq<Step>) returns (init: seq<Step>, step: Step)
    requires steps != []
    ensures init == steps[..|steps| - 1] && step == steps[|steps| - 1] && steps == init + [step]
  {
    init, step := steps[..|steps| - 1], steps[|steps| - 1];
  }

  lemma {:induction false} ReachesLeads(cfg: Config, steps: seq<Step>, s: Pool)
    requires Reaches(cfg, steps, s)
    ensures Leads(cfg, Empty, steps, s)
    decreases |steps|
  {
    if steps != [] {
      var init, step := SplitLast(steps);
      var p := LastStep(cfg, steps, s, init, step);
      ReachesLeads(cfg, init, p);
      LeadsTo(cfg, init, step, p, steps, s);
    }
  }

  // ---- a suspended warm does not look at the cooldown again ---------------------------------------------

  /** The key is recycled while both calls may resume. */
  function RecycledAgain(cfg: Config, k: string, recycled: int): Pool {
    var s := BothTold(cfg, k);
    s.(objects := [First(k, Landed(true), cfg.cooldownMs, true, false, Some(0))], leases := map[],
       tasks := s.tasks + [Task(Some(k), 0, AwaitPrewarm)],
       cooldowns := Trim(SetCooldown(s.cooldowns, k, recycled + cfg.cooldownMs), recycled, cfg.maxLeases))
  }

  lemma IsRecycledAgain(cfg: Config, k: string, recycled: int)
    ensures Enabled(cfg, BothTold(cfg, k), Step.Recycle(k, recycled))
    ensures Apply(cfg, BothTold(cfg, k), Step.Recycle(k, recycled)) == RecycledAgain(cfg, k, recycled)
  {
    assert Remove(BothTold(cfg, k).leases, k) == map[];
  }

  lemma ResumesAnyway(cfg: Config, k: string, s: Pool, recycled: int, now: int)
    requires s == RecycledAgain(cfg, k, recycled)
    ensures Resumable(s, k) && Enabled(cfg, s, WarmResume(0, now, []))
    ensures
      var r := Apply(cfg, s, WarmResume(0, now, []));
      k in r.leases && r.leases[k] == |s.objects| && r.objects[r.leases[k]].prewarm == Running
  {
    assert MayResume(s, k, 0);
    var created := Create(Freed(s, 0), k, now, []);
    assert created.leases == map[k := |s.objects|];
    assert created.leases.Keys <= {k};
  }

  /** A `warm` waits for a retiring lease, the key is recycled, and the `warm` prewarms a new lease at any later time. */
  lemma WaitingWarmIgnoresCooldown(cfg: Config, k: string, recycled: int, now: int) returns (steps: seq<Step>, s: Pool)
    ensures Leads(cfg, Empty, steps, s) && Enabled(cfg, s, Step.Recycle(k, recycled))
    ensures
      var cold := Apply(cfg, s, Step.Recycle(k, recycled));
      && Resumable(cold, k) && Enabled(cfg, cold, WarmResume(0, now, []))
      && var r := Apply(cfg, cold, WarmResume(0, now, []));
         k in r.leases && r.leases[k] == |cold.objects| && r.objects[r.leases[k]].prewarm == Running
  {
    s := BothTold(cfg, k);
    steps := RunToBothTold(cfg, k);
    ReachesLeads(cfg, steps, s);
    IsRecycledAgain(cfg, k, recycled);
    ResumesAnyway(cfg, k, RecycledAgain(cfg, k, recycled), recycled, now);
  }

  // ---- one more recycle can be enough -------------------------------------------------------------------

  /** A pool without leases. */
  function Cold(cs: seq<Cooldown>): Pool { Pool([], map[], [], [], [], [], [], cs) }

  lemma RecycleCold(cfg: Config, steps: seq<Step>, cs: seq<Cooldown>, key: string, now: int, next: seq<Cooldown>)
    returns (all: seq<Step>)
    requires Leads(cfg, Empty, steps, Cold(cs))
    requires next == Trim(SetCooldown(cs, key, now + cfg.cooldownMs), now, cfg.maxLeases)
    ensures Leads(cfg, Empty, all, Cold(next))
  {
    all := steps + [Step.Recycle(key, now)];
    LeadsTo(cfg, steps, Step.Recycle(key, now), Cold(cs), all, Cold(next));
  }

  lemma {:induction false} AllAlive(cs: seq<Cooldown>, now: int)
    requires forall c | c in cs :: c.until > now
    ensures Unexpired(cs, now) == cs
  {
    if cs != [] { AllAlive(cs[1..], now); }
  }

  /** A new key while there is room. */
  lemma AppendsCold(cfg: Config, steps: seq<Step>, cs: seq<Cooldown>, key: string, now: int, next: seq<Cooldown>)
    returns (all: seq<Step>)
    requires Leads(cfg, Empty, steps, Cold(cs)) && !Listed(cs, key) && |cs| < 4 * cfg.maxLeases
    requires cfg.cooldownMs > 0 && (forall c | c in cs :: c.until > now)
    requires next == cs + [Cooldown(key, now + cfg.cooldownMs)]
    ensures Leads(cfg, Empty, all, Cold(next))
  {
    SetSize(cs, key, now + cfg.cooldownMs);
    AllAlive(next, now);
    all := RecycleCold(cfg, steps, cs, key, now, next);
  }

  function Four(a: string, b: string, c: string, d: string, first: int, rest: int): seq<Cooldown> {
    [Cooldown(a, first), Cooldown(b, rest), Cooldown(c, rest), Cooldown(d, rest)]
  }

  predicate AllDifferent(a: string, b: string, c: string, d: string) {
    a != b && a != c && a != d && b != c && b != d && c != d
  }

  /** Any table of keys recycled at time 0 that fits. */
  lemma {:induction false} TableIsReached(cfg: Config, cs: seq<Cooldown>) returns (steps: seq<Step>)
    requires Table(cs, cfg.maxLeases) && cfg.cooldownMs > 0 && forall c | c in cs :: c.until == cfg.cooldownMs
    ensures Leads(cfg, Empty, steps, Cold(cs))
    decreases |cs|
  {
    if cs == [] {
      steps := [];
    } else {
      var init, last := cs[..|cs| - 1], cs[|cs| - 1];
      assert cs == init + [last] && last in cs;
      steps := TableIsReached(cfg, init);
      steps := AppendsCold(cfg, steps, init, last.key, 0, cs);
    }
  }

  lemma FourAreReached(cfg: Config, a: string, b: string, c: string, d: string) returns (steps: seq<Step>)
    requires cfg.maxLeases == 1 && cfg.cooldownMs > 0 && AllDifferent(a, b, c, d)
    ensures Leads(cfg, Empty, steps, Cold(Four(a, b, c, d, cfg.cooldownMs, cfg.cooldownMs)))
  {
    steps := TableIsReached(cfg, Four(a, b, c, d, cfg.cooldownMs, cfg.cooldownMs));
  }

  /** The first of four recycled keys is recycled again, and keeps its place. */
  lemma FirstAgain(cfg: Config, steps: seq<Step>, a: string, b: string, c: string, d: string, again: int)
    returns (all: seq<Step>)
    requires cfg.maxLeases == 1 && 0 <= again < cfg.cooldownMs && AllDifferent(a, b, c, d)
    requires Leads(cfg, Empty, steps, Cold(Four(a, b, c, d, cfg.cooldownMs, cfg.cooldownMs)))
    ensures Leads(cfg, Empty, all, Cold(Four(a, b, c, d, again + cfg.cooldownMs, cfg.cooldownMs)))
  {
    var cs, next := Four(a, b, c, d, cfg.cooldownMs, cfg.cooldownMs), Four(a, b, c, d, again + cfg.cooldownMs, cfg.cooldownMs);
    assert SetCooldown(cs, a, again + cfg.cooldownMs) == next;
    AllAlive(next, again);
    all := RecycleCold(cfg, steps, cs, a, again, next);
  }

  lemma OldestIsPushedOut(cs: seq<Cooldown>, e: string, now: int, until: int)
    requires |cs| == 4 && !Listed(cs, e) && now < until && forall c | c in cs :: c.until > now
    ensures PushesOut(cs, cs[0].key, e, now, until, 1)
  {
    AllAlive(cs, now);
  }

  /**
   With room for four entries: four keys are recycled, the first one again, then a fifth.  The first key can be
   warmed at once, although its cooldown was just renewed.
   */
  lemma RenewedKeyIsForgotten(
    cfg: Config, a: string, b: string, c: string, d: string, e: string, again: int, now: int) returns (steps: seq<Step>)
    requires cfg.maxLeases == 1 && 0 <= again <= now < cfg.cooldownMs
    requires AllDifferent(a, b, c, d) && e !in [a, b, c, d]
    ensures
      var s := Cold(Four(a, b, c, d, again + cfg.cooldownMs, cfg.cooldownMs));
      var r := Apply(cfg, s, Step.Recycle(e, now));
      && Leads(cfg, Empty, steps, s) && TakesOut(cfg, s, a, Step.Recycle(e, now))
      && CooldownUntil(s.cooldowns, a) == again + cfg.cooldownMs > now
      && !Listed(r.cooldowns, a) && CanWarm(cfg, r, a, now)
  {
    steps := FourAreReached(cfg, a, b, c, d);
    steps := FirstAgain(cfg, steps, a, b, c, d, again);
    var cs := Four(a, b, c, d, again + cfg.cooldownMs, cfg.cooldownMs);
    OldestIsPushedOut(cs, e, now, now + cfg.cooldownMs);
    assert cs[0] in cs;
    ForgottenIsWarm(cfg, steps, Cold(cs), a, e, now);
  }

  lemma ForgottenIsWarm(cfg: Config, steps: seq<Step>, s: Pool, key: string, other: string, now: int)
    requires Leads(cfg, Empty, steps, s) && Enabled(cfg, s, Step.Recycle(other, now)) && 0 <= now
    requires Listed(s.cooldowns, key) && now < CooldownUntil(s.cooldowns, key)
    requires TakesOut(cfg, s, key, Step.Recycle(other, now))
    ensures !Listed(Apply(cfg, s, Step.Recycle(other, now)).cooldowns, key)
    ensures CanWarm(cfg, Apply(cfg, s, Step.Recycle(other, now)), key, now)
  {
    var r := Apply(cfg, s, Step.Recycle(other, now));
    EntryLeavesExactlyWhen(cfg, steps, s, key, Step.Recycle(other, now));
    RunKeepsTable(cfg, Empty, steps, s);
    StepKeepsTable(cfg, s, Step.Recycle(other, now));
    UntilOfUnlisted(r.cooldowns, key);
    CanWarmExactlyWhen(cfg, r, key, now);
  }
}
