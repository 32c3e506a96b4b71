/** A run that gets the executor pool to the overwrite the lease protocol has to exclude. */
module ExecutorHazard {
  import opened Prelude
  import opened ExecutorWarmup
  import opened ExecutorWarmupProofs

  ghost predicate Takes(cfg: Config, s: Pool, step: Step, r: Pool) {
    Enabled(cfg, s, step) && NoOverwrite(s, step) && Apply(cfg, s, step) == r
  }

  lemma ReachesNext(cfg: Config, steps: seq<Step>, s: Pool, step: Step, r: Pool)
    requires Reaches(cfg, steps, s) && Takes(cfg, s, step, r)
    ensures Reaches(cfg, steps + [step], r)
  {
    assert (steps + [step])[..|steps|] == steps && (steps + [step])[|steps|] == step;
  }

  /** The first lease of the key, as the run changes it. */
  function First(k: string, prewarm: Prewarm, touchedAt: int, retiring: bool, retained: bool, releasing: Option<nat>): Lease {
    Lease(k, prewarm, touchedAt, retiring, retained, releasing)
  }

  function Cooled(cfg: Config, k: string): seq<Cooldown> {
    Trim(SetCooldown([], k, cfg.cooldownMs), 0, cfg.maxLeases)
  }

  lemma CooledDown(cfg: Config, k: string)
    ensures CooldownUntil(Cooled(cfg, k), k) <= cfg.cooldownMs
  {
    var one := [Cooldown(k, cfg.cooldownMs)];
    assert one[1..] == [] && SetCooldown([], k, cfg.cooldownMs) == one;
    assert Unexpired(one, 0) == [] || Unexpired(one, 0) == one;
  }

  /** A pool whose only lease is in the table under its key. */
  function OnlyLease(k: string, prewarm: Prewarm): Pool {
    Pool([First(k, prewarm, 0, false, false, None)], map[k := 0], [], [], [], [], [], [])
  }

  function Recycled(cfg: Config, k: string): Pool {
    Pool([First(k, Landed(true), 0, true, false, None)], map[], [], [Task(Some(k), 0, AwaitPrewarm)],
         [], [], [], Cooled(cfg, k))
  }

  /** The lease landed, was recycled, and came back to the table because its settle timed out. */
  function Returned(cfg: Config, k: string): Pool {
    Pool([First(k, Landed(true), 0, true, true, None)], map[k := 0], [],
         [Task(Some(k), 0, Settled(false))], [], [], [], Cooled(cfg, k))
  }

  /** One `warm` call waits for it. */
  function AwaitedOnce(cfg: Config, k: string): Pool {
    Pool([First(k, Landed(true), cfg.cooldownMs, true, true, None)], map[k := 0], [],
         [Task(Some(k), 0, Settled(false)), Task(Some(k), 0, AwaitPrewarm)],
         [], [Wait(k, 0, 1, false)], [], Cooled(cfg, k))
  }

  /** Two `warm` calls wait for it, and this is how far their settles and the release have come. */
  function Awaited(cfg: Config, k: string, one: Phase, two: Phase, releasing: Option<nat>, calls: seq<Call>): Pool {
    Pool([First(k, Landed(true), cfg.cooldownMs, true, true, releasing)], map[k := 0], [],
         [Task(Some(k), 0, Settled(false)), Task(Some(k), 0, one), Task(Some(k), 0, two)],
         calls, [Wait(k, 0, 1, false), Wait(k, 0, 2, false)], [], Cooled(cfg, k))
  }

  /** The first of the two went on, and has a new lease. */
  function Renewed(cfg: Config, k: string, prewarm: Prewarm): Pool {
    Pool([First(k, Landed(true), cfg.cooldownMs, true, true, Some(0)), First(k, prewarm, cfg.cooldownMs, false, false, None)],
         map[k := 1], [],
         [Task(Some(k), 0, Settled(false)), Task(Some(k), 0, Settled(true)), Task(Some(k), 0, Settled(true))],
         [Call(0, Fulfilled)], [Wait(k, 0, 1, true), Wait(k, 0, 2, false)], [], Cooled(cfg, k))
  }

  // ---- the steps between them ---------------------------------------------------------------------------

  lemma FirstWarm(cfg: Config, k: string)
    ensures Takes(cfg, Empty, WarmFresh(k, 0, []), OnlyLease(k, Running))
  {
    assert Create(Empty, k, 0, []) == OnlyLease(k, Running);
    assert OnlyLease(k, Running).leases.Keys <= {k};
  }

  lemma Lands(cfg: Config, k: string)
    ensures Takes(cfg, OnlyLease(k, Running), PrewarmLands(0, true), OnlyLease(k, Landed(true)))
  {
  }

  lemma IsRecycled(cfg: Config, k: string)
    ensures Takes(cfg, OnlyLease(k, Landed(true)), Step.Recycle(k, 0), Recycled(cfg, k))
  {
    assert Remove(OnlyLease(k, Landed(true)).leases, k) == map[];
  }

  lemma Returns(cfg: Config, k: string)
    ensures Takes(cfg, Recycled(cfg, k), TaskTimesOut(0), Returned(cfg, k))
  {
  }

  lemma SecondWarm(cfg: Config, k: string)
    ensures Takes(cfg, Returned(cfg, k), WarmRetire(k, cfg.cooldownMs), AwaitedOnce(cfg, k))
  {
    CooledDown(cfg, k);
  }

  lemma ThirdWarm(cfg: Config, k: string)
    ensures Takes(cfg, AwaitedOnce(cfg, k), WarmRetire(k, cfg.cooldownMs), Awaited(cfg, k, AwaitPrewarm, AwaitPrewarm, None, []))
  {
    CooledDown(cfg, k);
  }

  lemma ReleaseStarts(cfg: Config, k: string)
    ensures Takes(cfg, Awaited(cfg, k, AwaitPrewarm, AwaitPrewarm, None, []), TaskResumes(1, false),
                  Awaited(cfg, k, AwaitRelease(0), AwaitPrewarm, Some(0), [Call(0, InFlight)]))
  {
  }

  lemma ReleaseIsJoined(cfg: Config, k: string)
    ensures Takes(cfg, Awaited(cfg, k, AwaitRelease(0), AwaitPrewarm, Some(0), [Call(0, InFlight)]), TaskResumes(2, false),
                  Awaited(cfg, k, AwaitRelease(0), AwaitRelease(0), Some(0), [Call(0, InFlight)]))
  {
  }

  lemma ReleaseFulfils(cfg: Config, k: string)
    ensures Takes(cfg, Awaited(cfg, k, AwaitRelease(0), AwaitRelease(0), Some(0), [Call(0, InFlight)]), CallFulfils(0),
                  Awaited(cfg, k, AwaitRelease(0), AwaitRelease(0), Some(0), [Call(0, Fulfilled)]))
  {
  }

  lemma FirstIsTold(cfg: Config, k: string)
    ensures Takes(cfg, Awaited(cfg, k, AwaitRelease(0), AwaitRelease(0), Some(0), [Call(0, Fulfilled)]), TaskReleased(1),
                  Awaited(cfg, k, Settled(true), AwaitRelease(0), Some(0), [Call(0, Fulfilled)]))
  {
  }

  lemma SecondIsTold(cfg: Config, k: string)
    ensures Takes(cfg, Awaited(cfg, k, Settled(true), AwaitRelease(0), Some(0), [Call(0, Fulfilled)]), TaskReleased(2),
                  Awaited(cfg, k, Settled(true), Settled(true), Some(0), [Call(0, Fulfilled)]))
  {
  }

  lemma FirstGoesOn(cfg: Config, k: string)
    ensures Takes(cfg, Awaited(cfg, k, Settled(true), Settled(true), Some(0), [Call(0, Fulfilled)]),
                  WarmResume(0, cfg.cooldownMs, []), Renewed(cfg, k, Running))
  {
    var s := Awaited(cfg, k, Settled(true), Settled(true), Some(0), [Call(0, Fulfilled)]);
    assert Freed(s, 0).leases == map[];
    assert Create(Freed(s, 0), k, cfg.cooldownMs, []) == Renewed(cfg, k, Running);
    assert Renewed(cfg, k, Running).leases.Keys <= {k};
  }

  lemma NewOneLands(cfg: Config, k: string)
    ensures Takes(cfg, Renewed(cfg, k, Running), PrewarmLands(1, true), Renewed(cfg, k, Landed(true)))
  {
  }

  /** There the second of the two resumes and overwrites the new lease. */
  lemma SecondOverwrites(cfg: Config, k: string)
    ensures
      var s, step := Renewed(cfg, k, Landed(true)), WarmResume(1, cfg.cooldownMs, []);
      && AfterRetired(s, s.waits[1]) == map[k := 1]
      && Enabled(cfg, s, step) && !NoOverwrite(s, step)
  {
    var s := Renewed(cfg, k, Landed(true));
    var created := Create(Freed(s, 1), k, cfg.cooldownMs, []);
    assert created.leases == map[k := 2];
    assert created.leases.Keys <= {k};
  }

  lemma RunToReturned(cfg: Config, k: string) returns (steps: seq<Step>)
    ensures Reaches(cfg, steps, Returned(cfg, k))
  {
    FirstWarm(cfg, k);
    ReachesNext(cfg, [], Empty, WarmFresh(k, 0, []), OnlyLease(k, Running));
    steps := [] + [WarmFresh(k, 0, [])];
    Lands(cfg, k);
    ReachesNext(cfg, steps, OnlyLease(k, Running), PrewarmLands(0, true), OnlyLease(k, Landed(true)));
    steps := steps + [PrewarmLands(0, true)];
    IsRecycled(cfg, k);
    ReachesNext(cfg, steps, OnlyLease(k, Landed(true)), Step.Recycle(k, 0), Recycled(cfg, k));
    steps := steps + [Step.Recycle(k, 0)];
    Returns(cfg, k);
    ReachesNext(cfg, steps, Recycled(cfg, k), TaskTimesOut(0), Returned(cfg, k));
    steps := steps + [TaskTimesOut(0)];
  }

  lemma RunToJoined(cfg: Config, k: string) returns (steps: seq<Step>)
    ensures Reaches(cfg, steps, Awaited(cfg, k, AwaitRelease(0), AwaitRelease(0), Some(0), [Call(0, InFlight)]))
  {
    steps := RunToReturned(cfg, k);
    SecondWarm(cfg, k);
    ReachesNext(cfg, steps, Returned(cfg, k), WarmRetire(k, cfg.cooldownMs), AwaitedOnce(cfg, k));
    steps := steps + [WarmRetire(k, cfg.cooldownMs)];
    ThirdWarm(cfg, k);
    var both := Awaited(cfg, k, AwaitPrewarm, AwaitPrewarm, None, []);
    ReachesNext(cfg, steps, AwaitedOnce(cfg, k), WarmRetire(k, cfg.cooldownMs), both);
    steps := steps + [WarmRetire(k, cfg.cooldownMs)];
    ReleaseStarts(cfg, k);
    var started := Awaited(cfg, k, AwaitRelease(0), AwaitPrewarm, Some(0), [Call(0, InFlight)]);
    ReachesNext(cfg, steps, both, TaskResumes(1, false), started);
    steps := steps + [TaskResumes(1, false)];
    ReleaseIsJoined(cfg, k);
    var joined := Awaited(cfg, k, AwaitRelease(0), AwaitRelease(0), Some(0), [Call(0, InFlight)]);
    ReachesNext(cfg, steps, started, TaskResumes(2, false), joined);
    steps := steps + [TaskResumes(2, false)];
  }

  /** Both settles have succeeded, and neither of the two calls has resumed. */
  function BothTold(cfg: Config, k: string): Pool {
    Awaited(cfg, k, Settled(true), Settled(true), Some(0), [Call(0, Fulfilled)])
  }

  lemma RunToBothTold(cfg: Config, k: string) returns (steps: seq<Step>)
    ensures Reaches(cfg, steps, BothTold(cfg, k))
  {
    steps := RunToJoined(cfg, k);
    var joined := Awaited(cfg, k, AwaitRelease(0), AwaitRelease(0), Some(0), [Call(0, InFlight)]);
    var fulfilled := Awaited(cfg, k, AwaitRelease(0), AwaitRelease(0), Some(0), [Call(0, Fulfilled)]);
    var one := Awaited(cfg, k, Settled(true), AwaitRelease(0), Some(0), [Call(0, Fulfilled)]);
    ReleaseFulfils(cfg, k);
    ReachesNext(cfg, steps, joined, CallFulfils(0), fulfilled);
    steps := steps + [CallFulfils(0)];
    FirstIsTold(cfg, k);
    ReachesNext(cfg, steps, fulfilled, TaskReleased(1), one);
    steps := steps + [TaskReleased(1)];
    SecondIsTold(cfg, k);
    ReachesNext(cfg, steps, one, TaskReleased(2), BothTold(cfg, k));
    steps := steps + [TaskReleased(2)];
  }

  lemma RunToRenewed(cfg: Config, k: string) returns (steps: seq<Step>)
    ensures Reaches(cfg, steps, Renewed(cfg, k, Landed(true)))
  {
    steps := RunToBothTold(cfg, k);
    FirstGoesOn(cfg, k);
    ReachesNext(cfg, steps, BothTold(cfg, k), WarmResume(0, cfg.cooldownMs, []), Renewed(cfg, k, Running));
    steps := steps + [WarmResume(0, cfg.cooldownMs, [])];
    NewOneLands(cfg, k);
    ReachesNext(cfg, steps, Renewed(cfg, k, Running), PrewarmLands(1, true), Renewed(cfg, k, Landed(true)));
    steps := steps + [PrewarmLands(1, true)];
  }

  /**
   For every key and configuration a run from the empty pool, in which no `warm` overwrote anything, gets to a
   `warm` that overwrites a live lease, and a continuation loses its handle.
   */
  lemma OverwriteIsReached(cfg: Config, k: string) returns (steps: seq<Step>, s: Pool, step: Step, rest: seq<Step>, r: Pool)
    ensures Reaches(cfg, steps, s) && Enabled(cfg, s, step) && !NoOverwrite(s, step)
    ensures Leads(cfg, Apply(cfg, s, step), rest, r) && Lost(r, 1)
  {
    steps := RunToRenewed(cfg, k);
    s, step := Renewed(cfg, k, Landed(true)), WarmResume(1, cfg.cooldownMs, []);
    SecondOverwrites(cfg, k);
    RunKeeps(cfg, steps, s);
    rest, r := OverwriteLosesHandle(cfg, s, 1, cfg.cooldownMs, []);
  }
}
