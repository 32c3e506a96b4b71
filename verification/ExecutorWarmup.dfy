/**
 The executor lease protocol of src/executor-warmup.ts as a step machine.

 A lease object, a settle task and a release call are named by their position in a sequence that
 only grows, so an object keeps its identity when the tables stop pointing at it.  One step runs
 from one await point to the next; promises land, fail and time out nondeterministically.
 */
module ExecutorWarmup {
  import opened Prelude

  /** What became of the prewarm promise; a landed prewarm may have produced no release handle. */
  datatype Prewarm = Running | Failed | Landed(handle: bool)

  datatype Lease = Lease(key: string, prewarm: Prewarm, touchedAt: int,
                         retiring: bool, retained: bool, releasing: Option<nat>)

  datatype CallStatus = InFlight | Fulfilled | Rejected

  /** One invocation of the release function of `lease`. */
  datatype Call = Call(lease: nat, status: CallStatus)

  datatype Phase = AwaitPrewarm | AwaitRelease(call: nat) | Settled(ok: bool)

  /** One run of `settle`; `key` is absent for an orphan. */
  datatype Task = Task(key: Option<string>, lease: nat, phase: Phase)

  /** A `warm` call suspended on the settle of the retiring lease it found. */
  datatype Wait = Wait(key: string, existing: nat, task: nat, resumed: bool)

  /** A `releaseAll` call: the leases it took out of the tables and the tasks it awaits. */
  datatype Sweep = Sweep(collected: set<nat>, tasks: set<nat>)

  datatype Cooldown = Cooldown(key: string, until: int)

  datatype Pool = Pool(
    objects: seq<Lease>, leases: map<string, nat>, orphans: seq<nat>,
    tasks: seq<Task>, calls: seq<Call>, waits: seq<Wait>, sweeps: seq<Sweep>,
    cooldowns: seq<Cooldown>)

  const Empty := Pool([], map[], [], [], [], [], [], [])

  // ---- the building blocks of a step -------------------------------------------------------

  function SetLease(s: Pool, l: nat, lease: Lease): Pool
    requires l < |s.objects|
  {
    s.(objects := s.objects[l := lease])
  }

  function SetPhase(s: Pool, t: nat, phase: Phase): Pool
    requires t < |s.tasks|
  {
    s.(tasks := s.tasks[t := s.tasks[t].(phase := phase)])
  }

  /** `trackSettle`: register a task and run `settle` up to its first await. */
  function TrackSettle(s: Pool, key: Option<string>, l: nat): Pool
    requires l < |s.objects|
  {
    SetLease(s, l, s.objects[l].(retiring := true)).(tasks := s.tasks + [Task(key, l, AwaitPrewarm)])
  }

  /** `retain`: put a lease that could not be released back, once. */
  function Retain(s: Pool, key: Option<string>, l: nat): Pool
    requires l < |s.objects|
  {
    if s.objects[l].retained then s
    else
      var kept := SetLease(s, l, s.objects[l].(retained := true));
      if key.Some? && key.value !in s.leases then kept.(leases := s.leases[key.value := l])
      else kept.(orphans := s.orphans + [l])
  }

  function Remove<K, V>(m: map<K, V>, k: K): map<K, V> { m - {k} }

  /** Take a lease out of the table for release: shared by `recycle` and `evictOverflow`. */
  function Detach(s: Pool, key: string): Pool
    requires key in s.leases && s.leases[key] < |s.objects|
  {
    var l := s.leases[key];
    var marked := SetLease(s, l, s.objects[l].(retiring := true, retained := false));
    TrackSettle(marked.(leases := Remove(s.leases, key)), Some(key), l)
  }

  function TouchedAt(s: Pool, key: string): int
    requires key in s.leases
  {
    if s.leases[key] < |s.objects| then s.objects[s.leases[key]].touchedAt else 0
  }

  ghost predicate IsOldest(s: Pool, keep: string, victim: string) {
    && victim in s.leases && victim != keep && s.leases[victim] < |s.objects|
    && forall k | k in s.leases && k != keep :: TouchedAt(s, victim) <= TouchedAt(s, k)
  }

  /** The victims `evictOverflow(keep)` detaches: while the table is too big, an oldest other entry. */
  ghost predicate LegalVictims(s: Pool, keep: string, max: nat, victims: seq<string>)
    decreases |victims|
  {
    if |s.leases| <= max || s.leases.Keys <= {keep} then victims == []
    else victims != [] && IsOldest(s, keep, victims[0]) && LegalVictims(Detach(s, victims[0]), keep, max, victims[1..])
  }

  function EvictAll(s: Pool, victims: seq<string>): Pool
    decreases |victims|
  {
    if victims == [] || victims[0] !in s.leases || s.leases[victims[0]] >= |s.objects| then s
    else EvictAll(Detach(s, victims[0]), victims[1..])
  }

  /** Register a new lease under `key`, then evict. */
  function Create(s: Pool, key: string, now: int, victims: seq<string>): Pool {
    var lease := Lease(key, Running, now, false, false, None);
    EvictAll(s.(objects := s.objects + [lease], leases := s.leases[key := |s.objects|]), victims)
  }

  // ---- cooldowns: an insertion-ordered map ---------------------------------------------------

  function CooldownUntil(cs: seq<Cooldown>, key: string): int {
    if cs == [] then 0 else if cs[0].key == key then cs[0].until else CooldownUntil(cs[1..], key)
  }

  function SetCooldown(cs: seq<Cooldown>, key: string, until: int): seq<Cooldown> {
    if cs == [] then [Cooldown(key, until)]
    else if cs[0].key == key then [Cooldown(key, until)] + cs[1..]
    else [cs[0]] + SetCooldown(cs[1..], key, until)
  }

  function Unexpired(cs: seq<Cooldown>, now: int): seq<Cooldown> {
    if cs == [] then []
    else (if cs[0].until <= now then [] else [cs[0]]) + Unexpired(cs[1..], now)
  }

  function LastN(cs: seq<Cooldown>, n: nat): seq<Cooldown> {
    if |cs| <= n then cs else cs[|cs| - n..]
  }

  function Trim(cs: seq<Cooldown>, now: int, max: nat): seq<Cooldown> {
    LastN(Unexpired(cs, now), 4 * max)
  }

  // ---- steps -----------------------------------------------------------------------------------

  datatype Step =
    | WarmFresh(key: string, now: int, victims: seq<string>)
    | WarmTouch(key: string, now: int)
    | WarmRetire(key: string, now: int)
    | WarmResume(wait: nat, now: int, victims: seq<string>)
    | WarmCatch(lease: nat)
    | Recycle(key: string, now: int)
    | ReleaseAll(order: seq<string>)
    | PrewarmLands(lease: nat, handle: bool)
    | PrewarmFails(lease: nat)
    | TaskResumes(task: nat, throws: bool)
    | TaskTimesOut(task: nat)
    | CallFulfils(call: nat)
    | CallRejects(call: nat)
    | TaskReleased(task: nat)
    | DeliverRejection(call: nat)

  datatype Config = Config(cooldownMs: nat, maxLeases: nat)

  /** The table entry a resumed `warm` finds under its key once the lease it waited for is gone. */
  function AfterRetired(s: Pool, w: Wait): map<string, nat> {
    if w.key in s.leases && s.leases[w.key] == w.existing then Remove(s.leases, w.key) else s.leases
  }

  /** `warm` resumed: the retiring lease is out of the table, and the wait is over. */
  function Freed(s: Pool, w: nat): Pool
    requires w < |s.waits|
  {
    s.(leases := AfterRetired(s, s.waits[w]), waits := s.waits[w := s.waits[w].(resumed := true)])
  }

  predicate TasksInRange(s: Pool) {
    forall t | 0 <= t < |s.tasks| :: s.tasks[t].lease < |s.objects|
  }

  /** Whether the source can take this step now. */
  ghost predicate Enabled(cfg: Config, s: Pool, step: Step) {
    TasksInRange(s) &&
    match step
    case WarmFresh(key, now, victims) =>
      && key !in s.leases && now >= CooldownUntil(s.cooldowns, key)
      && LegalVictims(Create(s, key, now, []), key, cfg.maxLeases, victims)
    case WarmTouch(key, now) =>
      && key in s.leases && s.leases[key] < |s.objects| && !s.objects[s.leases[key]].retiring
      && now >= CooldownUntil(s.cooldowns, key)
    case WarmRetire(key, now) =>
      && key in s.leases && s.leases[key] < |s.objects| && s.objects[s.leases[key]].retiring
      && now >= CooldownUntil(s.cooldowns, key)
    case WarmResume(w, now, victims) =>
      && w < |s.waits| && !s.waits[w].resumed
      && s.waits[w].task < |s.tasks| && s.tasks[s.waits[w].task].phase == Settled(true)
      && LegalVictims(Create(Freed(s, w), s.waits[w].key, now, []), s.waits[w].key, cfg.maxLeases, victims)
    case WarmCatch(l) => l < |s.objects| && s.objects[l].prewarm.Failed?
    case Recycle(key, now) => key in s.leases ==> s.leases[key] < |s.objects|
    case ReleaseAll(order) =>
      && Enumerates(order, s.leases.Keys)
      && forall e | e in Entries(s, order) :: e.1 < |s.objects|
    case PrewarmLands(l, _) => l < |s.objects| && s.objects[l].prewarm.Running?
    case PrewarmFails(l) => l < |s.objects| && s.objects[l].prewarm.Running?
    case TaskResumes(t, _) =>
      && t < |s.tasks| && s.tasks[t].phase.AwaitPrewarm? && s.tasks[t].lease < |s.objects|
      && !s.objects[s.tasks[t].lease].prewarm.Running?
    case TaskTimesOut(t) => t < |s.tasks| && !s.tasks[t].phase.Settled? && s.tasks[t].lease < |s.objects|
    case CallFulfils(c) => c < |s.calls| && s.calls[c].status.InFlight?
    case CallRejects(c) => c < |s.calls| && s.calls[c].status.InFlight?
    case TaskReleased(t) =>
      && t < |s.tasks| && s.tasks[t].phase.AwaitRelease? && s.tasks[t].phase.call < |s.calls|
      && s.calls[s.tasks[t].phase.call].status.Fulfilled?
    case DeliverRejection(c) => c < |s.calls| && s.calls[c].status.Rejected?
  }

  /** `releaseSettled` up to its await, for a task whose prewarm has landed. */
  function StartRelease(s: Pool, t: nat, throws: bool): Pool
    requires t < |s.tasks| && s.tasks[t].lease < |s.objects|
  {
    var l := s.tasks[t].lease;
    var lease := s.objects[l];
    if lease.prewarm != Landed(true) then SetPhase(s, t, Settled(true))
    else if lease.releasing.Some? then SetPhase(s, t, AwaitRelease(lease.releasing.value))
    else if throws then Retain(SetPhase(s, t, Settled(false)), s.tasks[t].key, l)
    else
      var called := s.(calls := s.calls + [Call(l, InFlight)]);
      SetPhase(SetLease(called, l, lease.(releasing := Some(|s.calls|))), t, AwaitRelease(|s.calls|))
  }

  /** Every task from `t` on that waits for the rejected call `c` clears it, retains and fails. */
  function Deliver(s: Pool, c: nat, t: nat): Pool
    requires TasksInRange(s)
    decreases |s.tasks| - t
  {
    if t >= |s.tasks| then s
    else if s.tasks[t].phase == AwaitRelease(c) then
      var l := s.tasks[t].lease;
      var cleared := SetLease(SetPhase(s, t, Settled(false)), l, s.objects[l].(releasing := None));
      Deliver(Retain(cleared, s.tasks[t].key, l), c, t + 1)
    else Deliver(s, c, t + 1)
  }

  /** Mark one collected lease for release and start its settle task. */
  function Collect(s: Pool, key: Option<string>, l: nat): Pool
    requires l < |s.objects|
  {
    TrackSettle(SetLease(s, l, s.objects[l].(retiring := true, retained := false)), key, l)
  }

  function CollectAll(s: Pool, entries: seq<(Option<string>, nat)>): Pool
    requires forall e | e in entries :: e.1 < |s.objects|
    decreases |entries|
  {
    if entries == [] then s else CollectAll(Collect(s, entries[0].0, entries[0].1), entries[1..])
  }

  /** What `releaseAll` collects: the table in the order `order`, then the orphans. */
  function Entries(s: Pool, order: seq<string>): seq<(Option<string>, nat)> {
    seq(|order|, i requires 0 <= i < |order| =>
      (Some(order[i]), if order[i] in s.leases then s.leases[order[i]] else 0))
    + seq(|s.orphans|, i requires 0 <= i < |s.orphans| => (None, s.orphans[i]))
  }

  ghost predicate Enumerates(order: seq<string>, keys: set<string>) {
    && (forall k :: k in order <==> k in keys)
    && forall i, j | 0 <= i < j < |order| :: order[i] != order[j]
  }

  function ActiveTasks(s: Pool): set<nat> {
    set t: nat | t < |s.tasks| && !s.tasks[t].phase.Settled?
  }

  /** `releaseAll` up to its await. */
  function StartSweep(s: Pool, order: seq<string>): Pool
    requires forall e | e in Entries(s, order) :: e.1 < |s.objects|
  {
    var entries := Entries(s, order);
    var after := CollectAll(s.(leases := map[], orphans := []), entries);
    after.(sweeps := s.sweeps + [Sweep(set e | e in entries :: e.1, ActiveTasks(after))])
  }

  function Apply(cfg: Config, s: Pool, step: Step): Pool
    requires Enabled(cfg, s, step)
  {
    match step
    case WarmFresh(key, now, victims) => Create(s, key, now, victims)
    case WarmTouch(key, now) =>
      SetLease(s, s.leases[key], s.objects[s.leases[key]].(touchedAt := now))
    case WarmRetire(key, now) =>
      var l := s.leases[key];
      var tracked := TrackSettle(SetLease(s, l, s.objects[l].(touchedAt := now)), Some(key), l);
      tracked.(waits := s.waits + [Wait(key, l, |s.tasks|, false)])
    case WarmResume(w, now, victims) =>
      Create(Freed(s, w), s.waits[w].key, now, victims)
    case WarmCatch(l) =>
      var key := s.objects[l].key;
      if key in s.leases && s.leases[key] == l then s.(leases := Remove(s.leases, key)) else s
    case Recycle(key, now) =>
      var cooled := s.(cooldowns := Trim(SetCooldown(s.cooldowns, key, now + cfg.cooldownMs), now, cfg.maxLeases));
      if key in s.leases then Detach(cooled, key) else cooled
    case ReleaseAll(order) => StartSweep(s, order)
    case PrewarmLands(l, handle) =>
      var landed := SetLease(s, l, s.objects[l].(prewarm := Landed(handle)));
      var key := s.objects[l].key;
      if key in s.leases && s.leases[key] == l then landed else TrackSettle(landed, Some(key), l)
    case PrewarmFails(l) => SetLease(s, l, s.objects[l].(prewarm := Failed))
    case TaskResumes(t, throws) => StartRelease(s, t, throws)
    case TaskTimesOut(t) => Retain(SetPhase(s, t, Settled(false)), s.tasks[t].key, s.tasks[t].lease)
    case CallFulfils(c) => s.(calls := s.calls[c := s.calls[c].(status := Fulfilled)])
    case CallRejects(c) => s.(calls := s.calls[c := s.calls[c].(status := Rejected)])
    case TaskReleased(t) => SetPhase(s, t, Settled(true))
    case DeliverRejection(c) => Deliver(s, c, 0)
  }
}
