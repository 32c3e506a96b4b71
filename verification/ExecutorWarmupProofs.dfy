/** What every interleaving of the executor lease protocol keeps. */
module ExecutorWarmupProofs {
  import opened Prelude
  import opened ExecutorWarmup

  /** The SDK reference of lease `l` has been given back. */
  ghost predicate Released(s: Pool, l: nat) {
    exists c: nat :: c < |s.calls| && s.calls[c].lease == l && s.calls[c].status.Fulfilled?
  }

  /** Nothing is left to release: no handle was ever obtained, or its release fulfilled. */
  ghost predicate Done(s: Pool, l: nat)
    requires l < |s.objects|
  {
    s.objects[l].prewarm == Failed || s.objects[l].prewarm == Landed(false) || Released(s, l)
  }

  ghost predicate InTable(s: Pool, l: nat) {
    l in s.leases.Values || l in s.orphans
  }

  ghost predicate Active(s: Pool, l: nat) {
    exists t: nat :: t < |s.tasks| && s.tasks[t].lease == l && !s.tasks[t].phase.Settled?
  }

  /** Every reference from one part of the pool to another is in range and agrees on the key. */
  ghost predicate WellFormed(s: Pool) {
    && (forall k | k in s.leases :: s.leases[k] < |s.objects| && s.objects[s.leases[k]].key == k)
    && (forall i | 0 <= i < |s.orphans| :: s.orphans[i] < |s.objects|)
    && (forall t | 0 <= t < |s.tasks| :: s.tasks[t].lease < |s.objects|
         && (s.tasks[t].key.Some? ==> s.objects[s.tasks[t].lease].key == s.tasks[t].key.value))
    && (forall c | 0 <= c < |s.calls| :: s.calls[c].lease < |s.objects|)
    && (forall w | 0 <= w < |s.waits| :: s.waits[w].existing < |s.objects| && s.waits[w].task < |s.tasks|
         && s.tasks[s.waits[w].task].lease == s.waits[w].existing)
  }

  /** Call `c` is the last one made on lease `l`. */
  ghost predicate Latest(s: Pool, l: nat, c: nat) {
    c < |s.calls| && s.calls[c].lease == l && forall d | c < d < |s.calls| :: s.calls[d].lease != l
  }

  /** One release call at a time: all calls of a lease but the one it remembers were rejected. */
  ghost predicate SingleFlight(s: Pool)
    requires WellFormed(s)
  {
    && (forall l | 0 <= l < |s.objects| && s.objects[l].releasing.Some? ::
         Latest(s, l, s.objects[l].releasing.value))
    && (forall c | 0 <= c < |s.calls| :: s.objects[s.calls[c].lease].prewarm == Landed(true)
         && (s.calls[c].status.Rejected? || s.objects[s.calls[c].lease].releasing == Some(c)))
    && (forall t | 0 <= t < |s.tasks| && s.tasks[t].phase.AwaitRelease? ::
         s.objects[s.tasks[t].lease].releasing == Some(s.tasks[t].phase.call))
  }

  /** A task that reports success tells the truth. */
  ghost predicate Truthful(s: Pool)
    requires WellFormed(s)
  {
    forall t | 0 <= t < |s.tasks| && s.tasks[t].phase == Settled(true) :: Done(s, s.tasks[t].lease)
  }

  ghost predicate KeptLease(s: Pool, l: nat)
    requires l < |s.objects|
  {
    && (s.objects[l].prewarm == Landed(true) ==> Released(s, l) || InTable(s, l) || Active(s, l))
    && (s.objects[l].retained ==> Done(s, l) || InTable(s, l))
  }

  /** No handle is lost, and none can become lost: a lease marked retained really is in a table. */
  ghost predicate Kept(s: Pool) {
    forall l: nat | l < |s.objects| :: KeptLease(s, l)
  }

  /** Every lease a `releaseAll` collected has one of the tasks it awaits. */
  ghost predicate SweepsCover(s: Pool) {
    forall w, l | 0 <= w < |s.sweeps| && l in s.sweeps[w].collected ::
      exists t :: t in s.sweeps[w].tasks && t < |s.tasks| && s.tasks[t].lease == l
  }

  ghost predicate Inv(s: Pool) {
    WellFormed(s) && SingleFlight(s) && Truthful(s) && Kept(s) && SweepsCover(s)
  }

  /** The invariant, except that lease `l` may have lost its last holder. */
  ghost predicate InvBut(s: Pool, l: nat)
    requires l < |s.objects|
  {
    WellFormed(s) && SingleFlight(s) && Truthful(s) && SweepsCover(s) && KeptBut(s, l)
  }

  ghost predicate KeptBut(s: Pool, l: nat)
    requires l < |s.objects|
  {
    && (forall m: nat | m < |s.objects| && m != l :: KeptLease(s, m))
    && (s.objects[l].retained ==> Done(s, l) || InTable(s, l))
  }

  // ---- the building blocks keep the invariant ---------------------------------------------------

  /** Changing only the flags `touchedAt` and `retiring` is invisible to the invariant. */
  lemma FlagsKeep(s: Pool, l: nat, lease: Lease)
    requires Inv(s) && l < |s.objects|
    requires lease == s.objects[l].(touchedAt := lease.touchedAt, retiring := lease.retiring)
    ensures Inv(SetLease(s, l, lease))
  {
    var r := SetLease(s, l, lease);
    forall m: nat | m < |s.objects| ensures KeptLease(r, m) {
      assert KeptLease(s, m);
    }
    forall t | 0 <= t < |r.tasks| && r.tasks[t].phase == Settled(true) ensures Done(r, r.tasks[t].lease) {
      assert Done(s, s.tasks[t].lease);
    }
  }

  /** A settle task is a holder, so starting one repairs a lease that lost its last holder. */
  lemma TrackSettleKeeps(s: Pool, key: Option<string>, l: nat)
    requires l < |s.objects| && InvBut(s, l)
    requires key.Some? ==> s.objects[l].key == key.value
    ensures Inv(TrackSettle(s, key, l))
  {
    var r := TrackSettle(s, key, l);
    assert r.tasks[|s.tasks|].lease == l;
    forall m: nat | m < |s.objects| ensures KeptLease(r, m) {
      assert m != l ==> KeptLease(s, m);
      if Active(s, m) {
        var t: nat :| t < |s.tasks| && s.tasks[t].lease == m && !s.tasks[t].phase.Settled?;
        assert r.tasks[t] == s.tasks[t];
      }
    }
    forall t | 0 <= t < |r.tasks| && r.tasks[t].phase == Settled(true) ensures Done(r, r.tasks[t].lease) {
      assert Done(s, s.tasks[t].lease);
    }
    forall w, m | 0 <= w < |r.sweeps| && m in r.sweeps[w].collected
      ensures exists t :: t in r.sweeps[w].tasks && t < |r.tasks| && r.tasks[t].lease == m
    {
      var t :| t in s.sweeps[w].tasks && t < |s.tasks| && s.tasks[t].lease == m;
      assert r.tasks[t].lease == m;
    }
  }

  /** `retain` repairs a lease that lost its last holder. */
  lemma RetainKeeps(s: Pool, key: Option<string>, l: nat)
    requires l < |s.objects| && InvBut(s, l)
    requires key.Some? ==> s.objects[l].key == key.value
    ensures Inv(Retain(s, key, l))
    ensures s.objects[l].retained || InTable(Retain(s, key, l), l)
  {
    var r := Retain(s, key, l);
    RetainHolds(s, key, l);
    forall m: nat | m < |s.objects| ensures KeptLease(r, m) {
      assert m != l ==> KeptLease(s, m);
      assert Active(s, m) ==> Active(r, m);
    }
    forall t | 0 <= t < |r.tasks| && r.tasks[t].phase == Settled(true) ensures Done(r, r.tasks[t].lease) {
      assert Done(s, s.tasks[t].lease);
    }
  }

  /** What `retain` does to the tables: everything stays in, and `l` is in if it was not marked. */
  lemma RetainHolds(s: Pool, key: Option<string>, l: nat)
    requires l < |s.objects|
    ensures forall m | InTable(s, m) :: InTable(Retain(s, key, l), m)
    ensures !s.objects[l].retained ==> InTable(Retain(s, key, l), l)
  {
    var r := Retain(s, key, l);
    if !s.objects[l].retained {
      if key.Some? && key.value !in s.leases {
        assert r.leases[key.value] == l;
        forall m | InTable(s, m) ensures InTable(r, m) {
          if m in s.leases.Values {
            var k :| k in s.leases && s.leases[k] == m;
            assert r.leases[k] == m;
          }
        }
      } else {
        assert r.orphans[|s.orphans|] == l;
        forall m | InTable(s, m) ensures InTable(r, m) {
          if m in s.orphans {
            var i :| 0 <= i < |s.orphans| && s.orphans[i] == m;
            assert r.orphans[i] == m;
          }
        }
      }
    }
  }

  /** Taking a lease out of the table and starting its settle task. */
  lemma DetachWellFormed(s: Pool, key: string)
    requires WellFormed(s) && key in s.leases
    ensures WellFormed(Detach(s, key))
  {
  }

  lemma DetachKeeps(s: Pool, key: string)
    requires Inv(s) && key in s.leases
    ensures Inv(Detach(s, key))
  {
    var l := s.leases[key];
    var mid := SetLease(s, l, s.objects[l].(retiring := true, retained := false)).(leases := Remove(s.leases, key));
    forall m: nat | m < |s.objects| && m != l ensures KeptLease(mid, m) {
      assert KeptLease(s, m);
      assert Active(s, m) ==> Active(mid, m);
      if m in s.leases.Values {
        var k :| k in s.leases && s.leases[k] == m;
        assert mid.leases[k] == m;
      }
    }
    forall t | 0 <= t < |mid.tasks| && mid.tasks[t].phase == Settled(true) ensures Done(mid, mid.tasks[t].lease) {
      assert Done(s, s.tasks[t].lease);
    }
    TrackSettleKeeps(mid, Some(key), l);
  }

  lemma EvictAllKeeps(s: Pool, victims: seq<string>)
    requires Inv(s)
    ensures Inv(EvictAll(s, victims))
    decreases |victims|
  {
    if victims != [] && victims[0] in s.leases {
      DetachKeeps(s, victims[0]);
      EvictAllKeeps(Detach(s, victims[0]), victims[1..]);
    }
  }

  // ---- the one hypothesis: a resumed `warm` must not overwrite a live lease ---------------------

  /** A lease that may leave the table without a task taking it over. */
  ghost predicate Expendable(s: Pool, l: nat)
    requires l < |s.objects|
  {
    || Done(s, l)
    || l in s.orphans
    || (!s.objects[l].retained && (s.objects[l].prewarm.Running? || Active(s, l)))
  }

  /** `warm` resumes after the retiring check and finds no live lease under its key. */
  ghost predicate NoOverwrite(s: Pool, step: Step) {
    step.WarmResume? && step.wait < |s.waits| ==>
      var table := AfterRetired(s, s.waits[step.wait]);
      var key := s.waits[step.wait].key;
      key in table ==> table[key] < |s.objects| && Expendable(s, table[key])
  }

  lemma CreateKeeps(s: Pool, key: string, now: int, victims: seq<string>)
    requires Inv(s)
    requires key in s.leases ==> Expendable(s, s.leases[key])
    ensures Inv(Create(s, key, now, victims))
  {
    var lease := Lease(key, Running, now, false, false, None);
    var r := s.(objects := s.objects + [lease], leases := s.leases[key := |s.objects|]);
    forall m: nat | m < |r.objects| ensures KeptLease(r, m) {
      if m < |s.objects| {
        assert KeptLease(s, m);
        assert Active(s, m) ==> Active(r, m);
        if m in s.leases.Values {
          var k :| k in s.leases && s.leases[k] == m;
          if k != key { assert r.leases[k] == m; }
        }
      }
    }
    forall t | 0 <= t < |r.tasks| && r.tasks[t].phase == Settled(true) ensures Done(r, r.tasks[t].lease) {
      assert Done(s, s.tasks[t].lease);
    }
    EvictAllKeeps(r, victims);
  }

  /** A finished lease may be taken out of the table. */
  lemma RemoveDoneKeeps(s: Pool, key: string)
    requires Inv(s) && key in s.leases && Done(s, s.leases[key])
    ensures Inv(s.(leases := Remove(s.leases, key)))
  {
    var r := s.(leases := Remove(s.leases, key));
    forall m: nat | m < |s.objects| ensures KeptLease(r, m) {
      assert KeptLease(s, m);
      assert Active(s, m) ==> Active(r, m);
      if m in s.leases.Values {
        var k :| k in s.leases && s.leases[k] == m;
        if k != key { assert r.leases[k] == m; }
      }
    }
    forall t | 0 <= t < |r.tasks| && r.tasks[t].phase == Settled(true) ensures Done(r, r.tasks[t].lease) {
      assert Done(s, s.tasks[t].lease);
    }
  }

  /** When `warm` resumes, the lease it waited for is done and may leave the table. */
  lemma ResumeFrees(s: Pool, w: nat)
    requires Inv(s) && w < |s.waits| && s.tasks[s.waits[w].task].phase == Settled(true)
    ensures Inv(Freed(s, w))
    ensures forall l: nat | l < |s.objects| && Expendable(s, l) :: Expendable(Freed(s, w), l)
  {
    var wait := s.waits[w];
    assert Done(s, wait.existing);
    var removed := s.(leases := AfterRetired(s, wait));
    if wait.key in s.leases && s.leases[wait.key] == wait.existing {
      RemoveDoneKeeps(s, wait.key);
    } else {
      assert removed == s;
    }
    var freed := Freed(s, w);
    forall m: nat | m < |s.objects| ensures KeptLease(freed, m) {
      assert KeptLease(removed, m);
      assert Active(removed, m) ==> Active(freed, m);
    }
    forall t | 0 <= t < |s.tasks| && s.tasks[t].phase == Settled(true) ensures Done(freed, s.tasks[t].lease) {
      assert Done(removed, s.tasks[t].lease);
    }
    forall l: nat | l < |s.objects| && Expendable(s, l) ensures Expendable(freed, l) {
      assert Active(s, l) ==> Active(freed, l);
    }
  }

  lemma AddWaitKeeps(s: Pool, wait: Wait)
    requires Inv(s) && wait.existing < |s.objects| && wait.task < |s.tasks| && s.tasks[wait.task].lease == wait.existing
    ensures Inv(s.(waits := s.waits + [wait]))
  {
    var r := s.(waits := s.waits + [wait]);
    forall m: nat | m < |r.objects| ensures KeptLease(r, m) {
      assert KeptLease(s, m);
      assert Active(s, m) ==> Active(r, m);
    }
    forall t | 0 <= t < |r.tasks| && r.tasks[t].phase == Settled(true) ensures Done(r, r.tasks[t].lease) {
      assert Done(s, s.tasks[t].lease);
    }
  }

  lemma WarmRetireKeeps(cfg: Config, s: Pool, key: string, now: int)
    requires Inv(s) && Enabled(cfg, s, WarmRetire(key, now))
    ensures Inv(Apply(cfg, s, WarmRetire(key, now)))
  {
    var l := s.leases[key];
    var touched := SetLease(s, l, s.objects[l].(touchedAt := now));
    FlagsKeep(s, l, touched.objects[l]);
    TrackSettleKeeps(touched, Some(key), l);
    AddWaitKeeps(TrackSettle(touched, Some(key), l), Wait(key, l, |s.tasks|, false));
  }

  lemma CooldownKeeps(s: Pool, cooldowns: seq<Cooldown>)
    requires Inv(s)
    ensures Inv(s.(cooldowns := cooldowns))
  {
    var r := s.(cooldowns := cooldowns);
    forall m: nat | m < |s.objects| ensures KeptLease(r, m) {
      assert KeptLease(s, m);
      assert Active(s, m) ==> Active(r, m);
    }
    forall t | 0 <= t < |r.tasks| && r.tasks[t].phase == Settled(true) ensures Done(r, r.tasks[t].lease) {
      assert Done(s, s.tasks[t].lease);
    }
  }

  /** A prewarm that lands may leave its lease without a holder, unless it is in a table. */
  lemma LandedKeeps(s: Pool, l: nat, handle: bool)
    requires Inv(s) && l < |s.objects| && s.objects[l].prewarm.Running?
    ensures InvBut(SetLease(s, l, s.objects[l].(prewarm := Landed(handle))), l)
    ensures InTable(s, l) ==> KeptLease(SetLease(s, l, s.objects[l].(prewarm := Landed(handle))), l)
  {
    var landed := SetLease(s, l, s.objects[l].(prewarm := Landed(handle)));
    assert !Released(s, l);
    assert KeptLease(s, l);
    forall m: nat | m < |s.objects| && m != l ensures KeptLease(landed, m) {
      assert KeptLease(s, m);
      assert Active(s, m) ==> Active(landed, m);
    }
    forall t | 0 <= t < |landed.tasks| && landed.tasks[t].phase == Settled(true) ensures Done(landed, landed.tasks[t].lease) {
      assert Done(s, s.tasks[t].lease);
    }
  }

  lemma ButOneIsAll(s: Pool, l: nat)
    requires l < |s.objects| && InvBut(s, l) && KeptLease(s, l)
    ensures Inv(s)
  {
  }

  lemma PrewarmLandsKeeps(cfg: Config, s: Pool, l: nat, handle: bool)
    requires Inv(s) && Enabled(cfg, s, PrewarmLands(l, handle))
    ensures Inv(Apply(cfg, s, PrewarmLands(l, handle)))
  {
    var landed := SetLease(s, l, s.objects[l].(prewarm := Landed(handle)));
    var key := s.objects[l].key;
    LandedKeeps(s, l, handle);
    if key in s.leases && s.leases[key] == l {
      assert l in s.leases.Values;
      ButOneIsAll(landed, l);
    } else {
      TrackSettleKeeps(landed, Some(key), l);
    }
  }

  lemma PrewarmFailsKeeps(cfg: Config, s: Pool, l: nat)
    requires Inv(s) && Enabled(cfg, s, PrewarmFails(l))
    ensures Inv(Apply(cfg, s, PrewarmFails(l)))
  {
    var r := SetLease(s, l, s.objects[l].(prewarm := Failed));
    assert !Released(s, l);
    forall m: nat | m < |s.objects| ensures KeptLease(r, m) {
      assert KeptLease(s, m);
      assert Active(s, m) ==> Active(r, m);
    }
    forall t | 0 <= t < |r.tasks| && r.tasks[t].phase == Settled(true) ensures Done(r, r.tasks[t].lease) {
      assert Done(s, s.tasks[t].lease);
    }
  }

  // ---- settle tasks and release calls ------------------------------------------------------------

  /** Ending one task with a failure loses at most that holder of its lease. */
  lemma FailTaskKeeps(s: Pool, t: nat)
    requires Inv(s) && t < |s.tasks|
    ensures InvBut(SetPhase(s, t, Settled(false)), s.tasks[t].lease)
  {
    var r := SetPhase(s, t, Settled(false));
    var l := s.tasks[t].lease;
    assert KeptLease(s, l);
    forall m: nat | m < |s.objects| && m != l ensures KeptLease(r, m) {
      assert KeptLease(s, m);
      if Active(s, m) {
        var u: nat :| u < |s.tasks| && s.tasks[u].lease == m && !s.tasks[u].phase.Settled?;
        assert r.tasks[u] == s.tasks[u];
      }
    }
    forall u | 0 <= u < |r.tasks| && r.tasks[u].phase == Settled(true) ensures Done(r, r.tasks[u].lease) {
      assert Done(s, s.tasks[u].lease);
    }
    SweepsSurvive(s, r);
  }

  lemma SweepsSurvive(s: Pool, r: Pool)
    requires SweepsCover(s) && r.sweeps == s.sweeps && |s.tasks| <= |r.tasks|
    requires forall t | 0 <= t < |s.tasks| :: r.tasks[t].lease == s.tasks[t].lease
    ensures SweepsCover(r)
  {
    forall w, m | 0 <= w < |r.sweeps| && m in r.sweeps[w].collected
      ensures exists t :: t in r.sweeps[w].tasks && t < |r.tasks| && r.tasks[t].lease == m
    {
      var t :| t in s.sweeps[w].tasks && t < |s.tasks| && s.tasks[t].lease == m;
      assert r.tasks[t].lease == m;
    }
  }

  lemma TaskTimesOutKeeps(cfg: Config, s: Pool, t: nat)
    requires Inv(s) && Enabled(cfg, s, TaskTimesOut(t))
    ensures Inv(Apply(cfg, s, TaskTimesOut(t)))
  {
    FailTaskKeeps(s, t);
    RetainKeeps(SetPhase(s, t, Settled(false)), s.tasks[t].key, s.tasks[t].lease);
  }

  /** A task may report success once its lease is done. */
  lemma SucceedTaskKeeps(s: Pool, t: nat)
    requires Inv(s) && t < |s.tasks| && Done(s, s.tasks[t].lease)
    ensures Inv(SetPhase(s, t, Settled(true)))
  {
    var r := SetPhase(s, t, Settled(true));
    forall m: nat | m < |s.objects| ensures KeptLease(r, m) {
      assert KeptLease(s, m);
      if Active(s, m) && m != s.tasks[t].lease {
        var u: nat :| u < |s.tasks| && s.tasks[u].lease == m && !s.tasks[u].phase.Settled?;
        assert r.tasks[u] == s.tasks[u];
      }
    }
    forall u | 0 <= u < |r.tasks| && r.tasks[u].phase == Settled(true) ensures Done(r, r.tasks[u].lease) {
      assert Done(s, s.tasks[u].lease);
    }
    SweepsSurvive(s, r);
  }

  lemma TaskResumesKeeps(cfg: Config, s: Pool, t: nat, throws: bool)
    requires Inv(s) && Enabled(cfg, s, TaskResumes(t, throws))
    ensures Inv(Apply(cfg, s, TaskResumes(t, throws)))
  {
    var l := s.tasks[t].lease;
    var lease := s.objects[l];
    if lease.prewarm != Landed(true) {
      SucceedTaskKeeps(s, t);
    } else if lease.releasing.Some? {
      MoveTaskKeeps(s, s, t, lease.releasing.value);
    } else if throws {
      FailTaskKeeps(s, t);
      RetainKeeps(SetPhase(s, t, Settled(false)), s.tasks[t].key, l);
    } else {
      var called := SetLease(s.(calls := s.calls + [Call(l, InFlight)]), l, lease.(releasing := Some(|s.calls|)));
      MoveTaskKeeps(s, called, t, |s.calls|);
    }
  }

  /** Joining the current release call, or starting the only unrejected one. */
  lemma MoveTaskFlight(s: Pool, called: Pool, t: nat, c: nat)
    requires Inv(s) && t < |s.tasks| && s.tasks[t].phase.AwaitPrewarm?
    requires s.objects[s.tasks[t].lease].prewarm == Landed(true)
    requires
      var l := s.tasks[t].lease;
      || (s.objects[l].releasing == Some(c) && called == s)
      || (s.objects[l].releasing == None && c == |s.calls|
          && called == SetLease(s.(calls := s.calls + [Call(l, InFlight)]), l, s.objects[l].(releasing := Some(c))))
    ensures WellFormed(SetPhase(called, t, AwaitRelease(c))) && SingleFlight(SetPhase(called, t, AwaitRelease(c)))
  {
    var r := SetPhase(called, t, AwaitRelease(c));
    assert forall d | 0 <= d < |s.calls| :: r.calls[d] == s.calls[d];
  }

  lemma MoveTaskKeeps(s: Pool, called: Pool, t: nat, c: nat)
    requires Inv(s) && t < |s.tasks| && s.tasks[t].phase.AwaitPrewarm?
    requires s.objects[s.tasks[t].lease].prewarm == Landed(true)
    requires
      var l := s.tasks[t].lease;
      || (s.objects[l].releasing == Some(c) && called == s)
      || (s.objects[l].releasing == None && c == |s.calls|
          && called == SetLease(s.(calls := s.calls + [Call(l, InFlight)]), l, s.objects[l].(releasing := Some(c))))
    ensures Inv(SetPhase(called, t, AwaitRelease(c)))
  {
    var r := SetPhase(called, t, AwaitRelease(c));
    var l := s.tasks[t].lease;
    MoveTaskFlight(s, called, t, c);
    forall m: nat | m < |s.objects| ensures Released(s, m) == Released(r, m) {
      if Released(s, m) {
        var d: nat :| d < |s.calls| && s.calls[d].lease == m && s.calls[d].status.Fulfilled?;
        assert r.calls[d] == s.calls[d];
      }
    }
    forall m: nat | m < |s.objects| ensures KeptLease(r, m) {
      assert KeptLease(s, m);
      if Active(s, m) {
        var u: nat :| u < |s.tasks| && s.tasks[u].lease == m && !s.tasks[u].phase.Settled?;
        assert r.tasks[u].lease == m && !r.tasks[u].phase.Settled?;
      }
    }
    forall u | 0 <= u < |r.tasks| && r.tasks[u].phase == Settled(true) ensures Done(r, r.tasks[u].lease) {
      assert Done(s, s.tasks[u].lease);
    }
    SweepsSurvive(s, r);
  }

  lemma CallEndsKeeps(s: Pool, c: nat, status: CallStatus)
    requires Inv(s) && c < |s.calls| && s.calls[c].status.InFlight?
    ensures Inv(s.(calls := s.calls[c := s.calls[c].(status := status)]))
  {
    var r := s.(calls := s.calls[c := s.calls[c].(status := status)]);
    forall m: nat | m < |s.objects| && Released(s, m) ensures Released(r, m) {
      var d: nat :| d < |s.calls| && s.calls[d].lease == m && s.calls[d].status.Fulfilled?;
      assert r.calls[d] == s.calls[d];
    }
    forall m: nat | m < |s.objects| ensures KeptLease(r, m) {
      assert KeptLease(s, m);
      assert Active(s, m) ==> Active(r, m);
    }
    forall u | 0 <= u < |r.tasks| && r.tasks[u].phase == Settled(true) ensures Done(r, r.tasks[u].lease) {
      assert Done(s, s.tasks[u].lease);
    }
  }

  /** While a rejection is handed out, waiters from `t` on may still point at the cleared call. */
  ghost predicate Delivering(s: Pool, c: nat, t: nat) {
    && WellFormed(s) && Truthful(s) && SweepsCover(s) && Handing(s, c, t)
  }

  ghost predicate Handing(s: Pool, c: nat, t: nat)
    requires WellFormed(s)
  {
    && c < |s.calls| && s.calls[c].status.Rejected?
    && (forall l | 0 <= l < |s.objects| && s.objects[l].releasing.Some? :: Latest(s, l, s.objects[l].releasing.value))
    && (forall d | 0 <= d < |s.calls| :: s.objects[s.calls[d].lease].prewarm == Landed(true)
         && (s.calls[d].status.Rejected? || s.objects[s.calls[d].lease].releasing == Some(d)))
    && (forall u | 0 <= u < |s.tasks| && s.tasks[u].phase.AwaitRelease? ::
         if s.tasks[u].phase.call == c
         then t <= u && s.tasks[u].lease == s.calls[c].lease
              && s.objects[s.calls[c].lease].releasing in {None, Some(c)}
         else s.objects[s.tasks[u].lease].releasing == Some(s.tasks[u].phase.call))
  }

  /** One waiter clears the call and fails; its lease may now be without a holder. */
  lemma ClearOneKeeps(s: Pool, c: nat, t: nat)
    requires Delivering(s, c, t) && Kept(s)
    requires t < |s.tasks| && s.tasks[t].phase == AwaitRelease(c)
    ensures
      var l := s.tasks[t].lease;
      var r := SetLease(SetPhase(s, t, Settled(false)), l, s.objects[l].(releasing := None));
      Delivering(r, c, t + 1) && KeptBut(r, l)
  {
    var l := s.tasks[t].lease;
    var r := SetLease(SetPhase(s, t, Settled(false)), l, s.objects[l].(releasing := None));
    SweepsSurvive(s, r);
    assert KeptLease(s, l);
    forall m: nat | m < |s.objects| && m != l ensures KeptLease(r, m) {
      assert KeptLease(s, m);
      if Active(s, m) {
        var u: nat :| u < |s.tasks| && s.tasks[u].lease == m && !s.tasks[u].phase.Settled?;
        assert r.tasks[u] == s.tasks[u];
      }
    }
    forall u | 0 <= u < |r.tasks| && r.tasks[u].phase == Settled(true) ensures Done(r, r.tasks[u].lease) {
      assert Done(s, s.tasks[u].lease);
    }
  }

  /** `retain` touches neither tasks nor calls, so it keeps everything the tables do not decide. */
  lemma RetainFrame(s: Pool, key: Option<string>, l: nat)
    requires l < |s.objects| && WellFormed(s) && Truthful(s) && SweepsCover(s)
    requires key.Some? ==> s.objects[l].key == key.value
    ensures WellFormed(Retain(s, key, l)) && Truthful(Retain(s, key, l)) && SweepsCover(Retain(s, key, l))
    ensures forall m: nat | m < |s.objects| && Active(s, m) :: Active(Retain(s, key, l), m)
  {
    var r := Retain(s, key, l);
    SweepsSurvive(s, r);
    forall u | 0 <= u < |r.tasks| && r.tasks[u].phase == Settled(true) ensures Done(r, r.tasks[u].lease) {
      assert Done(s, s.tasks[u].lease);
    }
  }

  lemma RetainKeptBut(s: Pool, key: Option<string>, l: nat)
    requires l < |s.objects| && KeptBut(s, l)
    ensures Kept(Retain(s, key, l))
  {
    var r := Retain(s, key, l);
    RetainHolds(s, key, l);
    forall m: nat | m < |s.objects| ensures KeptLease(r, m) {
      assert m != l ==> KeptLease(s, m);
      assert Active(s, m) ==> Active(r, m);
    }
  }

  lemma RetainHanding(s: Pool, c: nat, t: nat, key: Option<string>, l: nat)
    requires l < |s.objects| && WellFormed(s) && WellFormed(Retain(s, key, l)) && Handing(s, c, t)
    ensures Handing(Retain(s, key, l), c, t)
  {
    var r := Retain(s, key, l);
    assert forall m | 0 <= m < |s.objects| :: r.objects[m] == s.objects[m].(retained := r.objects[m].retained);
  }

  lemma {:induction false} DeliverKeeps(s: Pool, c: nat, t: nat)
    requires Delivering(s, c, t) && Kept(s)
    ensures Inv(Deliver(s, c, t))
    decreases |s.tasks| - t
  {
    if t >= |s.tasks| {
    } else if s.tasks[t].phase == AwaitRelease(c) {
      ClearOneKeeps(s, c, t);
      var l := s.tasks[t].lease;
      var cleared := SetLease(SetPhase(s, t, Settled(false)), l, s.objects[l].(releasing := None));
      RetainFrame(cleared, s.tasks[t].key, l);
      RetainKeptBut(cleared, s.tasks[t].key, l);
      RetainHanding(cleared, c, t + 1, s.tasks[t].key, l);
      DeliverKeeps(Retain(cleared, s.tasks[t].key, l), c, t + 1);
    } else {
      DeliverKeeps(s, c, t + 1);
    }
  }

  // ---- releaseAll ----------------------------------------------------------------------------------

  /** During collection, the leases still to be collected may be without a holder and unmarked. */
  ghost predicate Collecting(s: Pool, entries: seq<(Option<string>, nat)>) {
    && WellFormed(s) && SingleFlight(s) && Truthful(s) && SweepsCover(s)
    && (forall e | e in entries :: e.1 < |s.objects| && (e.0.Some? ==> s.objects[e.1].key == e.0.value))
    && (forall m: nat | m < |s.objects| :: KeptLease(s, m) || exists e :: e in entries && e.1 == m)
  }

  lemma CollectKeeps(s: Pool, entries: seq<(Option<string>, nat)>)
    requires Collecting(s, entries) && entries != []
    ensures Collecting(Collect(s, entries[0].0, entries[0].1), entries[1..])
    ensures
      var r := Collect(s, entries[0].0, entries[0].1);
      |r.tasks| == |s.tasks| + 1 && r.tasks[..|s.tasks|] == s.tasks && r.sweeps == s.sweeps
      && r.tasks[|s.tasks|] == Task(entries[0].0, entries[0].1, AwaitPrewarm)
  {
    var l := entries[0].1;
    var r := Collect(s, entries[0].0, l);
    assert r.tasks[|s.tasks|].lease == l;
    assert forall t | 0 <= t < |s.tasks| :: r.tasks[t] == s.tasks[t];
    forall m: nat | m < |r.objects| ensures KeptLease(r, m) || exists e :: e in entries[1..] && e.1 == m {
      if m == l {
        assert Active(r, l);
      } else if KeptLease(s, m) {
        if Active(s, m) {
          var u: nat :| u < |s.tasks| && s.tasks[u].lease == m && !s.tasks[u].phase.Settled?;
          assert r.tasks[u] == s.tasks[u];
        }
        assert KeptLease(r, m);
      } else {
        var e :| e in entries && e.1 == m;
        assert e in entries[1..];
      }
    }
    forall u | 0 <= u < |r.tasks| && r.tasks[u].phase == Settled(true) ensures Done(r, r.tasks[u].lease) {
      assert Done(s, s.tasks[u].lease);
    }
    SweepsSurvive(s, r);
  }

  lemma {:induction false} CollectAllKeeps(s: Pool, entries: seq<(Option<string>, nat)>)
    requires Collecting(s, entries)
    ensures Inv(CollectAll(s, entries))
    decreases |entries|
  {
    if entries != [] {
      CollectKeeps(s, entries);
      CollectAllKeeps(Collect(s, entries[0].0, entries[0].1), entries[1..]);
    }
  }

  /** Collection starts one task per entry, in order. */
  lemma {:induction false} CollectAllTasks(s: Pool, entries: seq<(Option<string>, nat)>)
    requires forall e | e in entries :: e.1 < |s.objects|
    ensures CollectAll(s, entries).sweeps == s.sweeps
    ensures CollectAll(s, entries).tasks
      == s.tasks + seq(|entries|, i requires 0 <= i < |entries| => Task(entries[i].0, entries[i].1, AwaitPrewarm))
    decreases |entries|
  {
    if entries != [] {
      var next := Collect(s, entries[0].0, entries[0].1);
      assert next.tasks == s.tasks + [Task(entries[0].0, entries[0].1, AwaitPrewarm)] && next.sweeps == s.sweeps;
      assert entries[0] in entries && forall e | e in entries[1..] :: e in entries;
      CollectAllTasks(next, entries[1..]);
    }
  }

  /** Emptying both tables leaves exactly the collected leases to be looked after. */
  lemma EmptiedIsCollecting(s: Pool, order: seq<string>)
    requires Inv(s) && Enumerates(order, s.leases.Keys)
    ensures Collecting(s.(leases := map[], orphans := []), Entries(s, order))
  {
    var entries := Entries(s, order);
    var emptied := s.(leases := map[], orphans := []);
    forall m: nat | m < |s.objects| ensures KeptLease(emptied, m) || exists e :: e in entries && e.1 == m {
      assert KeptLease(s, m);
      if m in s.leases.Values {
        var k :| k in s.leases && s.leases[k] == m;
        var i :| 0 <= i < |order| && order[i] == k;
        assert entries[i] == (Some(k), m);
      } else if m in s.orphans {
        var i :| 0 <= i < |s.orphans| && s.orphans[i] == m;
        assert entries[|order| + i] == (None, m);
      } else {
        assert Active(s, m) ==> Active(emptied, m);
      }
    }
    forall u | 0 <= u < |s.tasks| && s.tasks[u].phase == Settled(true) ensures Done(emptied, s.tasks[u].lease) {
      assert Done(s, s.tasks[u].lease);
    }
    forall e | e in entries ensures e.1 < |s.objects| && (e.0.Some? ==> s.objects[e.1].key == e.0.value) {
      var i :| 0 <= i < |entries| && entries[i] == e;
      if i < |order| { assert order[i] in s.leases; }
    }
  }

  /** Recording the sweep: every collected lease has a task among the awaited ones. */
  lemma RecordSweepKeeps(after: Pool, first: nat, entries: seq<(Option<string>, nat)>)
    requires Inv(after) && |after.tasks| == first + |entries|
    requires forall i | 0 <= i < |entries| :: after.tasks[first + i] == Task(entries[i].0, entries[i].1, AwaitPrewarm)
    ensures Inv(after.(sweeps := after.sweeps + [Sweep(set e | e in entries :: e.1, ActiveTasks(after))]))
  {
    var r := after.(sweeps := after.sweeps + [Sweep(set e | e in entries :: e.1, ActiveTasks(after))]);
    forall m: nat | m < |r.objects| ensures KeptLease(r, m) {
      assert KeptLease(after, m);
      assert Active(after, m) ==> Active(r, m);
    }
    forall u | 0 <= u < |r.tasks| && r.tasks[u].phase == Settled(true) ensures Done(r, r.tasks[u].lease) {
      assert Done(after, after.tasks[u].lease);
    }
    forall w, m | 0 <= w < |r.sweeps| && m in r.sweeps[w].collected
      ensures exists t :: t in r.sweeps[w].tasks && t < |r.tasks| && r.tasks[t].lease == m
    {
      if w < |after.sweeps| {
        var t :| t in after.sweeps[w].tasks && t < |after.tasks| && after.tasks[t].lease == m;
      } else {
        var i :| 0 <= i < |entries| && entries[i].1 == m;
        assert first + i in ActiveTasks(after);
      }
    }
  }

  lemma SweepKeeps(s: Pool, order: seq<string>)
    requires Inv(s) && Enumerates(order, s.leases.Keys) && forall e | e in Entries(s, order) :: e.1 < |s.objects|
    ensures Inv(StartSweep(s, order))
  {
    var entries := Entries(s, order);
    var emptied := s.(leases := map[], orphans := []);
    EmptiedIsCollecting(s, order);
    CollectAllKeeps(emptied, entries);
    CollectAllTasks(emptied, entries);
    RecordSweepKeeps(CollectAll(emptied, entries), |s.tasks|, entries);
  }

  lemma ReleaseAllKeeps(cfg: Config, s: Pool, order: seq<string>)
    requires Inv(s) && Enabled(cfg, s, ReleaseAll(order))
    ensures Inv(Apply(cfg, s, ReleaseAll(order)))
  {
    SweepKeeps(s, order);
  }

  // ---- every run -----------------------------------------------------------------------------------

  predicate WarmStep(step: Step) {
    step.WarmFresh? || step.WarmTouch? || step.WarmRetire? || step.WarmResume? || step.WarmCatch?
  }

  lemma WarmStepKeeps(cfg: Config, s: Pool, step: Step)
    requires Inv(s) && Enabled(cfg, s, step) && NoOverwrite(s, step) && WarmStep(step)
    ensures Inv(Apply(cfg, s, step))
  {
    match step
    case WarmFresh(key, now, victims) => CreateKeeps(s, key, now, victims);
    case WarmTouch(key, now) => FlagsKeep(s, s.leases[key], s.objects[s.leases[key]].(touchedAt := now));
    case WarmRetire(key, now) => WarmRetireKeeps(cfg, s, key, now);
    case WarmResume(w, now, victims) => WarmResumeKeeps(cfg, s, w, now, victims);
    case WarmCatch(l) =>
      var key := s.objects[l].key;
      if key in s.leases && s.leases[key] == l { RemoveDoneKeeps(s, key); }
  }

  lemma WarmResumeKeeps(cfg: Config, s: Pool, w: nat, now: int, victims: seq<string>)
    requires Inv(s) && Enabled(cfg, s, WarmResume(w, now, victims)) && NoOverwrite(s, WarmResume(w, now, victims))
    ensures Inv(Apply(cfg, s, WarmResume(w, now, victims)))
  {
    ResumeFrees(s, w);
    CreateKeeps(Freed(s, w), s.waits[w].key, now, victims);
  }

  lemma RecycleKeeps(cfg: Config, s: Pool, key: string, now: int)
    requires Inv(s) && Enabled(cfg, s, Step.Recycle(key, now))
    ensures Inv(Apply(cfg, s, Step.Recycle(key, now)))
  {
    var cs := Trim(SetCooldown(s.cooldowns, key, now + cfg.cooldownMs), now, cfg.maxLeases);
    CooldownKeeps(s, cs);
    if key in s.leases { DetachKeeps(s.(cooldowns := cs), key); }
  }

  lemma SettleStepKeeps(cfg: Config, s: Pool, step: Step)
    requires Inv(s) && Enabled(cfg, s, step)
    requires step.TaskResumes? || step.TaskTimesOut? || step.CallFulfils? || step.CallRejects? || step.TaskReleased? || step.DeliverRejection?
    ensures Inv(Apply(cfg, s, step))
  {
    match step
    case TaskResumes(t, throws) => TaskResumesKeeps(cfg, s, t, throws);
    case TaskTimesOut(t) => TaskTimesOutKeeps(cfg, s, t);
    case CallFulfils(c) => CallEndsKeeps(s, c, Fulfilled);
    case CallRejects(c) => CallEndsKeeps(s, c, Rejected);
    case TaskReleased(t) => SucceedTaskKeeps(s, t);
    case DeliverRejection(c) => DeliverKeeps(s, c, 0);
  }

  lemma StepKeeps(cfg: Config, s: Pool, step: Step)
    requires Inv(s) && Enabled(cfg, s, step) && NoOverwrite(s, step)
    ensures Inv(Apply(cfg, s, step))
  {
    match step
    case Recycle(key, now) => RecycleKeeps(cfg, s, key, now);
    case ReleaseAll(order) => ReleaseAllKeeps(cfg, s, order);
    case PrewarmLands(l, handle) => PrewarmLandsKeeps(cfg, s, l, handle);
    case PrewarmFails(l) => PrewarmFailsKeeps(cfg, s, l);
    case _ => if WarmStep(step) { WarmStepKeeps(cfg, s, step); } else { SettleStepKeeps(cfg, s, step); }
  }

  /** A run from the empty pool in which no resumed `warm` overwrites a live lease. */
  ghost predicate Reaches(cfg: Config, steps: seq<Step>, s: Pool)
    decreases |steps|
  {
    if steps == [] then s == Empty
    else
      var k := |steps| - 1;
      exists p :: Reaches(cfg, steps[..k], p) && Enabled(cfg, p, steps[k]) && NoOverwrite(p, steps[k])
        && s == Apply(cfg, p, steps[k])
  }

  lemma {:induction false} RunKeeps(cfg: Config, steps: seq<Step>, s: Pool)
    requires Reaches(cfg, steps, s)
    ensures Inv(s)
    decreases |steps|
  {
    if steps != [] {
      var k := |steps| - 1;
      var p :| Reaches(cfg, steps[..k], p) && Enabled(cfg, p, steps[k]) && NoOverwrite(p, steps[k])
        && s == Apply(cfg, p, steps[k]);
      RunKeeps(cfg, steps[..k], p);
      StepKeeps(cfg, p, steps[k]);
    }
  }

  /** Conservation: a handle that was obtained is in a table, with an active task, or given back. */
  lemma HandleIsNeverLost(cfg: Config, steps: seq<Step>, s: Pool, l: nat)
    requires Reaches(cfg, steps, s) && l < |s.objects| && s.objects[l].prewarm == Landed(true)
    ensures
      || (exists k :: k in s.leases && s.leases[k] == l)
      || l in s.orphans
      || (exists t: nat :: t < |s.tasks| && s.tasks[t].lease == l && !s.tasks[t].phase.Settled?)
      || (exists c: nat :: c < |s.calls| && s.calls[c].lease == l && s.calls[c].status.Fulfilled?)
  {
    RunKeeps(cfg, steps, s);
    assert KeptLease(s, l);
    if l in s.leases.Values {
      var k :| k in s.leases && s.leases[k] == l;
    }
  }

  /** Release calls of one lease never overlap: a later call exists only once the earlier was rejected. */
  lemma ReleaseIsSingleFlight(cfg: Config, steps: seq<Step>, s: Pool, c: nat, d: nat)
    requires Reaches(cfg, steps, s) && c < d < |s.calls| && s.calls[c].lease == s.calls[d].lease
    ensures s.calls[c].status.Rejected?
  {
    RunKeeps(cfg, steps, s);
  }

  /** `releaseAll` reports ok only if every lease it collected was released or never had a handle. */
  lemma ReleaseAllReportsHonestly(cfg: Config, steps: seq<Step>, s: Pool, w: nat, l: nat)
    requires Reaches(cfg, steps, s) && w < |s.sweeps| && l in s.sweeps[w].collected
    requires forall t | t in s.sweeps[w].tasks && t < |s.tasks| :: s.tasks[t].phase == Settled(true)
    ensures l < |s.objects|
    ensures s.objects[l].prewarm == Landed(true) ==> Released(s, l)
    ensures !s.objects[l].prewarm.Running?
  {
    RunKeeps(cfg, steps, s);
    var t :| t in s.sweeps[w].tasks && t < |s.tasks| && s.tasks[t].lease == l;
    assert Done(s, s.tasks[t].lease);
  }

  // ---- the hypothesis is exact: an overwritten live lease can be lost --------------------------

  /** The handle of `l` exists, was not given back, and nothing refers to `l` any more. */
  ghost predicate Lost(s: Pool, l: nat) {
    l < |s.objects| && s.objects[l].prewarm == Landed(true) && !Released(s, l) && !InTable(s, l) && !Active(s, l)
  }

  ghost predicate Doomed(s: Pool, l: nat) {
    && WellFormed(s) && l < |s.objects| && !Done(s, l) && !InTable(s, l)
    && (s.objects[l].retained || (s.objects[l].prewarm == Landed(true) && !Active(s, l)))
  }

  /** `steps` is a possible continuation from `s` to `r`. */
  ghost predicate Leads(cfg: Config, s: Pool, steps: seq<Step>, r: Pool)
    decreases |steps|
  {
    if steps == [] then s == r
    else Enabled(cfg, s, steps[0]) && Leads(cfg, Apply(cfg, s, steps[0]), steps[1..], r)
  }

  ghost function Holders(s: Pool, l: nat): set<nat> {
    set t: nat | t < |s.tasks| && s.tasks[t].lease == l && !s.tasks[t].phase.Settled?
  }

  lemma DoomedLands(cfg: Config, s: Pool, l: nat)
    requires Doomed(s, l) && s.objects[l].prewarm.Running?
    ensures Enabled(cfg, s, PrewarmLands(l, true)) && Doomed(Apply(cfg, s, PrewarmLands(l, true)), l)
    ensures Apply(cfg, s, PrewarmLands(l, true)).objects[l].prewarm == Landed(true)
  {
    var landed := SetLease(s, l, s.objects[l].(prewarm := Landed(true)));
    var next := Apply(cfg, s, PrewarmLands(l, true));
    assert next == TrackSettle(landed, Some(s.objects[l].key), l);
    assert forall c | 0 <= c < |s.calls| :: next.calls[c] == s.calls[c];
  }

  lemma DoomedTimesOut(cfg: Config, s: Pool, l: nat, t: nat)
    requires Doomed(s, l) && s.objects[l].prewarm == Landed(true)
    requires t < |s.tasks| && s.tasks[t].lease == l && !s.tasks[t].phase.Settled?
    ensures Enabled(cfg, s, TaskTimesOut(t)) && Doomed(Apply(cfg, s, TaskTimesOut(t)), l)
    ensures Apply(cfg, s, TaskTimesOut(t)).objects[l].prewarm == Landed(true)
    ensures Holders(Apply(cfg, s, TaskTimesOut(t)), l) == Holders(s, l) - {t}
  {
    var next := Apply(cfg, s, TaskTimesOut(t));
    assert next == SetPhase(s, t, Settled(false));
  }

  lemma LeadsOn(cfg: Config, s: Pool, step: Step, rest: seq<Step>, r: Pool)
    requires Enabled(cfg, s, step) && Leads(cfg, Apply(cfg, s, step), rest, r)
    ensures Leads(cfg, s, [step] + rest, r)
  {
    assert ([step] + rest)[1..] == rest;
  }

  /** A lease marked retained but in no table is lost as soon as its tasks have timed out. */
  lemma {:induction false} LandedLeaks(cfg: Config, s: Pool, l: nat) returns (steps: seq<Step>, r: Pool)
    requires Doomed(s, l) && s.objects[l].prewarm == Landed(true)
    ensures Leads(cfg, s, steps, r) && Lost(r, l)
    decreases |Holders(s, l)|
  {
    if Active(s, l) {
      var t: nat :| t < |s.tasks| && s.tasks[t].lease == l && !s.tasks[t].phase.Settled?;
      DoomedTimesOut(cfg, s, l, t);
      assert t in Holders(s, l);
      var rest;
      rest, r := LandedLeaks(cfg, Apply(cfg, s, TaskTimesOut(t)), l);
      LeadsOn(cfg, s, TaskTimesOut(t), rest, r);
      steps := [TaskTimesOut(t)] + rest;
    } else {
      steps, r := [], s;
    }
  }

  lemma DoomedLeaks(cfg: Config, s: Pool, l: nat) returns (steps: seq<Step>, r: Pool)
    requires Doomed(s, l)
    ensures Leads(cfg, s, steps, r) && Lost(r, l)
  {
    if s.objects[l].prewarm.Running? {
      var step := PrewarmLands(l, true);
      DoomedLands(cfg, s, l);
      var rest;
      rest, r := LandedLeaks(cfg, Apply(cfg, s, step), l);
      LeadsOn(cfg, s, step, rest, r);
      steps := [step] + rest;
    } else {
      steps, r := LandedLeaks(cfg, s, l);
    }
  }

  lemma {:induction false} EvictAllKeepsDoomed(s: Pool, victims: seq<string>, l: nat)
    requires Doomed(s, l)
    ensures Doomed(EvictAll(s, victims), l)
    decreases |victims|
  {
    if victims != [] && victims[0] in s.leases {
      var next := Detach(s, victims[0]);
      assert s.leases[victims[0]] in s.leases.Values;
      assert next.calls == s.calls && next.objects[l] == s.objects[l];
      assert forall m | m in next.leases.Values :: m in s.leases.Values;
      if Active(next, l) {
        var t: nat :| t < |next.tasks| && next.tasks[t].lease == l && !next.tasks[t].phase.Settled?;
        assert s.tasks[t] == next.tasks[t];
      }
      EvictAllKeepsDoomed(next, victims[1..], l);
    }
  }

  /** The pool right after the overwrite. */
  ghost function Overwritten(s: Pool, w: nat, now: int): Pool
    requires w < |s.waits|
  {
    var wait := s.waits[w];
    var lease := Lease(wait.key, Running, now, false, false, None);
    s.(waits := s.waits[w := wait.(resumed := true)],
       objects := s.objects + [lease], leases := AfterRetired(s, wait)[wait.key := |s.objects|])
  }

  lemma OverwrittenIsDoomed(s: Pool, w: nat, now: int, l: nat)
    requires Inv(s) && w < |s.waits| && s.waits[w].key in AfterRetired(s, s.waits[w])
    requires l == AfterRetired(s, s.waits[w])[s.waits[w].key] && l < |s.objects| && !Expendable(s, l)
    ensures Doomed(Overwritten(s, w, now), l)
  {
    var created := Overwritten(s, w, now);
    assert s.leases[s.waits[w].key] == l;
    assert KeptLease(s, l);
    assert s.objects[l].prewarm.Running? ==> !Released(s, l);
    assert Active(created, l) ==> Active(s, l);
  }

  /** If a resumed `warm` does overwrite a live lease, some continuation loses that lease's handle. */
  lemma OverwriteLosesHandle(cfg: Config, s: Pool, w: nat, now: int, victims: seq<string>)
    returns (steps: seq<Step>, r: Pool)
    requires Inv(s) && Enabled(cfg, s, WarmResume(w, now, victims)) && !NoOverwrite(s, WarmResume(w, now, victims))
    ensures Leads(cfg, Apply(cfg, s, WarmResume(w, now, victims)), steps, r)
    ensures Lost(r, AfterRetired(s, s.waits[w])[s.waits[w].key])
  {
    var l := AfterRetired(s, s.waits[w])[s.waits[w].key];
    var created := Overwritten(s, w, now);
    OverwrittenIsDoomed(s, w, now, l);
    EvictAllKeepsDoomed(created, victims, l);
    assert Apply(cfg, s, WarmResume(w, now, victims)) == EvictAll(created, victims);
    steps, r := DoomedLeaks(cfg, EvictAll(created, victims), l);
  }

  // ---- bounds ----------------------------------------------------------------------------------------

  /** Eviction brings the table down to the bound, and never takes the entry just created. */
  lemma {:induction false} EvictionBounds(s: Pool, keep: string, max: nat, victims: seq<string>)
    requires LegalVictims(s, keep, max, victims) && keep in s.leases
    ensures
      var r := EvictAll(s, victims);
      && keep in r.leases && r.leases[keep] == s.leases[keep]
      && |r.leases| <= (if max >= 1 then max else 1)
      && r.leases.Keys <= s.leases.Keys
    decreases |victims|
  {
    if victims == [] {
      if |s.leases| > max {
        assert s.leases.Keys == {keep};
        assert |s.leases| == |s.leases.Keys| == 1;
      }
    } else {
      EvictionBounds(Detach(s, victims[0]), keep, max, victims[1..]);
    }
  }

  /** Setting a cooldown replaces the entry in place, or appends one for a key that had none. */
  lemma {:induction false} CooldownAfterSet(cs: seq<Cooldown>, key: string, until: int)
    ensures
      var r := SetCooldown(cs, key, until);
      && CooldownUntil(r, key) == until
      && (|r| == |cs| || (r == cs + [Cooldown(key, until)] && forall c | c in cs :: c.key != key))
  {
    if cs != [] && cs[0].key != key { CooldownAfterSet(cs[1..], key, until); }
  }

  lemma {:induction false} UnexpiredKeeps(cs: seq<Cooldown>, now: int, key: string)
    requires CooldownUntil(cs, key) > now && now >= 0
    ensures CooldownUntil(Unexpired(cs, now), key) == CooldownUntil(cs, key)
    ensures |Unexpired(cs, now)| <= |cs|
  {
    if cs != [] && cs[0].key != key {
      UnexpiredKeeps(cs[1..], now, key);
      var rest := Unexpired(cs[1..], now);
      assert ([cs[0]] + rest)[1..] == rest && [] + rest == rest;
    } else if cs != [] {
      UnexpiredShrinks(cs[1..], now);
    }
  }

  lemma {:induction false} UnexpiredShrinks(cs: seq<Cooldown>, now: int)
    ensures |Unexpired(cs, now)| <= |cs|
    ensures forall c | c in Unexpired(cs, now) :: c in cs
  {
    if cs != [] { UnexpiredShrinks(cs[1..], now); }
  }

  lemma {:induction false} UnexpiredAppend(cs: seq<Cooldown>, c: Cooldown, now: int)
    ensures Unexpired(cs + [c], now) == Unexpired(cs, now) + Unexpired([c], now)
  {
    if cs != [] {
      assert (cs + [c])[1..] == cs[1..] + [c];
      UnexpiredAppend(cs[1..], c, now);
    }
  }

  lemma {:induction false} CooldownOfLast(cs: seq<Cooldown>, c: Cooldown)
    requires forall d | d in cs :: d.key != c.key
    ensures CooldownUntil(cs + [c], c.key) == c.until
  {
    if cs != [] {
      assert (cs + [c])[1..] == cs[1..] + [c];
      CooldownOfLast(cs[1..], c);
    }
  }

  /** The table stays bounded, yet the key just recycled always keeps its cooldown. */
  lemma TrimSparesRecycled(cs: seq<Cooldown>, key: string, now: int, until: int, max: nat)
    requires |cs| <= 4 * max && max >= 1 && 0 <= now < until
    ensures
      var r := Trim(SetCooldown(cs, key, until), now, max);
      |r| <= 4 * max && CooldownUntil(r, key) == until
  {
    var set1 := SetCooldown(cs, key, until);
    var live := Unexpired(set1, now);
    CooldownAfterSet(cs, key, until);
    UnexpiredKeeps(set1, now, key);
    if |live| > 4 * max {
      var c := Cooldown(key, until);
      UnexpiredAppend(cs, c, now);
      assert Unexpired([c], now) == [c] + Unexpired([], now) == [c];
      UnexpiredShrinks(cs, now);
      var kept := LastN(live, 4 * max);
      assert kept == Unexpired(cs, now)[|live| - 4 * max..] + [c];
      CooldownOfLast(Unexpired(cs, now)[|live| - 4 * max..], c);
    }
  }
}
