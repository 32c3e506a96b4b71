/** Runs from the empty hub to the uses that lose calls: the hypotheses of the ledger exclude states that do occur. */
module SessionHubHazards {
  import opened Prelude
  import opened ToolCallIds
  import opened SessionHub
  import opened SessionHubProofs
  import opened SessionHubSteps

  ghost predicate Takes(cfg: Config, s: Hub, at: Timed, r: Hub) {
    Enabled(s, at.now, at.step) && Careful(s, at.step) && Apply(cfg, s, at.now, at.step) == r
  }

  lemma ReachesNext(cfg: Config, steps: seq<Timed>, s: Hub, at: Timed, r: Hub)
    requires Reaches(cfg, steps, s) && Takes(cfg, s, at, r)
    ensures Reaches(cfg, steps + [at], r)
  {
    assert (steps + [at])[..|steps|] == steps && (steps + [at])[|steps|] == at;
  }

  /** One session that runs. */
  function One(sid: string): Hub {
    Hub(map[sid := NewSlot(Running)], [sid], map[], 0, [], 0)
  }

  /** It has one pending call. */
  function OnePending(cfg: Config, sid: string, id: string): Hub {
    var slot := Held(NewSlot(Running), id, NewHold(cfg, 0, None, false, 0), Aliased([], id));
    Hub(map[sid := slot], [sid], map[], 1, [], 0)
  }

  lemma OneIsReached(cfg: Config, sid: string)
    requires cfg.maxLive >= 1
    ensures Reaches(cfg, [Timed(0, PutNew(sid, Running))], One(sid))
  {
    assert Apply(cfg, Empty, 0, PutNew(sid, Running)) == One(sid);
    ReachesNext(cfg, [], Empty, Timed(0, PutNew(sid, Running)), One(sid));
    assert [] + [Timed(0, PutNew(sid, Running))] == [Timed(0, PutNew(sid, Running))];
  }

  lemma OnePendingIsReached(cfg: Config, sid: string, id: string) returns (steps: seq<Timed>)
    requires cfg.maxLive >= 1
    ensures Reaches(cfg, steps, OnePending(cfg, sid, id)) && Pending(OnePending(cfg, sid, id), sid, id)
    ensures SerialOf(OnePending(cfg, sid, id), sid, id) == 0
  {
    OneIsReached(cfg, sid);
    var at := Timed(0, RegisterHold(sid, id, None, false));
    ReachesNext(cfg, [Timed(0, PutNew(sid, Running))], One(sid), at, OnePending(cfg, sid, id));
    steps := [Timed(0, PutNew(sid, Running))] + [at];
  }

  /** A run of careful uses, one more registration of the pending id or one more `put` over it, and the call is gone. */
  lemma LosingIsReached(cfg: Config, sid: string, id: string) returns (steps: seq<Timed>, s: Hub)
    requires cfg.maxLive >= 1
    ensures Reaches(cfg, steps, s) && Pending(s, sid, id)
    ensures
      var again, over := RegisterHold(sid, id, None, false), PutNew(sid, Running);
      && Enabled(s, 0, again) && !Careful(s, again) && Enabled(s, 0, over) && !Careful(s, over)
      && !IsSettled(Apply(cfg, s, 0, again), 0) && !IsPending(Apply(cfg, s, 0, again), 0)
      && !IsSettled(Apply(cfg, s, 0, over), 0) && !IsPending(Apply(cfg, s, 0, over), 0)
  {
    s := OnePending(cfg, sid, id);
    steps := OnePendingIsReached(cfg, sid, id);
    RunKeeps(cfg, steps, s);
    SecondRegistrationLosesCall(cfg, s, 0, sid, id, None, false);
    OverwritingPutLosesCalls(cfg, s, 0, sid, Running, id);
  }

  /** With timers: the slot waits without a call, is replaced, and the old timer drops the new one. */
  lemma StaleTimerIsReached(cfg: Config, sid: string) returns (steps: seq<Timed>, s: Hub)
    requires cfg.maxLive >= 1 && cfg.timers
    ensures Reaches(cfg, steps, s) && sid in s.timers
    ensures
      var over := PutNew(sid, Running);
      var r := Apply(cfg, s, 0, over);
      var later := if 0 >= s.timers[sid] then 0 else s.timers[sid];
      && Enabled(s, 0, over) && !Careful(s, over) && r.slots[sid].state.Running?
      && Enabled(r, later, TimerFires(sid)) && sid !in Apply(cfg, r, later, TimerFires(sid)).slots
  {
    OneIsReached(cfg, sid);
    var at := Timed(0, BeginAwaiting(sid));
    s := Apply(cfg, One(sid), 0, BeginAwaiting(sid));
    ReachesNext(cfg, [Timed(0, PutNew(sid, Running))], One(sid), at, s);
    steps := [Timed(0, PutNew(sid, Running))] + [at];
    RunKeeps(cfg, steps, s);
    StaleTimerDropsRunningSlot(cfg, s, 0, sid);
  }
}
