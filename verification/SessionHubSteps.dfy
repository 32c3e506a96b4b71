/** Every step of the hub keeps its invariant, and what that means for calls and slots over whole runs. */
module SessionHubSteps {
  import opened Prelude
  import opened ToolCallIds
  import opened SessionHub
  import opened SessionHubProofs

  lemma StoreLedger(s: Hub, sid: string, slot: Slot, timers: map<string, int>, now: int)
    requires Ledger(s)
    requires slot.pending == if sid in s.slots then s.slots[sid].pending else map[]
    ensures Ledger(Store(s.(timers := timers), sid, slot, now).(clock := now))
  {
    LedgerFrame(s, Store(s.(timers := timers), sid, slot, now).(clock := now));
  }

  /** Storing a slot whose calls are unchanged. */
  lemma StoreKeeps(cfg: Config, s: Hub, sid: string, slot: Slot, timers: map<string, int>, now: int)
    requires Inv(cfg, s) && now >= s.clock && SlotFits(slot) && SlotDue(slot)
    requires slot.pending == if sid in s.slots then s.slots[sid].pending else map[]
    requires forall k | k in timers && k != sid :: k in s.timers && s.timers[k] == timers[k]
    requires sid in timers ==> slot.state.AwaitingTools? && slot.holdDeadline == Some(timers[sid])
    requires sid in s.slots || |s.slots| < cfg.maxLive
    ensures Inv(cfg, Store(s.(timers := timers), sid, slot, now).(clock := now))
  {
    StoreShape(cfg, s, sid, slot, timers, now);
    StoreLedger(s, sid, slot, timers, now);
  }

  lemma EnterKeeps(cfg: Config, s: Hub, sid: string, slot: Slot, now: int)
    requires Inv(cfg, s) && now >= s.clock && SlotFits(slot) && SlotDue(slot)
    requires sid in s.slots && slot.pending == s.slots[sid].pending
    ensures Inv(cfg, Enter(cfg, s, sid, slot, now).(clock := now))
  {
    StoreKeeps(cfg, s, sid, slot, Timers(cfg, s.timers, sid, slot), now);
  }

  lemma ClockKeeps(cfg: Config, s: Hub, now: int)
    requires Inv(cfg, s) && now >= s.clock
    ensures Inv(cfg, s.(clock := now))
  {
    LedgerFrame(s, s.(clock := now));
    ByRecencyLater(s.slots, s.order, s.clock, now);
  }

  lemma {:induction false} ByRecencyLater(slots: map<string, Slot>, order: seq<string>, clock: int, now: int)
    requires ByRecency(slots, order, clock) && clock <= now
    ensures ByRecency(slots, order, now)
  {
    if order != [] { ByRecencyLater(slots, order[1..], clock, now); }
  }

  lemma TouchKeeps(cfg: Config, s: Hub, sid: string, now: int)
    requires Inv(cfg, s) && now >= s.clock
    ensures Inv(cfg, Touch(s, sid, now).(clock := now))
  {
    if sid in s.slots {
      StoreKeeps(cfg, s, sid, s.slots[sid], s.timers, now);
      assert s.(timers := s.timers) == s;
    } else {
      ClockKeeps(cfg, s, now);
    }
  }

  lemma DropKeeps(cfg: Config, s: Hub, sid: string)
    requires Inv(cfg, s)
    ensures Inv(cfg, DropSlot(s, sid))
  {
    DropKeepsLedger(s, sid);
    if sid in s.slots {
      var r := DropSlot(s, sid);
      ByRecencyWithout(s.slots, s.order, s.clock, sid, r.slots, s.clock);
      assert r.slots.Keys == s.slots.Keys - {sid};
    }
  }

  lemma {:induction false} DropAllKeeps(cfg: Config, s: Hub, sids: seq<string>)
    requires Inv(cfg, s)
    ensures Inv(cfg, DropAll(s, sids))
    decreases |sids|
  {
    if sids != [] {
      DropKeeps(cfg, s, sids[0]);
      DropAllKeeps(cfg, DropSlot(s, sids[0]), sids[1..]);
    }
  }

  lemma {:induction false} EvictKeeps(cfg: Config, s: Hub, keep: string)
    requires Inv(cfg, s)
    ensures Inv(cfg, EvictToFit(cfg, s, keep))
    ensures EvictToFit(cfg, s, keep).clock == s.clock && EvictToFit(cfg, s, keep).slots.Keys <= s.slots.Keys
    decreases |s.slots|
  {
    if |s.slots| >= cfg.maxLive && PickVictim(s, keep).Some? {
      var victim := PickVictim(s, keep).value;
      DropKeeps(cfg, s, victim);
      assert DropSlot(s, victim).slots.Keys == s.slots.Keys - {victim};
      EvictKeeps(cfg, DropSlot(s, victim), keep);
    }
  }

  /** Changing one slot in place; its timer is set to match or cleared. */
  lemma UpdateShape(cfg: Config, s: Hub, sid: string, slot: Slot, timers: map<string, int>)
    requires Shape(cfg, s) && sid in s.slots && SlotFits(slot) && SlotDue(slot)
    requires slot.lastUsedAt == s.slots[sid].lastUsedAt
    requires forall k | k in timers && k != sid :: k in s.timers && s.timers[k] == timers[k]
    requires sid in timers ==> slot.state.AwaitingTools? && slot.holdDeadline == Some(timers[sid])
    ensures Shape(cfg, s.(slots := s.slots[sid := slot], timers := timers))
  {
    var r := s.(slots := s.slots[sid := slot], timers := timers);
    SameRecency(s.slots, r.slots, s.order, s.clock);
    assert r.slots.Keys == s.slots.Keys;
    assert WellFormed(r);
    assert AllDue(r) by {
      forall k | k in r.slots ensures SlotDue(r.slots[k]) {
        if k != sid { assert SlotDue(s.slots[k]); }
      }
    }
  }

  lemma {:induction false} SameRecency(slots: map<string, Slot>, slots': map<string, Slot>, order: seq<string>, clock: int)
    requires ByRecency(slots, order, clock) && slots.Keys == slots'.Keys
    requires forall k | k in slots :: slots'[k].lastUsedAt == slots[k].lastUsedAt
    ensures ByRecency(slots', order, clock)
  {
    if order != [] { SameRecency(slots, slots', order[1..], clock); }
  }

  lemma RefreshedDue(cfg: Config, slot: Slot, now: int)
    requires SlotFits(slot)
    ensures SlotFits(Refreshed(cfg, slot, now)) && SlotDue(Refreshed(cfg, slot, now))
  {
    MaxDeadlineLemma(slot.pendingOrder, slot.pending);
  }

  lemma AfterCallDue(cfg: Config, slot: Slot, id: string, now: int)
    requires SlotFits(slot) && SlotDue(slot)
    ensures SlotFits(AfterCall(cfg, slot, id, now)) && SlotDue(AfterCall(cfg, slot, id, now))
    ensures SlotFits(Uncalled(slot, id)) && (!slot.state.AwaitingTools? ==> SlotDue(Uncalled(slot, id)))
  {
    WithoutLemma(slot.pendingOrder, id);
    RefreshedDue(cfg, Uncalled(slot, id), now);
  }

  lemma SettleShape(cfg: Config, s: Hub, sid: string, id: string, resolved: bool, now: int)
    requires Shape(cfg, s) && now >= s.clock && Pending(s, sid, id)
    ensures Shape(cfg, Settle(cfg, s, sid, id, resolved, now).(clock := now))
  {
    var slot := s.slots[sid];
    AfterCallDue(cfg, slot, id, now);
    if slot.state.AwaitingTools? {
      var next := AfterCall(cfg, slot, id, now);
      StoreShape(cfg, s, sid, next, Timers(cfg, s.timers, sid, next), now);
    } else {
      StoreShape(cfg, s, sid, Uncalled(slot, id), s.timers, now);
    }
  }

  lemma SettleMoves(cfg: Config, s: Hub, sid: string, id: string, resolved: bool, now: int)
    requires Pending(s, sid, id)
    ensures
      var r := Settle(cfg, s, sid, id, resolved, now);
      && r.next == s.next && r.settled == s.settled + [Settlement(SerialOf(s, sid, id), resolved)]
      && (forall tid, jd :: Pending(r, tid, jd) <==> Pending(s, tid, jd) && !(tid == sid && jd == id))
      && (forall tid, jd | Pending(r, tid, jd) :: SerialOf(r, tid, jd) == SerialOf(s, tid, jd))
  {
    var slot := s.slots[sid];
    assert AfterCall(cfg, slot, id, now).pending == slot.pending - {id} == Uncalled(slot, id).pending
      || !slot.state.AwaitingTools?;
    var r := Settle(cfg, s, sid, id, resolved, now);
    assert r.slots[sid].pending == slot.pending - {id};
  }

  lemma SettleKeeps(cfg: Config, s: Hub, sid: string, id: string, resolved: bool, now: int)
    requires Inv(cfg, s) && now >= s.clock && Pending(s, sid, id)
    ensures Inv(cfg, Settle(cfg, s, sid, id, resolved, now).(clock := now))
  {
    SettleShape(cfg, s, sid, id, resolved, now);
    SettleMoves(cfg, s, sid, id, resolved, now);
    var r := Settle(cfg, s, sid, id, resolved, now);
    SettleOneKeepsLedger(s, r, sid, id, resolved);
    LedgerFrame(r, r.(clock := now));
  }

  // ---- steps ------------------------------------------------------------------------------------------------

  /** The two uses the ledger excludes: an id registered twice, and a waiting slot overwritten by `put`. */
  predicate Careful(s: Hub, step: Step) {
    match step
    case RegisterHold(sid, id, _, _) => !Pending(s, sid, id)
    case PutNew(sid, _) => sid in s.slots ==> s.slots[sid].pending == map[] && sid !in s.timers
    case _ => true
  }

  lemma SameShape(cfg: Config, s: Hub, r: Hub)
    requires Shape(cfg, s) && r.slots == s.slots && r.order == s.order && r.timers == s.timers && r.clock == s.clock
    ensures Shape(cfg, r)
  {
  }

  lemma HeldFits(slot: Slot, id: string, hold: Hold, aliases: seq<Alias>)
    requires SlotFits(slot)
    ensures SlotFits(Held(slot, id, hold, aliases))
  {
  }

  /** Adding one call to a slot; what becomes of its aliases does not matter here. */
  lemma PendShape(cfg: Config, s: Hub, sid: string, id: string, hold: Hold, aliases: seq<Alias>, now: int)
    requires Shape(cfg, s) && sid in s.slots && id !in s.slots[sid].pending
    ensures Shape(cfg, Pend(cfg, s, sid, id, hold, aliases, now))
  {
    var slot := s.slots[sid];
    var held := Held(slot, id, hold, aliases);
    assert SlotFits(slot);
    HeldFits(slot, id, hold, aliases);
    if slot.state.AwaitingTools? {
      RefreshedDue(cfg, held, now);
      var next := Refreshed(cfg, held, now);
      UpdateShape(cfg, s, sid, next, Timers(cfg, s.timers, sid, next));
      SameShape(cfg, s.(slots := s.slots[sid := next], timers := Timers(cfg, s.timers, sid, next)),
                Pend(cfg, s, sid, id, hold, aliases, now));
    } else {
      UpdateShape(cfg, s, sid, held, s.timers);
      SameShape(cfg, s.(slots := s.slots[sid := held], timers := s.timers), Pend(cfg, s, sid, id, hold, aliases, now));
    }
  }

  lemma PendMoves(cfg: Config, s: Hub, sid: string, id: string, hold: Hold, aliases: seq<Alias>, now: int)
    requires sid in s.slots && !Pending(s, sid, id)
    ensures
      var r := Pend(cfg, s, sid, id, hold, aliases, now);
      && r.next == s.next + 1 && r.settled == s.settled && r.clock == s.clock
      && (forall tid, jd :: Pending(r, tid, jd) <==> Pending(s, tid, jd) || (tid == sid && jd == id))
      && SerialOf(r, sid, id) == hold.serial
      && (forall tid, jd | Pending(s, tid, jd) :: SerialOf(r, tid, jd) == SerialOf(s, tid, jd))
  {
    var r := Pend(cfg, s, sid, id, hold, aliases, now);
    assert r.slots[sid].pending == s.slots[sid].pending[id := hold];
  }

  lemma PendKeeps(cfg: Config, s: Hub, sid: string, id: string, hold: Hold, aliases: seq<Alias>, now: int)
    requires Inv(cfg, s) && sid in s.slots && id !in s.slots[sid].pending && hold.serial == s.next
    ensures Inv(cfg, Pend(cfg, s, sid, id, hold, aliases, now))
    ensures Pend(cfg, s, sid, id, hold, aliases, now).clock == s.clock
  {
    PendShape(cfg, s, sid, id, hold, aliases, now);
    PendMoves(cfg, s, sid, id, hold, aliases, now);
    PendOneKeepsLedger(s, Pend(cfg, s, sid, id, hold, aliases, now), sid, id);
  }

  lemma RegisterKeeps(cfg: Config, s: Hub, sid: string, id: string, ttl: Option<int>, delegated: bool, now: int)
    requires Inv(cfg, s) && !Pending(s, sid, id)
    ensures Inv(cfg, Register(cfg, s, sid, id, ttl, delegated, now))
    ensures Register(cfg, s, sid, id, ttl, delegated, now).clock == s.clock
  {
    if sid in s.slots {
      PendKeeps(cfg, s, sid, id, NewHold(cfg, s.next, ttl, delegated, now), Aliased(s.slots[sid].aliases, id), now);
    } else {
      SameShape(cfg, s, Register(cfg, s, sid, id, ttl, delegated, now));
      RefuseKeepsLedger(s, Register(cfg, s, sid, id, ttl, delegated, now));
    }
  }

  lemma PutNewKeeps(cfg: Config, s: Hub, sid: string, state: SlotState, now: int)
    requires Inv(cfg, s) && now >= s.clock && Careful(s, PutNew(sid, state))
    ensures Inv(cfg, Apply(cfg, s, now, PutNew(sid, state)))
  {
    if sid in s.slots {
      StoreKeeps(cfg, s, sid, NewSlot(state), s.timers, now);
      assert s.(timers := s.timers) == s;
    } else {
      EvictKeeps(cfg, s, sid);
      var fitted := EvictToFit(cfg, s, sid);
      if |fitted.slots| >= cfg.maxLive {
        ClockKeeps(cfg, fitted, now);
      } else {
        StoreKeeps(cfg, fitted, sid, NewSlot(state), fitted.timers, now);
        assert fitted.(timers := fitted.timers) == fitted;
      }
    }
  }

  /** Clearing a timer. */
  lemma ClearTimerKeeps(cfg: Config, s: Hub, sid: string)
    requires Inv(cfg, s)
    ensures Inv(cfg, s.(timers := s.timers - {sid}))
  {
    var r := s.(timers := s.timers - {sid});
    LedgerFrame(s, r);
    assert AllDue(r) && WellFormed(r);
  }

  lemma ResolveKeeps(cfg: Config, s: Hub, sid: string, clientId: string, now: int)
    requires Inv(cfg, s) && now >= s.clock
    ensures Inv(cfg, Apply(cfg, s, now, ResolvePending(sid, clientId)))
  {
    if sid in s.slots {
      var id := CanonicalHoldId(s.slots[sid].pendingOrder, s.slots[sid].aliases, clientId);
      if id.Some? && Pending(s, sid, id.value) { SettleKeeps(cfg, s, sid, id.value, true, now); }
    }
    ClockKeeps(cfg, s, now);
  }

  lemma MarkKeeps(cfg: Config, s: Hub, sid: string, state: SlotState, now: int)
    requires Inv(cfg, s) && now >= s.clock && sid in s.slots && !state.AwaitingTools?
    ensures Inv(cfg, Enter(cfg, s, sid, Left(s.slots[sid], state), now).(clock := now))
  {
    assert SlotFits(s.slots[sid]);
    EnterKeeps(cfg, s, sid, Left(s.slots[sid], state), now);
  }

  lemma AwaitedSlot(cfg: Config, s: Hub, sid: string, now: int)
    requires Inv(cfg, s) && sid in s.slots
    ensures
      var slot := Refreshed(cfg, s.slots[sid].(state := AwaitingTools), now);
      SlotFits(slot) && SlotDue(slot) && slot.pending == s.slots[sid].pending
  {
    assert SlotFits(s.slots[sid]);
    RefreshedDue(cfg, s.slots[sid].(state := AwaitingTools), now);
  }

  lemma AwaitKeeps(cfg: Config, s: Hub, sid: string, now: int)
    requires Inv(cfg, s) && now >= s.clock && sid in s.slots
    ensures Inv(cfg, Apply(cfg, s, now, BeginAwaiting(sid)))
  {
    AwaitedSlot(cfg, s, sid, now);
    EnterKeeps(cfg, s, sid, Refreshed(cfg, s.slots[sid].(state := AwaitingTools), now), now);
  }

  /** Any step that only drops slots. */
  lemma DroppingKeeps(cfg: Config, s: Hub, sids: seq<string>, now: int)
    requires Inv(cfg, s) && now >= s.clock
    ensures Inv(cfg, DropAll(s, sids).(clock := now))
  {
    DropAllKeeps(cfg, s, sids);
    DropAllClock(s, sids);
    ClockKeeps(cfg, DropAll(s, sids), now);
  }

  lemma {:induction false} DropAllClock(s: Hub, sids: seq<string>)
    ensures DropAll(s, sids).clock == s.clock
    decreases |sids|
  {
    if sids != [] { DropAllClock(DropSlot(s, sids[0]), sids[1..]); }
  }

  lemma TimerKeeps(cfg: Config, s: Hub, sid: string, now: int)
    requires Inv(cfg, s) && now >= s.clock
    ensures Inv(cfg, Apply(cfg, s, now, TimerFires(sid)))
  {
    ClearTimerKeeps(cfg, s, sid);
    DroppingKeeps(cfg, s.(timers := s.timers - {sid}), [sid], now);
    OneDrop(s.(timers := s.timers - {sid}), sid);
  }

  lemma OneDrop(s: Hub, sid: string)
    ensures DropAll(s, [sid]) == DropSlot(s, sid)
  {
    assert ([sid])[1..] == [];
    assert DropAll(DropSlot(s, sid), []) == DropSlot(s, sid);
  }

  lemma DropStepKeeps(cfg: Config, s: Hub, now: int, sid: string)
    requires Inv(cfg, s) && now >= s.clock
    ensures Inv(cfg, DropSlot(s, sid).(clock := now))
  {
    DropKeeps(cfg, s, sid);
    ClockKeeps(cfg, DropSlot(s, sid), now);
  }

  lemma RegisterStepKeeps(cfg: Config, s: Hub, now: int, step: Step)
    requires Inv(cfg, s) && now >= s.clock && step.RegisterHold? && Careful(s, step)
    ensures Inv(cfg, Apply(cfg, s, now, step))
  {
    RegisterKeeps(cfg, s, step.sid, step.id, step.ttl, step.delegated, now);
    var r := Register(cfg, s, step.sid, step.id, step.ttl, step.delegated, now);
    ClockKeeps(cfg, r, now);
  }

  /** The steps that only store or touch a slot. */
  lemma StoringStepKeeps(cfg: Config, s: Hub, now: int, step: Step)
    requires Inv(cfg, s) && now >= s.clock
    requires step.PutAgain? || step.BeginAwaiting? || step.MarkRunning? || step.MarkIdle? || step.TouchLocked?
    ensures Inv(cfg, Apply(cfg, s, now, step))
  {
    if step.PutAgain? || step.TouchLocked? {
      TouchKeeps(cfg, s, step.sid, now);
    } else if step.sid !in s.slots {
      ClockKeeps(cfg, s, now);
    } else if step.BeginAwaiting? {
      AwaitKeeps(cfg, s, step.sid, now);
    } else {
      MarkKeeps(cfg, s, step.sid, if step.MarkIdle? then Idle else Running, now);
    }
  }

  lemma StepKeeps(cfg: Config, s: Hub, now: int, step: Step)
    requires Inv(cfg, s) && Enabled(s, now, step) && Careful(s, step)
    ensures Inv(cfg, Apply(cfg, s, now, step))
  {
    match step
    case Get(sid) =>
      if sid in s.slots && Expiry(cfg, s.slots[sid], now).Some? { DropStepKeeps(cfg, s, now, sid); }
      else { ClockKeeps(cfg, s, now); }
    case PutNew(sid, state) => PutNewKeeps(cfg, s, sid, state, now);
    case RegisterHold(_, _, _, _) => RegisterStepKeeps(cfg, s, now, step);
    case ResolvePending(sid, clientId) => ResolveKeeps(cfg, s, sid, clientId, now);
    case RejectPending(sid, id) =>
      if Pending(s, sid, id) { SettleKeeps(cfg, s, sid, id, false, now); } else { ClockKeeps(cfg, s, now); }
    case Drop(sid) => DropStepKeeps(cfg, s, now, sid);
    case Sweep => DroppingKeeps(cfg, s, ExpiredIn(cfg, s, s.order, now), now);
    case TimerFires(sid) => TimerKeeps(cfg, s, sid, now);
    case _ => StoringStepKeeps(cfg, s, now, step);
  }

  datatype Timed = Timed(now: int, step: Step)

  /** A run of careful uses from the empty hub. */
  ghost predicate Reaches(cfg: Config, steps: seq<Timed>, s: Hub)
    decreases |steps|
  {
    if steps == [] then s == Empty
    else
      var k := |steps| - 1;
      exists p :: Reaches(cfg, steps[..k], p) && Enabled(p, steps[k].now, steps[k].step) && Careful(p, steps[k].step)
        && s == Apply(cfg, p, steps[k].now, steps[k].step)
  }

  lemma {:induction false} RunKeeps(cfg: Config, steps: seq<Timed>, s: Hub)
    requires Reaches(cfg, steps, s)
    ensures Inv(cfg, s)
    decreases |steps|
  {
    if steps == [] {
      assert Ledger(Empty) && Shape(cfg, Empty);
    } else {
      var k := |steps| - 1;
      var p :| Reaches(cfg, steps[..k], p) && Enabled(p, steps[k].now, steps[k].step) && Careful(p, steps[k].step)
        && s == Apply(cfg, p, steps[k].now, steps[k].step);
      RunKeeps(cfg, steps[..k], p);
      StepKeeps(cfg, p, steps[k].now, steps[k].step);
    }
  }

  // ---- what a run of the hub guarantees ------------------------------------------------------------------

  /** Each registered call is pending in exactly one slot, or was resolved or rejected exactly once. */
  lemma EveryCallIsAccountedFor(cfg: Config, steps: seq<Timed>, s: Hub, n: nat)
    requires Reaches(cfg, steps, s) && n < s.next
    ensures IsPending(s, n) <==> !IsSettled(s, n)
    ensures forall i, j | 0 <= i < |s.settled| && 0 <= j < |s.settled| && s.settled[i].serial == s.settled[j].serial == n :: i == j
    ensures forall sid, id, tid, jd | Pending(s, sid, id) && Pending(s, tid, jd)
      && SerialOf(s, sid, id) == n == SerialOf(s, tid, jd) :: sid == tid && id == jd
  {
    RunKeeps(cfg, steps, s);
    assert IsSettled(s, n) || IsPending(s, n);
    if IsPending(s, n) {
      var sid, id :| Pending(s, sid, id) && SerialOf(s, sid, id) == n;
      assert !IsSettled(s, SerialOf(s, sid, id));
    }
  }

  /** The slots of `r` hold exactly what they held in `s`. */
  ghost predicate OnlyDrops(s: Hub, r: Hub) {
    forall k | k in r.slots :: k in s.slots && r.slots[k] == s.slots[k]
  }

  lemma {:induction false} DropAllOnlyDrops(s: Hub, sids: seq<string>)
    ensures OnlyDrops(s, DropAll(s, sids))
    ensures forall k | k in s.slots && k !in DropAll(s, sids).slots :: k in sids
    decreases |sids|
  {
    if sids != [] { DropAllOnlyDrops(DropSlot(s, sids[0]), sids[1..]); }
  }

  lemma {:induction false} EvictOnlyDrops(cfg: Config, s: Hub, keep: string)
    ensures OnlyDrops(s, EvictToFit(cfg, s, keep))
    ensures forall k | k in s.slots && k !in EvictToFit(cfg, s, keep).slots :: Finished(s.slots[k]) || Parked(s.slots[k])
    ensures EvictToFit(cfg, s, keep) != s ==> |s.slots| >= cfg.maxLive
    decreases |s.slots|
  {
    if |s.slots| >= cfg.maxLive && PickVictim(s, keep).Some? {
      var victim := PickVictim(s, keep).value;
      assert DropSlot(s, victim).slots.Keys == s.slots.Keys - {victim};
      EvictOnlyDrops(cfg, DropSlot(s, victim), keep);
    }
  }

  lemma {:induction false} ExpiredInLemma(cfg: Config, s: Hub, order: seq<string>, now: int)
    ensures forall k :: k in ExpiredIn(cfg, s, order, now) <==> k in order && k in s.slots && Expiry(cfg, s.slots[k], now).Some?
  {
    if order != [] {
      ExpiredInLemma(cfg, s, order[1..], now);
      assert forall k :: k in order <==> k == order[0] || k in order[1..];
    }
  }

  /** Why the hub may give up a slot on its own: never while it runs, by a hold only once its deadline and every hold are due. */
  ghost predicate GoodReason(cfg: Config, s: Hub, slot: Slot, now: int, step: Step) {
    match slot.state
    case Running => false
    case AwaitingTools =>
      || (slot.holdDeadline.Some? && slot.holdDeadline.value <= now
          && forall k | k in slot.pending :: slot.pending[k].deadline <= now)
      || (step.PutNew? && |s.slots| >= cfg.maxLive && forall k | k in slot.pending :: !slot.pending[k].delegated)
    case Idle => now - slot.lastUsedAt >= cfg.idleTtl || (step.PutNew? && |s.slots| >= cfg.maxLive)
    case Dead => true
  }

  lemma ExpiryHasReason(cfg: Config, s: Hub, sid: string, now: int, step: Step)
    requires Inv(cfg, s) && sid in s.slots && Expiry(cfg, s.slots[sid], now).Some?
    ensures GoodReason(cfg, s, s.slots[sid], now, step)
  {
    assert SlotDue(s.slots[sid]);
  }

  /** Storing a fresh slot loses only what eviction took. */
  lemma PutLosesEvicted(cfg: Config, s: Hub, now: int, sid: string, state: SlotState, k: string)
    requires k in s.slots && k !in Apply(cfg, s, now, PutNew(sid, state)).slots
    ensures k !in EvictToFit(cfg, s, sid).slots
  {
  }

  lemma EvictedHasReason(cfg: Config, s: Hub, now: int, sid: string, state: SlotState, k: string)
    requires Inv(cfg, s) && k in s.slots && k !in EvictToFit(cfg, s, sid).slots
    ensures GoodReason(cfg, s, s.slots[k], now, PutNew(sid, state))
  {
    EvictOnlyDrops(cfg, s, sid);
    assert Finished(s.slots[k]) || Parked(s.slots[k]);
  }

  lemma EvictionHasReason(cfg: Config, s: Hub, now: int, sid: string, state: SlotState, k: string)
    requires Inv(cfg, s) && k in s.slots && k !in Apply(cfg, s, now, PutNew(sid, state)).slots
    ensures GoodReason(cfg, s, s.slots[k], now, PutNew(sid, state))
  {
    PutLosesEvicted(cfg, s, now, sid, state, k);
    EvictedHasReason(cfg, s, now, sid, state, k);
  }

  lemma SweepLosesExpired(cfg: Config, s: Hub, now: int, k: string)
    requires k in s.slots && k !in Apply(cfg, s, now, Sweep).slots
    ensures Expiry(cfg, s.slots[k], now).Some?
  {
    DropAllOnlyDrops(s, ExpiredIn(cfg, s, s.order, now));
    ExpiredInLemma(cfg, s, s.order, now);
  }

  lemma SweepHasReason(cfg: Config, s: Hub, now: int, k: string)
    requires Inv(cfg, s) && k in s.slots && k !in Apply(cfg, s, now, Sweep).slots
    ensures GoodReason(cfg, s, s.slots[k], now, Sweep)
  {
    SweepLosesExpired(cfg, s, now, k);
    ExpiryHasReason(cfg, s, k, now, Sweep);
  }

  /** No step but an explicit drop loses a slot without a good reason. */
  lemma SlotsGoForAReason(cfg: Config, s: Hub, now: int, step: Step, sid: string)
    requires Inv(cfg, s) && Enabled(s, now, step) && !step.Drop?
    requires sid in s.slots && sid !in Apply(cfg, s, now, step).slots
    ensures GoodReason(cfg, s, s.slots[sid], now, step)
  {
    if step.Get? {
      ExpiryHasReason(cfg, s, sid, now, step);
    } else if step.PutNew? {
      EvictionHasReason(cfg, s, now, step.sid, step.state, sid);
    } else if step.Sweep? {
      SweepHasReason(cfg, s, now, sid);
    } else if step.TimerFires? {
      assert SlotDue(s.slots[step.sid]);
    } else {
      StoringKeepsSlots(cfg, s, now, step);
    }
  }

  lemma StoringKeepsSlots(cfg: Config, s: Hub, now: int, step: Step)
    requires !step.Get? && !step.PutNew? && !step.Sweep? && !step.TimerFires? && !step.Drop?
    ensures s.slots.Keys <= Apply(cfg, s, now, step).slots.Keys
  {
    if step.RegisterHold? {
    } else if step.ResolvePending? && step.sid in s.slots {
      var id := CanonicalHoldId(s.slots[step.sid].pendingOrder, s.slots[step.sid].aliases, step.clientId);
    }
  }

  /** Whatever removes a slot, every call still pending in it is settled in the same step. */
  lemma LostSlotIsSettled(cfg: Config, s: Hub, now: int, step: Step, sid: string, id: string)
    requires Inv(cfg, s) && Enabled(s, now, step) && Careful(s, step)
    requires Pending(s, sid, id) && sid !in Apply(cfg, s, now, step).slots
    ensures IsSettled(Apply(cfg, s, now, step), SerialOf(s, sid, id))
  {
    var r := Apply(cfg, s, now, step);
    StepKeeps(cfg, s, now, step);
    var n := SerialOf(s, sid, id);
    CallsOnlyLeave(cfg, s, now, step, sid);
    assert n < r.next;
    assert IsSettled(r, n) || IsPending(r, n);
    forall tid, jd | Pending(r, tid, jd) ensures SerialOf(r, tid, jd) != n {
      assert Pending(s, tid, jd) && tid != sid;
    }
  }

  /** A step that removes a slot registers nothing and moves nothing. */
  lemma CallsOnlyLeave(cfg: Config, s: Hub, now: int, step: Step, sid: string)
    requires sid in s.slots && sid !in Apply(cfg, s, now, step).slots
    ensures Apply(cfg, s, now, step).next == s.next
    ensures
      var r := Apply(cfg, s, now, step);
      forall tid, jd | Pending(r, tid, jd) :: Pending(s, tid, jd) && SerialOf(r, tid, jd) == SerialOf(s, tid, jd)
  {
    match step
    case Get(_) =>
    case PutNew(t, _) => EvictOnlyDrops(cfg, s, t); EvictNext(cfg, s, t);
    case Drop(_) =>
    case Sweep =>
      DropAllOnlyDrops(s, ExpiredIn(cfg, s, s.order, now));
      DropAllNext(s, ExpiredIn(cfg, s, s.order, now));
    case TimerFires(_) =>
    case _ => StoringKeepsSlots(cfg, s, now, step);
  }

  lemma {:induction false} EvictNext(cfg: Config, s: Hub, keep: string)
    ensures EvictToFit(cfg, s, keep).next == s.next
    decreases |s.slots|
  {
    if |s.slots| >= cfg.maxLive && PickVictim(s, keep).Some? {
      var victim := PickVictim(s, keep).value;
      assert DropSlot(s, victim).slots.Keys == s.slots.Keys - {victim};
      EvictNext(cfg, DropSlot(s, victim), keep);
    }
  }

  lemma {:induction false} DropAllNext(s: Hub, sids: seq<string>)
    ensures DropAll(s, sids).next == s.next
    decreases |sids|
  {
    if sids != [] { DropAllNext(DropSlot(s, sids[0]), sids[1..]); }
  }

  /** Deadlines, capacity and recency order in every reachable state. */
  lemma HubInvariants(cfg: Config, steps: seq<Timed>, s: Hub)
    requires Reaches(cfg, steps, s)
    ensures |s.slots| <= cfg.maxLive
    ensures forall sid | sid in s.slots && s.slots[sid].state.AwaitingTools? && s.slots[sid].pending != map[] ::
      s.slots[sid].holdDeadline.Some? && IsLatest(s.slots[sid], s.slots[sid].holdDeadline.value)
    ensures forall i, j | 0 <= i <= j < |s.order| ::
      s.order[i] in s.slots && s.order[j] in s.slots
      && s.slots[s.order[i]].lastUsedAt <= s.slots[s.order[j]].lastUsedAt
  {
    RunKeeps(cfg, steps, s);
    assert forall sid | sid in s.slots :: SlotDue(s.slots[sid]);
    forall i, j | 0 <= i <= j < |s.order| ensures s.order[i] in s.slots && s.order[j] in s.slots
      && s.slots[s.order[i]].lastUsedAt <= s.slots[s.order[j]].lastUsedAt
    {
      RecencyAt(s.slots, s.order, s.clock, i, j);
    }
  }

  lemma {:induction false} RecencyAt(slots: map<string, Slot>, order: seq<string>, clock: int, i: nat, j: nat)
    requires ByRecency(slots, order, clock) && i <= j < |order|
    ensures order[i] in slots && order[j] in slots && slots[order[i]].lastUsedAt <= slots[order[j]].lastUsedAt
  {
    if i > 0 {
      RecencyAt(slots, order[1..], clock, i - 1, j - 1);
    } else if j > 0 {
      ListedBelow(slots, order[1..], clock);
      assert order[j] == order[1..][j - 1];
    }
  }

  lemma {:induction false} FirstIsLeastRecent(s: Hub, order: seq<string>, keep: string, pick: Slot -> bool, k: string)
    requires ByRecency(s.slots, order, s.clock) && FirstWith(s, order, keep, pick).Some?
    requires k in order && k in s.slots && k != keep && pick(s.slots[k])
    ensures s.slots[FirstWith(s, order, keep, pick).value].lastUsedAt <= s.slots[k].lastUsedAt
  {
    if order[0] in s.slots && order[0] != keep && pick(s.slots[order[0]]) {
      assert k == order[0] || k in order[1..];
    } else {
      FirstIsLeastRecent(s, order[1..], keep, pick, k);
    }
  }

  ghost predicate BestVictim(s: Hub, keep: string, v: string)
    requires v in s.slots
  {
    if Finished(s.slots[v]) then
      forall k | k in s.slots && k != keep && Finished(s.slots[k]) :: s.slots[v].lastUsedAt <= s.slots[k].lastUsedAt
    else
      && Parked(s.slots[v])
      && (forall k | k in s.slots && k != keep :: !Finished(s.slots[k]))
      && (forall k | k in s.slots && k != keep && Parked(s.slots[k]) :: s.slots[v].lastUsedAt <= s.slots[k].lastUsedAt)
  }

  /** The LRU victim: the least recently used finished slot, else the least recently used parked one. */
  lemma VictimIsLeastRecent(cfg: Config, s: Hub, keep: string)
    requires Inv(cfg, s)
    ensures
      var v := PickVictim(s, keep);
      && (v.None? ==> forall k | k in s.slots && k != keep :: !Finished(s.slots[k]) && !Parked(s.slots[k]))
      && (v.Some? ==> v.value in s.slots && v.value != keep && BestVictim(s, keep, v.value))
  {
    var finished := FirstWith(s, s.order, keep, Finished);
    if finished.Some? {
      forall k | k in s.slots && k != keep && Finished(s.slots[k])
        ensures s.slots[finished.value].lastUsedAt <= s.slots[k].lastUsedAt
      {
        FirstIsLeastRecent(s, s.order, keep, Finished, k);
      }
    } else if FirstWith(s, s.order, keep, Parked).Some? {
      var v := FirstWith(s, s.order, keep, Parked).value;
      forall k | k in s.slots && k != keep && Parked(s.slots[k])
        ensures s.slots[v].lastUsedAt <= s.slots[k].lastUsedAt
      {
        FirstIsLeastRecent(s, s.order, keep, Parked, k);
      }
    }
  }

  // ---- the excluded uses do lose calls ---------------------------------------------------------------------

  /** Registering an id that is already pending leaves the earlier call neither pending nor settled. */
  lemma SecondRegistrationLosesCall(cfg: Config, s: Hub, now: int, sid: string, id: string, ttl: Option<int>, delegated: bool)
    requires Inv(cfg, s) && Pending(s, sid, id)
    ensures
      var r := Register(cfg, s, sid, id, ttl, delegated, now);
      !IsSettled(r, SerialOf(s, sid, id)) && !IsPending(r, SerialOf(s, sid, id))
  {
    var hold := NewHold(cfg, s.next, ttl, delegated, now);
    OverwriteLoses(cfg, s, sid, id, hold, Aliased(s.slots[sid].aliases, id), now);
  }

  lemma OverwriteLoses(cfg: Config, s: Hub, sid: string, id: string, hold: Hold, aliases: seq<Alias>, now: int)
    requires Inv(cfg, s) && Pending(s, sid, id) && hold.serial == s.next
    ensures
      var r := Pend(cfg, s, sid, id, hold, aliases, now);
      !IsSettled(r, SerialOf(s, sid, id)) && !IsPending(r, SerialOf(s, sid, id))
  {
    var r := Pend(cfg, s, sid, id, hold, aliases, now);
    var n := SerialOf(s, sid, id);
    assert !IsSettled(s, n);
    assert r.slots[sid].pending == s.slots[sid].pending[id := hold];
    forall tid, jd | Pending(r, tid, jd) ensures SerialOf(r, tid, jd) != n {
      if !(tid == sid && jd == id) {
        assert Pending(s, tid, jd) && SerialOf(s, tid, jd) == SerialOf(r, tid, jd);
      }
    }
  }

  /** Putting a fresh slot over one with pending calls leaves them neither pending nor settled. */
  lemma OverwritingPutLosesCalls(cfg: Config, s: Hub, now: int, sid: string, state: SlotState, id: string)
    requires Inv(cfg, s) && Pending(s, sid, id)
    ensures
      var r := Apply(cfg, s, now, PutNew(sid, state));
      !IsSettled(r, SerialOf(s, sid, id)) && !IsPending(r, SerialOf(s, sid, id))
  {
    var r := Apply(cfg, s, now, PutNew(sid, state));
    var n := SerialOf(s, sid, id);
    assert !IsSettled(s, n);
    forall tid, jd | Pending(r, tid, jd) ensures SerialOf(r, tid, jd) != n {
      assert tid != sid && Pending(s, tid, jd) && SerialOf(s, tid, jd) == SerialOf(r, tid, jd);
    }
  }

  /** Putting a fresh slot over an awaiting one leaves its timer armed, and the timer drops the new, running slot. */
  lemma StaleTimerDropsRunningSlot(cfg: Config, s: Hub, now: int, sid: string)
    requires Inv(cfg, s) && sid in s.timers && now >= s.clock
    ensures
      var r := Apply(cfg, s, now, PutNew(sid, Running));
      var later := if now >= s.timers[sid] then now else s.timers[sid];
      && sid in r.slots && r.slots[sid].state.Running?
      && Enabled(r, later, TimerFires(sid)) && sid !in Apply(cfg, r, later, TimerFires(sid)).slots
  {
  }
}
