/** The hub object: its maps are updated in place, one method per call of the source. */
module SessionHubClass {
  import opened Prelude
  import opened ToolCallIds
  import opened SessionHub
  import opened SessionHubProofs
  import opened SessionHubSteps

  // ---- aliases: only what `registerHold` remembers ------------------------------------------------------

  ghost predicate KnownAlias(a: Alias) {
    a.alias == ResponsesCallId(a.execute) || a.alias in Tokens(a.execute)
  }

  ghost predicate AliasesKnown(s: Hub) {
    forall sid, a | sid in s.slots && a in s.slots[sid].aliases :: KnownAlias(a)
  }

  lemma {:induction false} SetAliasListed(aliases: seq<Alias>, alias: string, execute: string, a: Alias)
    requires a in SetAlias(aliases, alias, execute)
    ensures a in aliases || a == Alias(alias, execute)
  {
    if aliases != [] && aliases[0].alias != alias && a != aliases[0] {
      SetAliasListed(aliases[1..], alias, execute, a);
    }
  }

  lemma {:induction false} RememberAllListed(aliases: seq<Alias>, execute: string, tokens: seq<string>, a: Alias)
    requires a in RememberAll(aliases, execute, tokens)
    ensures a in aliases || (a.execute == execute && a.alias in tokens)
    decreases |tokens|
  {
    if tokens != [] {
      RememberAllListed(Remember(aliases, execute, tokens[0]), execute, tokens[1..], a);
      if a in Remember(aliases, execute, tokens[0]) && a !in aliases {
        SetAliasListed(aliases, tokens[0], execute, a);
      }
    }
  }

  lemma AliasedListed(aliases: seq<Alias>, execute: string, a: Alias)
    requires a in Aliased(aliases, execute)
    ensures a in aliases || KnownAlias(a)
  {
    var first := Remember(aliases, execute, ResponsesCallId(execute));
    RememberAllListed(first, execute, Tokens(execute), a);
    if a in first && a !in aliases { SetAliasListed(aliases, ResponsesCallId(execute), execute, a); }
  }

  /** The slots of `r` carry aliases of `s`, or none. */
  ghost predicate AliasesCarried(s: Hub, r: Hub) {
    forall sid | sid in r.slots :: r.slots[sid].aliases == [] || (sid in s.slots && r.slots[sid].aliases == s.slots[sid].aliases)
  }

  lemma SettleCarriesAliases(cfg: Config, s: Hub, sid: string, id: string, resolved: bool, now: int)
    requires Pending(s, sid, id)
    ensures AliasesCarried(s, Settle(cfg, s, sid, id, resolved, now))
  {
    assert AfterCall(cfg, s.slots[sid], id, now).aliases == s.slots[sid].aliases;
  }

  lemma StepCarriesAliases(cfg: Config, s: Hub, now: int, step: Step)
    requires !step.RegisterHold?
    ensures AliasesCarried(s, Apply(cfg, s, now, step))
  {
    if step.PutNew? {
      EvictOnlyDrops(cfg, s, step.sid);
    } else if step.Sweep? {
      DropAllOnlyDrops(s, ExpiredIn(cfg, s, s.order, now));
    } else if step.ResolvePending? {
      if step.sid in s.slots {
        var id := CanonicalHoldId(s.slots[step.sid].pendingOrder, s.slots[step.sid].aliases, step.clientId);
        if id.Some? && Pending(s, step.sid, id.value) { SettleCarriesAliases(cfg, s, step.sid, id.value, true, now); }
      }
    } else if step.RejectPending? {
      if Pending(s, step.sid, step.id) { SettleCarriesAliases(cfg, s, step.sid, step.id, false, now); }
    }
  }

  lemma PendAliases(cfg: Config, s: Hub, sid: string, id: string, hold: Hold, aliases: seq<Alias>, now: int)
    requires sid in s.slots
    ensures
      var r := Pend(cfg, s, sid, id, hold, aliases, now);
      r.slots.Keys == s.slots.Keys && r.slots[sid].aliases == aliases
      && forall k | k in s.slots && k != sid :: r.slots[k] == s.slots[k]
  {
  }

  lemma StepKeepsAliases(cfg: Config, s: Hub, now: int, step: Step)
    requires AliasesKnown(s)
    ensures AliasesKnown(Apply(cfg, s, now, step))
  {
    var r := Apply(cfg, s, now, step);
    if step.RegisterHold? {
      if step.sid in s.slots {
        var aliases := Aliased(s.slots[step.sid].aliases, step.id);
        PendAliases(cfg, s, step.sid, step.id, NewHold(cfg, s.next, step.ttl, step.delegated, now), aliases, now);
        forall sid, a | sid in r.slots && a in r.slots[sid].aliases ensures KnownAlias(a) {
          if sid == step.sid { AliasedListed(s.slots[sid].aliases, step.id, a); }
        }
      }
    } else {
      StepCarriesAliases(cfg, s, now, step);
    }
  }

  /** The id shown to the client resolves exactly the execute it was made from. */
  lemma VisibleIdResolvesItsExecute(cfg: Config, s: Hub, now: int, sid: string, e: string, digest: string -> string)
    requires WellFormed(s) && AliasesKnown(s) && Pending(s, sid, e)
    requires CutIsOwnToken(e) && "" !in s.slots[sid].pending && DisjointTokens(s.slots[sid].pendingOrder)
    ensures
      var r := Apply(cfg, s, now, ResolvePending(sid, Sanitize(e, digest)));
      r.settled == s.settled + [Settlement(SerialOf(s, sid, e), true)] && !Pending(r, sid, e)
  {
    var slot := s.slots[sid];
    assert SlotFits(slot);
    assert AliasesFromHolds(slot.aliases) by {
      forall a | a in slot.aliases ensures a.alias == ResponsesCallId(a.execute) || a.alias in Tokens(a.execute) {
        assert KnownAlias(a);
      }
    }
    VisibleIdRoundTrip(slot.pendingOrder, slot.aliases, e, digest);
    SettleMoves(cfg, s, sid, e, true, now);
  }

  /** What firing a hold timer makes of the hub. */
  lemma FiringKeeps(cfg: Config, s: Hub, sid: string, now: int)
    requires Inv(cfg, s) && Enabled(s, now, TimerFires(sid))
    ensures Apply(cfg, s, now, TimerFires(sid)) == DropSlot(s.(timers := s.timers - {sid}), sid).(clock := now)
    ensures Inv(cfg, DropSlot(s.(timers := s.timers - {sid}), sid).(clock := now))
  {
    StepKeeps(cfg, s, now, TimerFires(sid));
  }

  lemma CarefulStepKeeps(cfg: Config, s: Hub, now: int, step: Step)
    requires Inv(cfg, s) && Enabled(s, now, step)
    ensures Careful(s, step) ==> Inv(cfg, Apply(cfg, s, now, step))
  {
    if Careful(s, step) { StepKeeps(cfg, s, now, step); }
  }

  lemma FirstWithStep(s: Hub, i: nat, keep: string, pick: Slot -> bool)
    requires i < |s.order|
    ensures FirstWith(s, s.order[i..], keep, pick) ==
      if s.order[i] in s.slots && s.order[i] != keep && pick(s.slots[s.order[i]]) then Some(s.order[i])
      else FirstWith(s, s.order[i + 1..], keep, pick)
  {
    assert s.order[i..][1..] == s.order[i + 1..];
  }

  class SessionHubObject {
    const cfg: Config
    var slots: map<string, Slot>
    var order: seq<string>
    var holdTimers: map<string, int>
    var registered: nat
    var settled: seq<Settlement>
    ghost var clock: int

    ghost function State(): Hub
      reads this
    {
      Hub(slots, order, holdTimers, registered, settled, clock)
    }

    ghost predicate Valid()
      reads this
    {
      Inv(cfg, State())
    }

    constructor (cfg: Config)
      ensures this.cfg == cfg && State() == Empty && Valid()
    {
      this.cfg := cfg;
      slots, order, holdTimers := map[], [], map[];
      registered, settled, clock := 0, [], 0;
      new;
      assert Ledger(Empty) && Shape(cfg, Empty);
    }

    method RemoveFromOrder(sid: string)
      modifies this`order
      ensures order == Without(old(order), sid)
    {
      var kept: seq<string> := [];
      var i := 0;
      while i < |order|
        invariant 0 <= i <= |order| && order == old(order)
        invariant kept + Without(order[i..], sid) == Without(order, sid)
      {
        if order[i] != sid { kept := kept + [order[i]]; }
        i := i + 1;
      }
      order := kept;
    }

    /** `touch`, and the storing half of `put`. */
    method StoreSlot(sid: string, slot: Slot, now: int)
      modifies this`slots, this`order
      ensures State() == Store(old(State()), sid, slot, now)
    {
      slots := slots[sid := slot.(lastUsedAt := now)];
      RemoveFromOrder(sid);
      order := order + [sid];
    }

    method DropInternal(sid: string)
      modifies this
      ensures State() == DropSlot(old(State()), sid)
    {
      if sid !in slots { return; }
      var slot := slots[sid];
      slots := slots - {sid};
      RemoveFromOrder(sid);
      holdTimers := holdTimers - {sid};
      var i := 0;
      while i < |slot.pendingOrder|
        invariant 0 <= i <= |slot.pendingOrder|
        invariant State() == DropSlot(old(State()), sid).(settled := settled)
        invariant settled + Rejections(slot.pendingOrder[i..], slot.pending)
               == old(settled) + Rejections(slot.pendingOrder, slot.pending)
      {
        if slot.pendingOrder[i] in slot.pending {
          settled := settled + [Settlement(slot.pending[slot.pendingOrder[i]].serial, false)];
        }
        i := i + 1;
      }
    }

    /** `drop` up to its first await. */
    method Drop(sid: string, now: int)
      requires Valid() && now >= clock
      modifies this
      ensures Valid() && State() == Apply(cfg, old(State()), now, Step.Drop(sid))
    {
      StepKeeps(cfg, State(), now, Step.Drop(sid));
      DropInternal(sid);
      clock := now;
    }

    method Get(sid: string, now: int) returns (slot: Option<Slot>)
      requires Valid() && now >= clock
      modifies this
      ensures Valid() && State() == Apply(cfg, old(State()), now, Step.Get(sid))
      ensures slot.Some? <==> sid in old(slots) && Expiry(cfg, old(slots)[sid], now).None?
      ensures slot.Some? ==> sid in slots && slot.value == slots[sid]
    {
      StepKeeps(cfg, State(), now, Step.Get(sid));
      slot := None;
      if sid in slots {
        if Expiry(cfg, slots[sid], now).Some? {
          DropInternal(sid);
        } else {
          slot := Some(slots[sid]);
        }
      }
      clock := now;
    }

    method PickLruVictim(keep: string) returns (victim: Option<string>)
      ensures victim == PickVictim(State(), keep)
    {
      var i := 0;
      while i < |order|
        invariant 0 <= i <= |order|
        invariant FirstWith(State(), order[i..], keep, Finished) == FirstWith(State(), order, keep, Finished)
      {
        FirstWithStep(State(), i, keep, Finished);
        if order[i] in slots && order[i] != keep && Finished(slots[order[i]]) { return Some(order[i]); }
        i := i + 1;
      }
      i := 0;
      while i < |order|
        invariant 0 <= i <= |order|
        invariant FirstWith(State(), order[i..], keep, Parked) == FirstWith(State(), order, keep, Parked)
      {
        FirstWithStep(State(), i, keep, Parked);
        if order[i] in slots && order[i] != keep && Parked(slots[order[i]]) { return Some(order[i]); }
        i := i + 1;
      }
      victim := None;
    }

    method MakeRoom(keep: string)
      modifies this
      ensures State() == EvictToFit(cfg, old(State()), keep)
    {
      while |slots| >= cfg.maxLive
        invariant EvictToFit(cfg, State(), keep) == EvictToFit(cfg, old(State()), keep)
        decreases |slots|
      {
        var victim := PickLruVictim(keep);
        if victim.None? { break; }
        assert DropSlot(State(), victim.value).slots.Keys == slots.Keys - {victim.value};
        DropInternal(victim.value);
      }
    }

    /** `put` of a fresh slot; it is refused when the hub is full of slots that may not be evicted. */
    method Put(sid: string, state: SlotState, now: int) returns (stored: bool)
      requires Valid() && now >= clock
      modifies this
      ensures State() == Apply(cfg, old(State()), now, PutNew(sid, state))
      ensures old(Careful(State(), PutNew(sid, state))) ==> Valid()
      ensures stored <==> sid in old(slots) || |EvictToFit(cfg, old(State()), sid).slots| < cfg.maxLive
      ensures stored ==> sid in slots && slots[sid] == NewSlot(state).(lastUsedAt := now)
    {
      CarefulStepKeeps(cfg, State(), now, PutNew(sid, state));
      if sid !in slots {
        MakeRoom(sid);
        if |slots| >= cfg.maxLive {
          clock := now;
          return false;
        }
      }
      StoreSlot(sid, NewSlot(state), now);
      clock := now;
      stored := true;
    }

    method LatestDeadline(slot: Slot) returns (latest: Option<int>)
      requires SlotFits(slot)
      ensures latest == MaxDeadline(slot.pendingOrder, slot.pending)
    {
      latest := None;
      var i := 0;
      while i < |slot.pendingOrder|
        invariant 0 <= i <= |slot.pendingOrder|
        invariant latest.None? <==> i == 0
        invariant latest.Some? ==> forall j | 0 <= j < i :: slot.pending[slot.pendingOrder[j]].deadline <= latest.value
        invariant latest.Some? ==> exists j :: 0 <= j < i && slot.pending[slot.pendingOrder[j]].deadline == latest.value
      {
        var deadline := slot.pending[slot.pendingOrder[i]].deadline;
        if latest.None? || deadline > latest.value { latest := Some(deadline); }
        i := i + 1;
      }
      MaxDeadlineLemma(slot.pendingOrder, slot.pending);
      if |slot.pendingOrder| > 0 { assert slot.pendingOrder[0] in slot.pendingOrder; }
    }

    /** `refreshHoldDeadline`. */
    method RefreshHoldDeadline(sid: string, now: int)
      requires sid in slots && SlotFits(slots[sid]) && slots[sid].state.AwaitingTools?
      modifies this`slots, this`holdTimers
      ensures slots == old(slots)[sid := Refreshed(cfg, old(slots)[sid], now)]
      ensures holdTimers == Timers(cfg, old(holdTimers), sid, slots[sid])
    {
      var latest := LatestDeadline(slots[sid]);
      var deadline := latest.GetOr(now + cfg.holdTtl);
      slots := slots[sid := slots[sid].(holdDeadline := Some(deadline))];
      holdTimers := if cfg.timers then holdTimers[sid := deadline] else holdTimers - {sid};
    }

    method RememberAliases(aliases: seq<Alias>, execute: string) returns (r: seq<Alias>)
      ensures r == Aliased(aliases, execute)
    {
      r := Remember(aliases, execute, ResponsesCallId(execute));
      var tokens := ToolCallIdTokens(execute);
      var i := 0;
      while i < |tokens|
        invariant 0 <= i <= |tokens|
        invariant RememberAll(r, execute, tokens[i..]) == Aliased(aliases, execute)
      {
        assert tokens[i..][1..] == tokens[i + 1..];
        r := Remember(r, execute, tokens[i]);
        i := i + 1;
      }
      assert tokens[i..] == [];
    }

    /** An id that is already pending is registered again in its place; only a new one keeps the ledger. */
    method RegisterHold(sid: string, id: string, ttl: Option<int>, delegated: bool, now: int)
      requires Valid() && now >= clock
      modifies this
      ensures State() == Apply(cfg, old(State()), now, Step.RegisterHold(sid, id, ttl, delegated))
      ensures old(Careful(State(), Step.RegisterHold(sid, id, ttl, delegated))) ==> Valid()
    {
      CarefulStepKeeps(cfg, State(), now, Step.RegisterHold(sid, id, ttl, delegated));
      RegisterInternal(sid, id, ttl, delegated, now);
      clock := now;
    }

    /** The registration itself: settled on the spot without a slot, pending otherwise. */
    method RegisterInternal(sid: string, id: string, ttl: Option<int>, delegated: bool, now: int)
      requires sid in slots ==> SlotFits(slots[sid])
      modifies this`slots, this`holdTimers, this`settled, this`registered
      ensures State() == Register(cfg, old(State()), sid, id, ttl, delegated, now)
    {
      if sid !in slots {
        settled := settled + [Settlement(registered, false)];
      } else {
        var aliases := RememberAliases(slots[sid].aliases, id);
        PendInternal(sid, id, NewHold(cfg, registered, ttl, delegated, now), aliases, now);
      }
      registered := registered + 1;
    }

    method PendInternal(sid: string, id: string, hold: Hold, aliases: seq<Alias>, now: int)
      requires sid in slots && SlotFits(slots[sid])
      modifies this`slots, this`holdTimers
      ensures State().(next := registered + 1) == Pend(cfg, old(State()), sid, id, hold, aliases, now)
    {
      var slot := slots[sid];
      var listed := if id in slot.pending then slot.pendingOrder else slot.pendingOrder + [id];
      slots := slots[sid := slot.(pendingOrder := listed, pending := slot.pending[id := hold], aliases := aliases)];
      HeldFits(slot, id, hold, aliases);
      assert slots[sid] == Held(slot, id, hold, aliases);
      if slot.state.AwaitingTools? { RefreshHoldDeadline(sid, now); }
    }

    /** Store a slot as the most recently used one, with its hold timer armed or cleared to match. */
    method EnterSlot(sid: string, slot: Slot, now: int)
      modifies this`slots, this`order, this`holdTimers
      ensures State() == Enter(cfg, old(State()), sid, slot, now)
    {
      if cfg.timers && slot.state.AwaitingTools? && slot.holdDeadline.Some? {
        holdTimers := holdTimers[sid := slot.holdDeadline.value];
      } else {
        holdTimers := holdTimers - {sid};
      }
      StoreSlot(sid, slot, now);
    }

    /** Remove one pending call and settle it: the common part of `resolvePending` and `rejectPending`. */
    method SettleInternal(sid: string, id: string, resolved: bool, now: int)
      requires Pending(State(), sid, id) && SlotFits(slots[sid])
      modifies this`slots, this`order, this`holdTimers, this`settled
      ensures State() == Settle(cfg, old(State()), sid, id, resolved, now)
    {
      var slot := slots[sid];
      var serial := slot.pending[id].serial;
      WithoutLemma(slot.pendingOrder, id);
      var rest := slot.(pendingOrder := Without(slot.pendingOrder, id), pending := slot.pending - {id});
      settled := settled + [Settlement(serial, resolved)];
      if !slot.state.AwaitingTools? {
        StoreSlot(sid, rest, now);
      } else if rest.pending == map[] {
        EnterSlot(sid, rest.(state := Running, holdDeadline := None), now);
      } else {
        var latest := LatestDeadline(rest);
        EnterSlot(sid, rest.(holdDeadline := Some(latest.GetOr(now + cfg.holdTtl))), now);
      }
    }

    method ResolvePending(sid: string, clientId: string, now: int) returns (found: bool)
      requires Valid() && now >= clock
      modifies this
      ensures Valid() && State() == Apply(cfg, old(State()), now, Step.ResolvePending(sid, clientId))
      ensures found <==> |settled| == |old(settled)| + 1
    {
      StepKeeps(cfg, State(), now, Step.ResolvePending(sid, clientId));
      found := false;
      if sid in slots {
        var id := CanonicalHoldId(slots[sid].pendingOrder, slots[sid].aliases, clientId);
        if id.Some? && id.value in slots[sid].pending {
          SettleInternal(sid, id.value, true, now);
          found := true;
        }
      }
      clock := now;
    }

    method RejectPending(sid: string, id: string, now: int) returns (found: bool)
      requires Valid() && now >= clock
      modifies this
      ensures Valid() && State() == Apply(cfg, old(State()), now, Step.RejectPending(sid, id))
      ensures found <==> Pending(old(State()), sid, id)
    {
      StepKeeps(cfg, State(), now, Step.RejectPending(sid, id));
      found := sid in slots && id in slots[sid].pending;
      if found { SettleInternal(sid, id, false, now); }
      clock := now;
    }

    method AwaitInternal(sid: string, now: int)
      requires sid in slots && SlotFits(slots[sid])
      modifies this`slots, this`order, this`holdTimers
      ensures State() == Enter(cfg, old(State()), sid, Refreshed(cfg, old(slots)[sid].(state := AwaitingTools), now), now)
    {
      var slot := slots[sid].(state := AwaitingTools);
      var latest := LatestDeadline(slot);
      EnterSlot(sid, slot.(holdDeadline := Some(latest.GetOr(now + cfg.holdTtl))), now);
    }

    method BeginAwaitingTools(sid: string, now: int)
      requires Valid() && now >= clock
      modifies this
      ensures Valid() && State() == Apply(cfg, old(State()), now, BeginAwaiting(sid))
    {
      StepKeeps(cfg, State(), now, BeginAwaiting(sid));
      if sid in slots { AwaitInternal(sid, now); }
      clock := now;
    }

    /** `markRunning` and `markIdle`. */
    method Mark(sid: string, state: SlotState, now: int)
      requires Valid() && now >= clock && (state.Running? || state.Idle?)
      modifies this
      ensures Valid()
      ensures State() == Apply(cfg, old(State()), now, if state.Idle? then MarkIdle(sid) else MarkRunning(sid))
    {
      StepKeeps(cfg, State(), now, if state.Idle? then MarkIdle(sid) else MarkRunning(sid));
      if sid in slots {
        EnterSlot(sid, slots[sid].(state := state, holdDeadline := None), now);
      }
      clock := now;
    }

    method Sweep(now: int)
      requires Valid() && now >= clock
      modifies this
      ensures Valid() && State() == Apply(cfg, old(State()), now, Step.Sweep)
    {
      StepKeeps(cfg, State(), now, Step.Sweep);
      ghost var before := State();
      var snapshot := order;
      var found := slots;
      var i := 0;
      while i < |snapshot|
        invariant 0 <= i <= |snapshot|
        invariant DropAll(State(), ExpiredIn(cfg, before, snapshot[i..], now))
               == DropAll(before, ExpiredIn(cfg, before, snapshot, now))
      {
        assert snapshot[i..][0] == snapshot[i] && snapshot[i..][1..] == snapshot[i + 1..];
        ghost var later := ExpiredIn(cfg, before, snapshot[i + 1..], now);
        if snapshot[i] in found && Expiry(cfg, found[snapshot[i]], now).Some? {
          assert ([snapshot[i]] + later)[1..] == later;
          DropInternal(snapshot[i]);
        } else {
          assert [] + later == later;
        }
        i := i + 1;
      }
      assert snapshot[i..] == [];
      clock := now;
    }

    /** The hold timer of a session fires. */
    method OnHoldTimer(sid: string, now: int)
      requires Valid() && Enabled(State(), now, TimerFires(sid))
      modifies this
      ensures Valid() && State() == Apply(cfg, old(State()), now, TimerFires(sid))
    {
      FiringKeeps(cfg, State(), sid, now);
      FireTimer(sid);
      clock := now;
    }

    method FireTimer(sid: string)
      modifies this
      ensures State() == DropSlot(old(State()).(timers := old(holdTimers) - {sid}), sid)
    {
      holdTimers := holdTimers - {sid};
      DropInternal(sid);
    }
  }
}
