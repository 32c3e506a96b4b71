/** The shown id of a hung call at the hub: which steps keep its aliases complete, and what it resolves. */
module HubLookup {
  import opened Prelude
  import opened Text
  import opened ToolCallIds
  import opened SessionHub
  import opened SessionHubProofs
  import opened SessionHubSteps
  import opened HoldAliases
  import opened HoldLookup
  import opened HubAliases
  import Hubs = SessionHubClass

  lemma PutNewCarries(cfg: Config, s: Hub, now: int, sid: string, state: SlotState)
    ensures Carried(s, Apply(cfg, s, now, PutNew(sid, state)))
  {
    EvictOnlyDrops(cfg, s, sid);
  }

  lemma SweepCarries(cfg: Config, s: Hub, now: int)
    ensures Carried(s, Apply(cfg, s, now, Sweep))
  {
    DropAllOnlyDrops(s, ExpiredIn(cfg, s, s.order, now));
  }

  lemma StoringCarries(cfg: Config, s: Hub, now: int, step: Step)
    requires step.PutAgain? || step.BeginAwaiting? || step.MarkRunning? || step.MarkIdle? || step.TouchLocked?
    ensures Carried(s, Apply(cfg, s, now, step))
  {
  }

  lemma DroppingCarries(cfg: Config, s: Hub, now: int, step: Step)
    requires step.Get? || step.Drop? || step.TimerFires?
    ensures Carried(s, Apply(cfg, s, now, step))
  {
  }

  lemma StepCarries(cfg: Config, s: Hub, now: int, step: Step)
    requires !step.RegisterHold? && !step.ResolvePending? && !step.RejectPending?
    ensures Carried(s, Apply(cfg, s, now, step))
  {
    match step
    case PutNew(sid, state) => PutNewCarries(cfg, s, now, sid, state);
    case Sweep => SweepCarries(cfg, s, now);
    case Get(_) => DroppingCarries(cfg, s, now, step);
    case Drop(_) => DroppingCarries(cfg, s, now, step);
    case TimerFires(_) => DroppingCarries(cfg, s, now, step);
    case _ => StoringCarries(cfg, s, now, step);
  }

  lemma CarriedComplete(s: Hub, r: Hub)
    requires Carried(s, r) && AliasesComplete(s)
    ensures AliasesComplete(r)
  {
    forall sid | sid in r.slots ensures SlotComplete(r.slots[sid]) {
      if r.slots[sid].pendingOrder != [] { assert SlotComplete(s.slots[sid]); }
    }
  }

  lemma OneChangeComplete(s: Hub, r: Hub, sid: string)
    requires OnlyChanges(s, r, sid) && AliasesComplete(s) && sid in s.slots
    ensures AliasesComplete(r) <==> SlotComplete(r.slots[sid])
  {
    forall k | k in r.slots && k != sid ensures SlotComplete(r.slots[k]) { assert SlotComplete(s.slots[k]); }
  }

  lemma SettledSlot(cfg: Config, s: Hub, now: int, sid: string, id: string, resolved: bool)
    requires WellFormed(s) && Pending(s, sid, id)
    ensures
      var r := Settle(cfg, s, sid, id, resolved, now);
      && OnlyChanges(s, r, sid) && r.slots[sid].aliases == s.slots[sid].aliases
      && r.slots[sid].pendingOrder == Without(s.slots[sid].pendingOrder, id)
  {
  }

  lemma SettleComplete(cfg: Config, s: Hub, now: int, sid: string, id: string, resolved: bool)
    requires WellFormed(s) && AliasesComplete(s) && Pending(s, sid, id)
    ensures AliasesComplete(Settle(cfg, s, sid, id, resolved, now).(clock := now))
      <==> !OwnsFormOfAnother(s.slots[sid].pendingOrder, s.slots[sid].aliases, id)
  {
    var slot := s.slots[sid];
    var r := Settle(cfg, s, sid, id, resolved, now).(clock := now);
    SettledSlot(cfg, s, now, sid, id, resolved);
    assert SlotFits(slot) && SlotComplete(slot);
    WithoutLemma(slot.pendingOrder, id);
    SettlingCompletesExactlyWhen(slot.pendingOrder, r.slots[sid].pendingOrder, slot.aliases, id);
    OneChangeComplete(s, r, sid);
  }

  lemma HeldLists(slot: Slot, id: string, hold: Hold, aliases: seq<Alias>, p: string)
    requires SlotFits(slot)
    ensures p in Held(slot, id, hold, aliases).pendingOrder <==> p in slot.pendingOrder || p == id
  {
  }

  lemma RegisteredIsHeld(cfg: Config, s: Hub, now: int, sid: string, id: string, ttl: Option<int>, delegated: bool)
    requires sid in s.slots
    ensures
      var r := Register(cfg, s, sid, id, ttl, delegated, now);
      var aliases := Aliased(s.slots[sid].aliases, id);
      var held := Held(s.slots[sid], id, NewHold(cfg, s.next, ttl, delegated, now), aliases);
      && OnlyChanges(s, r, sid) && r.slots[sid].aliases == aliases && r.slots[sid].pendingOrder == held.pendingOrder
  {
  }

  lemma RegisteredSlot(cfg: Config, s: Hub, now: int, sid: string, id: string, ttl: Option<int>, delegated: bool)
    requires WellFormed(s) && sid in s.slots
    ensures
      var r := Register(cfg, s, sid, id, ttl, delegated, now);
      && OnlyChanges(s, r, sid) && r.slots[sid].aliases == Aliased(s.slots[sid].aliases, id)
      && forall p :: p in r.slots[sid].pendingOrder <==> p in s.slots[sid].pendingOrder || p == id
  {
    var slot, aliases := s.slots[sid], Aliased(s.slots[sid].aliases, id);
    assert SlotFits(slot);
    RegisteredIsHeld(cfg, s, now, sid, id, ttl, delegated);
    var hold := NewHold(cfg, s.next, ttl, delegated, now);
    forall p ensures p in Held(slot, id, hold, aliases).pendingOrder <==> p in slot.pendingOrder || p == id {
      HeldLists(slot, id, hold, aliases, p);
    }
  }

  lemma RegisterComplete(cfg: Config, s: Hub, now: int, sid: string, id: string, ttl: Option<int>, delegated: bool)
    requires WellFormed(s) && AliasesComplete(s)
    ensures AliasesComplete(Register(cfg, s, sid, id, ttl, delegated, now).(clock := now))
  {
    if sid in s.slots {
      var slot := s.slots[sid];
      var r := Register(cfg, s, sid, id, ttl, delegated, now).(clock := now);
      assert SlotFits(slot) && SlotComplete(slot);
      RegisteredSlot(cfg, s, now, sid, id, ttl, delegated);
      RegisteringCompletes(slot.pendingOrder, r.slots[sid].pendingOrder, slot.aliases, id);
      OneChangeComplete(s, r, sid);
    } else {
      CarriedComplete(s, Register(cfg, s, sid, id, ttl, delegated, now).(clock := now));
    }
  }

  /** Every step keeps the aliases complete, except one that settles a call to which forms of other pending calls lead. */
  lemma StepKeepsCompleteExactlyWhen(cfg: Config, s: Hub, now: int, step: Step)
    requires WellFormed(s) && AliasesComplete(s)
    ensures AliasesComplete(Apply(cfg, s, now, step)) <==> !SettlesOwner(s, step)
  {
    match step
    case RegisterHold(sid, id, ttl, delegated) => RegisterComplete(cfg, s, now, sid, id, ttl, delegated);
    case ResolvePending(sid, _) => SettlingStep(cfg, s, now, step, sid, true);
    case RejectPending(sid, _) => SettlingStep(cfg, s, now, step, sid, false);
    case _ =>
      StepCarries(cfg, s, now, step);
      CarriedComplete(s, Apply(cfg, s, now, step));
  }

  lemma SettlingStep(cfg: Config, s: Hub, now: int, step: Step, sid: string, resolved: bool)
    requires WellFormed(s) && AliasesComplete(s)
    requires (step.ResolvePending? && resolved) || (step.RejectPending? && !resolved)
    requires step.sid == sid
    ensures AliasesComplete(Apply(cfg, s, now, step)) <==> !SettlesOwner(s, step)
  {
    if sid in s.slots { assert SlotFits(s.slots[sid]); }
    var id := SettledBy(s, step);
    if id.Some? {
      SettleComplete(cfg, s, now, sid, id.value, resolved);
    } else {
      CarriedComplete(s, Apply(cfg, s, now, step));
    }
  }

  /** A run of careful uses in which no call is settled to which forms of other pending calls lead. */
  ghost predicate ReachesComplete(cfg: Config, steps: seq<Timed>, s: Hub)
    decreases |steps|
  {
    if steps == [] then s == Empty
    else
      var k := |steps| - 1;
      exists p :: ReachesComplete(cfg, steps[..k], p) && Enabled(p, steps[k].now, steps[k].step) && Careful(p, steps[k].step)
        && !SettlesOwner(p, steps[k].step) && s == Apply(cfg, p, steps[k].now, steps[k].step)
  }

  lemma {:induction false} CompleteRun(cfg: Config, steps: seq<Timed>, s: Hub)
    requires ReachesComplete(cfg, steps, s)
    ensures Inv(cfg, s) && AliasesComplete(s)
    decreases |steps|
  {
    if steps == [] {
      RunKeeps(cfg, [], Empty);
    } else {
      var k := |steps| - 1;
      var p :| ReachesComplete(cfg, steps[..k], p) && Enabled(p, steps[k].now, steps[k].step) && Careful(p, steps[k].step)
        && !SettlesOwner(p, steps[k].step) && s == Apply(cfg, p, steps[k].now, steps[k].step);
      CompleteRun(cfg, steps[..k], p);
      StepKeeps(cfg, p, steps[k].now, steps[k].step);
      StepKeepsCompleteExactlyWhen(cfg, p, steps[k].now, steps[k].step);
    }
  }

  /** One call was resolved, this one. */
  predicate ResolvesTo(s: Hub, r: Hub, sid: string, q: string)
    requires Pending(s, sid, q)
  {
    r.settled == s.settled + [Settlement(SerialOf(s, sid, q), true)]
  }

  lemma ResolvingIsSettling(cfg: Config, s: Hub, now: int, sid: string, clientId: string, found: Option<string>)
    requires WellFormed(s) && sid in s.slots
    requires found == CanonicalHoldId(s.slots[sid].pendingOrder, s.slots[sid].aliases, clientId)
    ensures found.None? ==> Apply(cfg, s, now, ResolvePending(sid, clientId)) == s.(clock := now)
    ensures found.Some? ==> Pending(s, sid, found.value)
    ensures found.Some? ==>
      Apply(cfg, s, now, ResolvePending(sid, clientId)) == Settle(cfg, s, sid, found.value, true, now).(clock := now)
  {
    assert SlotFits(s.slots[sid]);
  }

  /** What the resolving step does with what the client id finds. */
  lemma ResolvingStep(cfg: Config, s: Hub, now: int, sid: string, clientId: string, found: Option<string>)
    requires WellFormed(s) && sid in s.slots
    requires found == CanonicalHoldId(s.slots[sid].pendingOrder, s.slots[sid].aliases, clientId)
    ensures
      var r := Apply(cfg, s, now, ResolvePending(sid, clientId));
      && (forall id :: Pending(r, sid, id) <==> Pending(s, sid, id) && found != Some(id))
      && (found.Some? ==> Pending(s, sid, found.value) && ResolvesTo(s, r, sid, found.value))
  {
    ResolvingIsSettling(cfg, s, now, sid, clientId, found);
    if found.Some? { SettleMoves(cfg, s, sid, found.value, true, now); }
  }

  lemma ShownIsNotEmpty(e: string, digest: string -> string)
    requires Readable(e)
    ensures Sanitize(e, digest) != ""
  {
    if Trim(e) != "" { ShownMeetsFirstLine(e, digest); }
  }

  /** In such a run the shown id of any readable pending call resolves a call of its session. */
  lemma ShownIdResolvesACall(cfg: Config, steps: seq<Timed>, s: Hub, now: int, sid: string, e: string, digest: string -> string)
    requires ReachesComplete(cfg, steps, s) && Pending(s, sid, e) && Readable(e)
    ensures exists q :: Pending(s, sid, q) && ResolvesTo(s, Apply(cfg, s, now, ResolvePending(sid, Sanitize(e, digest))), sid, q)
  {
    CompleteRun(cfg, steps, s);
    var slot := s.slots[sid];
    assert SlotFits(slot) && SlotComplete(slot);
    ShownIdIsFound(slot.pendingOrder, slot.aliases, e, digest);
    ResolvingStep(cfg, s, now, sid, Sanitize(e, digest), CanonicalHoldId(slot.pendingOrder, slot.aliases, Sanitize(e, digest)));
  }

  /** It resolves the call it was made for exactly if that call answers to it. */
  lemma ShownIdResolvesItselfExactlyWhen(cfg: Config, s: Hub, now: int, sid: string, e: string, digest: string -> string)
    requires WellFormed(s) && Pending(s, sid, e) && Readable(e)
    ensures
      var slot, r := s.slots[sid], Apply(cfg, s, now, ResolvePending(sid, Sanitize(e, digest)));
      var answers := Answers(slot.pendingOrder, slot.aliases, e, Sanitize(e, digest));
      && (!Pending(r, sid, e) <==> answers)
      && (answers ==> ResolvesTo(s, r, sid, e))
  {
    var slot, shown := s.slots[sid], Sanitize(e, digest);
    assert SlotFits(slot);
    ShownIsNotEmpty(e, digest);
    FindsExactlyWhen(slot.pendingOrder, slot.aliases, e, shown);
    ResolvingStep(cfg, s, now, sid, shown, CanonicalHoldId(slot.pendingOrder, slot.aliases, shown));
  }

  lemma {:induction false} KnownRun(cfg: Config, steps: seq<Timed>, s: Hub)
    requires ReachesComplete(cfg, steps, s)
    ensures Hubs.AliasesKnown(s)
    decreases |steps|
  {
    if steps != [] {
      var k := |steps| - 1;
      var p :| ReachesComplete(cfg, steps[..k], p) && Enabled(p, steps[k].now, steps[k].step) && Careful(p, steps[k].step)
        && !SettlesOwner(p, steps[k].step) && s == Apply(cfg, p, steps[k].now, steps[k].step);
      KnownRun(cfg, steps[..k], p);
      Hubs.StepKeepsAliases(cfg, p, steps[k].now, steps[k].step);
    }
  }

  lemma KnownInSlot(s: Hub, sid: string)
    requires Hubs.AliasesKnown(s) && sid in s.slots
    ensures AliasesFromHolds(s.slots[sid].aliases)
  {
    forall a | a in s.slots[sid].aliases ensures a.alias == ResponsesCallId(a.execute) || a.alias in Tokens(a.execute) {
      assert Hubs.KnownAlias(a);
    }
  }

  /** In such a run the shown id resolves the call it was made for, if no other pending id or form of one meets it. */
  lemma UnrivalledResolvesItself(
    cfg: Config, steps: seq<Timed>, s: Hub, now: int, sid: string, e: string, digest: string -> string)
    requires ReachesComplete(cfg, steps, s) && Pending(s, sid, e) && Readable(e)
    requires forall q | Pending(s, sid, q) && q != e :: !Meets(q, Sanitize(e, digest))
    ensures
      var r := Apply(cfg, s, now, ResolvePending(sid, Sanitize(e, digest)));
      !Pending(r, sid, e) && ResolvesTo(s, r, sid, e)
  {
    CompleteRun(cfg, steps, s);
    KnownRun(cfg, steps, s);
    KnownInSlot(s, sid);
    var slot := s.slots[sid];
    assert SlotFits(slot) && SlotComplete(slot);
    forall q | q in slot.pendingOrder && q != e ensures !Meets(q, Sanitize(e, digest)) { assert Pending(s, sid, q); }
    UnrivalledFindsItself(slot.pendingOrder, slot.aliases, e, digest);
    ResolvingStep(cfg, s, now, sid, Sanitize(e, digest), Some(e));
  }
}
