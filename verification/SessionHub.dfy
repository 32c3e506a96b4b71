/**
 The session slots of src/session-hub.ts: hung tool calls with deadlines, and recycling by
 expiry, by least recent use and on request.

 Each registered tool call carries a serial number; `settled` lists the resolve and reject calls
 that were made, in order.  `order` is the insertion order of the slot map.  A drop runs
 synchronously up to its first await, so it is one step.
 */
module SessionHub {
  import opened Prelude
  import opened ToolCallIds

  datatype Hold = Hold(serial: nat, deadline: int, delegated: bool)

  datatype SlotState = Running | AwaitingTools | Idle | Dead

  datatype Slot = Slot(state: SlotState, pendingOrder: seq<string>, pending: map<string, Hold>,
                       aliases: seq<Alias>, holdDeadline: Option<int>, lastUsedAt: int)

  datatype Settlement = Settlement(serial: nat, resolved: bool)

  datatype Hub = Hub(slots: map<string, Slot>, order: seq<string>, timers: map<string, int>,
                     next: nat, settled: seq<Settlement>, clock: int)

  /** `timers` is false for a hub with an injected clock, which never arms a hold timer. */
  datatype Config = Config(holdTtl: int, delegateTtl: int, idleTtl: int, maxLive: nat, timers: bool)

  const Empty := Hub(map[], [], map[], 0, [], 0)

  function NewSlot(state: SlotState): Slot {
    Slot(state, [], map[], [], None, 0)
  }

  // ---- the building blocks of a step ----------------------------------------------------------------

  function Without(order: seq<string>, id: string): seq<string> {
    if order == [] then []
    else (if order[0] == id then [] else [order[0]]) + Without(order[1..], id)
  }

  /** Reject every pending call of the slot, in registration order. */
  function Rejections(order: seq<string>, pending: map<string, Hold>): seq<Settlement> {
    if order == [] then []
    else
      var head := if order[0] in pending then [Settlement(pending[order[0]].serial, false)] else [];
      head + Rejections(order[1..], pending)
  }

  function DropSlot(s: Hub, sid: string): Hub {
    if sid !in s.slots then s
    else s.(slots := s.slots - {sid}, order := Without(s.order, sid), timers := s.timers - {sid},
            settled := s.settled + Rejections(s.slots[sid].pendingOrder, s.slots[sid].pending))
  }

  function DropAll(s: Hub, sids: seq<string>): Hub
    decreases |sids|
  {
    if sids == [] then s else DropAll(DropSlot(s, sids[0]), sids[1..])
  }

  /** Store a slot as the most recently used one. */
  function Store(s: Hub, sid: string, slot: Slot, now: int): Hub {
    s.(slots := s.slots[sid := slot.(lastUsedAt := now)], order := Without(s.order, sid) + [sid])
  }

  function Touch(s: Hub, sid: string, now: int): Hub {
    if sid in s.slots then Store(s, sid, s.slots[sid], now) else s
  }

  datatype Reason = HoldExpired | IdleExpired

  /** `expiryReason`. */
  function Expiry(cfg: Config, slot: Slot, now: int): Option<Reason> {
    if slot.state.AwaitingTools? && slot.holdDeadline.Some? && now >= slot.holdDeadline.value then Some(HoldExpired)
    else if slot.state.Idle? && now - slot.lastUsedAt >= cfg.idleTtl then Some(IdleExpired)
    else if slot.state.Dead? then Some(IdleExpired)
    else None
  }

  function ExpiredIn(cfg: Config, s: Hub, order: seq<string>, now: int): seq<string> {
    if order == [] then []
    else
      var head := if order[0] in s.slots && Expiry(cfg, s.slots[order[0]], now).Some? then [order[0]] else [];
      head + ExpiredIn(cfg, s, order[1..], now)
  }

  predicate HasDelegatedHold(slot: Slot) {
    exists k :: k in slot.pending && slot.pending[k].delegated
  }

  function FirstWith(s: Hub, order: seq<string>, keep: string, pick: Slot -> bool): (r: Option<string>)
    ensures r.Some? ==> r.value in order && r.value in s.slots && r.value != keep && pick(s.slots[r.value])
    ensures r.None? ==> forall k | k in order && k in s.slots && k != keep :: !pick(s.slots[k])
  {
    if order == [] then None
    else if order[0] in s.slots && order[0] != keep && pick(s.slots[order[0]]) then Some(order[0])
    else FirstWith(s, order[1..], keep, pick)
  }

  predicate Finished(slot: Slot) { slot.state.Idle? || slot.state.Dead? }

  predicate Parked(slot: Slot) { slot.state.AwaitingTools? && !HasDelegatedHold(slot) }

  /** `pickLruVictim`. */
  function PickVictim(s: Hub, keep: string): Option<string> {
    var finished := FirstWith(s, s.order, keep, Finished);
    if finished.Some? then finished else FirstWith(s, s.order, keep, Parked)
  }

  function EvictToFit(cfg: Config, s: Hub, keep: string): Hub
    decreases |s.slots|
  {
    if |s.slots| < cfg.maxLive then s
    else
      var victim := PickVictim(s, keep);
      if victim.None? then s else EvictToFit(cfg, DropSlot(s, victim.value), keep)
  }

  function MaxDeadline(order: seq<string>, pending: map<string, Hold>): Option<int> {
    if order == [] then None
    else
      var rest := MaxDeadline(order[1..], pending);
      if order[0] !in pending then rest
      else if rest.Some? && rest.value >= pending[order[0]].deadline then rest
      else Some(pending[order[0]].deadline)
  }

  /** `refreshHoldDeadline`: the slot waits for its latest hold. */
  function Refreshed(cfg: Config, slot: Slot, now: int): Slot {
    slot.(holdDeadline := Some(MaxDeadline(slot.pendingOrder, slot.pending).GetOr(now + cfg.holdTtl)))
  }

  function Left(slot: Slot, state: SlotState): Slot {
    slot.(state := state, holdDeadline := None)
  }

  /** The hold timer of an awaiting slot is armed for its deadline; any other slot has none. */
  function Timers(cfg: Config, timers: map<string, int>, sid: string, slot: Slot): map<string, int> {
    if cfg.timers && slot.state.AwaitingTools? && slot.holdDeadline.Some?
    then timers[sid := slot.holdDeadline.value] else timers - {sid}
  }

  /** Replace a stored slot, set its timer to match, and make it the most recently used one. */
  function Enter(cfg: Config, s: Hub, sid: string, slot: Slot, now: int): Hub {
    Store(s.(timers := Timers(cfg, s.timers, sid, slot)), sid, slot, now)
  }

  function Uncalled(slot: Slot, id: string): Slot {
    slot.(pendingOrder := Without(slot.pendingOrder, id), pending := slot.pending - {id})
  }

  /** The slot after one call is gone: it runs on if it awaited nothing else, or waits for the rest. */
  function AfterCall(cfg: Config, slot: Slot, id: string, now: int): Slot {
    var rest := Uncalled(slot, id);
    if !slot.state.AwaitingTools? then rest
    else if rest.pending == map[] then Left(rest, Running)
    else Refreshed(cfg, rest, now)
  }

  function Settle(cfg: Config, s: Hub, sid: string, id: string, resolved: bool, now: int): Hub
    requires sid in s.slots && id in s.slots[sid].pending
  {
    var slot := s.slots[sid];
    var called := s.(settled := s.settled + [Settlement(slot.pending[id].serial, resolved)]);
    if slot.state.AwaitingTools? then Enter(cfg, called, sid, AfterCall(cfg, slot, id, now), now)
    else Store(called, sid, Uncalled(slot, id), now)
  }

  function SetAlias(aliases: seq<Alias>, alias: string, execute: string): seq<Alias> {
    if aliases == [] then [Alias(alias, execute)]
    else if aliases[0].alias == alias then [Alias(alias, execute)] + aliases[1..]
    else [aliases[0]] + SetAlias(aliases[1..], alias, execute)
  }

  /** `rememberCallAlias`. */
  function Remember(aliases: seq<Alias>, execute: string, alias: string): seq<Alias> {
    if alias == "" || alias == execute then aliases else SetAlias(aliases, alias, execute)
  }

  function RememberAll(aliases: seq<Alias>, execute: string, tokens: seq<string>): seq<Alias>
    decreases |tokens|
  {
    if tokens == [] then aliases else RememberAll(Remember(aliases, execute, tokens[0]), execute, tokens[1..])
  }

  function Aliased(aliases: seq<Alias>, execute: string): seq<Alias> {
    RememberAll(Remember(aliases, execute, ResponsesCallId(execute)), execute, Tokens(execute))
  }

  function Held(slot: Slot, id: string, hold: Hold, aliases: seq<Alias>): Slot {
    slot.(pendingOrder := if id in slot.pending then slot.pendingOrder else slot.pendingOrder + [id],
          pending := slot.pending[id := hold], aliases := aliases)
  }

  /** Add one call to a stored slot; an awaiting slot refreshes its deadline. */
  function Pend(cfg: Config, s: Hub, sid: string, id: string, hold: Hold, aliases: seq<Alias>, now: int): Hub
    requires sid in s.slots
  {
    var held := Held(s.slots[sid], id, hold, aliases);
    if held.state.AwaitingTools? then
      var waiting := Refreshed(cfg, held, now);
      s.(next := s.next + 1, slots := s.slots[sid := waiting], timers := Timers(cfg, s.timers, sid, waiting))
    else s.(next := s.next + 1, slots := s.slots[sid := held])
  }

  function NewHold(cfg: Config, serial: nat, ttl: Option<int>, delegated: bool, now: int): Hold {
    Hold(serial, now + ttl.GetOr(if delegated then cfg.delegateTtl else cfg.holdTtl), delegated)
  }

  /** `registerHold`; without a slot the call is rejected on the spot. */
  function Register(cfg: Config, s: Hub, sid: string, id: string, ttl: Option<int>, delegated: bool, now: int): Hub {
    if sid !in s.slots then s.(next := s.next + 1, settled := s.settled + [Settlement(s.next, false)])
    else Pend(cfg, s, sid, id, NewHold(cfg, s.next, ttl, delegated, now), Aliased(s.slots[sid].aliases, id), now)
  }

  // ---- steps ---------------------------------------------------------------------------------------------

  datatype Step =
    | Get(sid: string)
    | PutNew(sid: string, state: SlotState) // `put` of a freshly created slot
    | PutAgain(sid: string)                 // `put` of the slot that is already stored
    | RegisterHold(sid: string, id: string, ttl: Option<int>, delegated: bool)
    | ResolvePending(sid: string, clientId: string)
    | RejectPending(sid: string, id: string)
    | BeginAwaiting(sid: string)
    | MarkRunning(sid: string)
    | MarkIdle(sid: string)
    | TouchLocked(sid: string)              // `acquire` and `tryAcquire` once the lock is held
    | Drop(sid: string)
    | Sweep
    | TimerFires(sid: string)

  /** A timer fires no earlier than the deadline it was armed for. */
  predicate Enabled(s: Hub, now: int, step: Step) {
    now >= s.clock && (step.TimerFires? ==> step.sid in s.timers && now >= s.timers[step.sid])
  }

  function Run(cfg: Config, s: Hub, now: int, step: Step): Hub {
    match step
    case Get(sid) =>
      if sid in s.slots && Expiry(cfg, s.slots[sid], now).Some? then DropSlot(s, sid) else s
    case PutNew(sid, state) =>
      if sid in s.slots then Store(s, sid, NewSlot(state), now)
      else
        var fitted := EvictToFit(cfg, s, sid);
        if |fitted.slots| >= cfg.maxLive then fitted else Store(fitted, sid, NewSlot(state), now)
    case PutAgain(sid) => Touch(s, sid, now)
    case RegisterHold(sid, id, ttl, delegated) => Register(cfg, s, sid, id, ttl, delegated, now)
    case ResolvePending(sid, clientId) =>
      if sid !in s.slots then s
      else
        var id := CanonicalHoldId(s.slots[sid].pendingOrder, s.slots[sid].aliases, clientId);
        if id.Some? && id.value in s.slots[sid].pending then Settle(cfg, s, sid, id.value, true, now) else s
    case RejectPending(sid, id) =>
      if sid in s.slots && id in s.slots[sid].pending then Settle(cfg, s, sid, id, false, now) else s
    case BeginAwaiting(sid) =>
      if sid !in s.slots then s
      else Enter(cfg, s, sid, Refreshed(cfg, s.slots[sid].(state := AwaitingTools), now), now)
    case MarkRunning(sid) => if sid in s.slots then Enter(cfg, s, sid, Left(s.slots[sid], Running), now) else s
    case MarkIdle(sid) => if sid in s.slots then Enter(cfg, s, sid, Left(s.slots[sid], Idle), now) else s
    case TouchLocked(sid) => Touch(s, sid, now)
    case Drop(sid) => DropSlot(s, sid)
    case Sweep => DropAll(s, ExpiredIn(cfg, s, s.order, now))
    case TimerFires(sid) => DropSlot(s.(timers := s.timers - {sid}), sid)
  }

  function Apply(cfg: Config, s: Hub, now: int, step: Step): Hub {
    Run(cfg, s, now, step).(clock := now)
  }
}
