/** When the aliases of the slots of a hub are complete, and what a step carries over. */
module HubAliases {
  import opened Prelude
  import opened ToolCallIds
  import opened SessionHub
  import opened HoldAliases

  ghost predicate SlotComplete(slot: Slot) { Complete(slot.pendingOrder, slot.aliases) }

  ghost predicate AliasesComplete(s: Hub) {
    forall sid | sid in s.slots :: SlotComplete(s.slots[sid])
  }

  /** The call this step settles in its slot. */
  function SettledBy(s: Hub, step: Step): Option<string> {
    match step
    case ResolvePending(sid, clientId) =>
      if sid in s.slots then CanonicalHoldId(s.slots[sid].pendingOrder, s.slots[sid].aliases, clientId) else None
    case RejectPending(sid, id) => if sid in s.slots && id in s.slots[sid].pendingOrder then Some(id) else None
    case _ => None
  }

  /** The step settles a call to which forms of other pending calls lead. */
  ghost predicate SettlesOwner(s: Hub, step: Step) {
    (step.ResolvePending? || step.RejectPending?) && SettledBy(s, step).Some? && step.sid in s.slots
    && OwnsFormOfAnother(s.slots[step.sid].pendingOrder, s.slots[step.sid].aliases, SettledBy(s, step).value)
  }

  ghost predicate SameAliases(a: Slot, b: Slot) { a.pendingOrder == b.pendingOrder && a.aliases == b.aliases }

  /** The slots of `r` keep calls and aliases of `s`, or have no calls. */
  ghost predicate Carried(s: Hub, r: Hub) {
    forall sid | sid in r.slots :: r.slots[sid].pendingOrder == [] || (sid in s.slots && SameAliases(r.slots[sid], s.slots[sid]))
  }

  /** All slots but one are as they were. */
  ghost predicate OnlyChanges(s: Hub, r: Hub, sid: string) {
    r.slots.Keys == s.slots.Keys && forall k | k in s.slots && k != sid :: SameAliases(r.slots[k], s.slots[k])
  }
}
