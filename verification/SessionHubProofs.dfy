/** What every run of the session hub keeps: no call is lost, deadlines, recency order, capacity. */
module SessionHubProofs {
  import opened Prelude
  import opened ToolCallIds
  import opened SessionHub

  ghost predicate Distinct<T>(xs: seq<T>) {
    forall i, j | 0 <= i < j < |xs| :: xs[i] != xs[j]
  }

  ghost predicate SlotFits(slot: Slot) {
    (forall k :: k in slot.pendingOrder <==> k in slot.pending) && Distinct(slot.pendingOrder)
  }

  ghost predicate WellFormed(s: Hub) {
    && (forall k :: k in s.order <==> k in s.slots) && Distinct(s.order)
    && (forall k | k in s.slots :: SlotFits(s.slots[k]))
  }

  // ---- the ledger of tool calls ----------------------------------------------------------------------

  predicate Pending(s: Hub, sid: string, id: string) {
    sid in s.slots && id in s.slots[sid].pending
  }

  function SerialOf(s: Hub, sid: string, id: string): nat
    requires Pending(s, sid, id)
  {
    s.slots[sid].pending[id].serial
  }

  ghost predicate IsSettled(s: Hub, serial: nat) {
    exists i :: 0 <= i < |s.settled| && s.settled[i].serial == serial
  }

  ghost predicate IsPending(s: Hub, serial: nat) {
    exists sid, id :: Pending(s, sid, id) && SerialOf(s, sid, id) == serial
  }

  /** Each registered call is pending in exactly one place, or has been settled exactly once. */
  ghost predicate Ledger(s: Hub) {
    && (forall sid, id | Pending(s, sid, id) :: SerialOf(s, sid, id) < s.next && !IsSettled(s, SerialOf(s, sid, id)))
    && (forall sid, id, tid, jd | Pending(s, sid, id) && Pending(s, tid, jd) && SerialOf(s, sid, id) == SerialOf(s, tid, jd) ::
         sid == tid && id == jd)
    && (forall i | 0 <= i < |s.settled| :: s.settled[i].serial < s.next)
    && (forall i, j | 0 <= i < j < |s.settled| :: s.settled[i].serial != s.settled[j].serial)
    && (forall n: nat | n < s.next :: IsSettled(s, n) || IsPending(s, n))
  }

  /** Same pending calls, same ledger. */
  lemma LedgerFrame(s: Hub, r: Hub)
    requires Ledger(s) && r.next == s.next && r.settled == s.settled
    requires forall sid, id :: Pending(s, sid, id) <==> Pending(r, sid, id)
    requires forall sid, id | Pending(s, sid, id) :: SerialOf(r, sid, id) == SerialOf(s, sid, id)
    ensures Ledger(r)
  {
    forall n: nat | n < r.next ensures IsSettled(r, n) || IsPending(r, n) {
      assert IsSettled(s, n) || IsPending(s, n);
      if IsPending(s, n) {
        var sid, id :| Pending(s, sid, id) && SerialOf(s, sid, id) == n;
        assert Pending(r, sid, id);
      }
    }
    forall sid, id | Pending(r, sid, id) ensures !IsSettled(r, SerialOf(r, sid, id)) {
      assert Pending(s, sid, id) && !IsSettled(s, SerialOf(s, sid, id));
    }
  }

  lemma {:induction false} WithoutLemma(order: seq<string>, id: string)
    ensures forall k :: k in Without(order, id) <==> k in order && k != id
    ensures Distinct(order) ==> Distinct(Without(order, id))
  {
    if order != [] {
      WithoutLemma(order[1..], id);
      var rest := Without(order[1..], id);
      assert forall k :: k in order <==> k == order[0] || k in order[1..];
      if Distinct(order) {
        assert Distinct(order[1..]);
        assert order[0] !in order[1..];
        if order[0] != id {
          assert Without(order, id) == [order[0]] + rest;
        } else {
          assert Without(order, id) == rest;
        }
      }
    }
  }

  predicate Lists(order: seq<string>, pending: map<string, Hold>, serial: nat) {
    exists k :: k in order && k in pending && pending[k].serial == serial
  }

  lemma {:induction false} RejectionsListed(order: seq<string>, pending: map<string, Hold>, i: nat)
    requires i < |Rejections(order, pending)|
    ensures Lists(order, pending, Rejections(order, pending)[i].serial)
  {
    var head := if order[0] in pending then 1 else 0;
    if i >= head {
      RejectionsListed(order[1..], pending, i - head);
      var k :| k in order[1..] && k in pending && pending[k].serial == Rejections(order, pending)[i].serial;
      assert k in order;
    }
  }

  lemma {:induction false} RejectionsCover(order: seq<string>, pending: map<string, Hold>, k: string) returns (i: nat)
    requires k in order && k in pending
    ensures i < |Rejections(order, pending)| && Rejections(order, pending)[i].serial == pending[k].serial
  {
    if k == order[0] {
      i := 0;
    } else {
      i := RejectionsCover(order[1..], pending, k);
      i := if order[0] in pending then i + 1 else i;
    }
  }

  lemma {:induction false} RejectionsDistinct(order: seq<string>, pending: map<string, Hold>, i: nat, j: nat)
    requires Distinct(order) && i < j < |Rejections(order, pending)|
    requires forall k, l | k in pending && l in pending && pending[k].serial == pending[l].serial :: k == l
    ensures Rejections(order, pending)[i].serial != Rejections(order, pending)[j].serial
  {
    var head := if order[0] in pending then 1 else 0;
    assert Distinct(order[1..]);
    if i >= head {
      RejectionsDistinct(order[1..], pending, i - head, j - head);
    } else {
      RejectionsListed(order[1..], pending, j - 1);
      var k :| k in order[1..] && k in pending && pending[k].serial == Rejections(order, pending)[j].serial;
      assert k != order[0];
    }
  }

  /** `r` is `s` after the calls of `batch` stopped being pending, each settled once. */
  ghost predicate SettlesBatch(s: Hub, r: Hub, batch: seq<Settlement>) {
    && r.next == s.next && r.settled == s.settled + batch
    && (forall sid, id | Pending(r, sid, id) :: Pending(s, sid, id) && SerialOf(r, sid, id) == SerialOf(s, sid, id))
    && (forall i | 0 <= i < |batch| :: WasPending(s, r, batch[i].serial))
    && (forall sid, id | Pending(s, sid, id) && !Pending(r, sid, id) ::
         exists i :: 0 <= i < |batch| && batch[i].serial == SerialOf(s, sid, id))
    && (forall i, j | 0 <= i < j < |batch| :: batch[i].serial != batch[j].serial)
  }

  ghost predicate WasPending(s: Hub, r: Hub, serial: nat) {
    exists sid, id :: Pending(s, sid, id) && !Pending(r, sid, id) && SerialOf(s, sid, id) == serial
  }

  lemma BatchIsNew(s: Hub, r: Hub, batch: seq<Settlement>, i: nat)
    requires Ledger(s) && SettlesBatch(s, r, batch) && i < |batch|
    ensures !IsSettled(s, batch[i].serial) && batch[i].serial < s.next
    ensures forall sid, id | Pending(r, sid, id) :: SerialOf(r, sid, id) != batch[i].serial
  {
    assert WasPending(s, r, batch[i].serial);
    var tid, jd :| Pending(s, tid, jd) && !Pending(r, tid, jd) && SerialOf(s, tid, jd) == batch[i].serial;
    assert !IsSettled(s, SerialOf(s, tid, jd));
  }

  lemma SettlingIsComplete(s: Hub, r: Hub, batch: seq<Settlement>, m: nat)
    requires Ledger(s) && SettlesBatch(s, r, batch) && m < r.next
    ensures IsSettled(r, m) || IsPending(r, m)
  {
    if IsSettled(s, m) {
      var i :| 0 <= i < |s.settled| && s.settled[i].serial == m;
      assert r.settled[i].serial == m;
    } else {
      assert IsPending(s, m);
      var sid, id :| Pending(s, sid, id) && SerialOf(s, sid, id) == m;
      if !Pending(r, sid, id) {
        var i :| 0 <= i < |batch| && batch[i].serial == SerialOf(s, sid, id);
        assert r.settled[|s.settled| + i].serial == m;
      }
    }
  }

  /** Appending settlements of calls that stop being pending, each once, keeps the ledger. */
  lemma SettlingKeepsLedger(s: Hub, r: Hub, batch: seq<Settlement>)
    requires Ledger(s) && SettlesBatch(s, r, batch)
    ensures Ledger(r)
  {
    var n := |s.settled|;
    forall i | 0 <= i < |r.settled|
      ensures r.settled[i].serial < r.next
      ensures forall sid, id | Pending(r, sid, id) :: SerialOf(r, sid, id) != r.settled[i].serial
      ensures forall j | 0 <= j < i :: r.settled[j].serial != r.settled[i].serial
    {
      if i < n {
        assert r.settled[i] == s.settled[i];
        forall sid, id | Pending(r, sid, id) ensures SerialOf(r, sid, id) != r.settled[i].serial {
          assert !IsSettled(s, SerialOf(s, sid, id));
        }
      } else {
        var m := i - n;
        assert r.settled[i] == batch[m];
        BatchIsNew(s, r, batch, m);
        forall j | 0 <= j < i ensures r.settled[j].serial != r.settled[i].serial {
          if j >= n { assert r.settled[j] == batch[j - n]; } else { assert r.settled[j] == s.settled[j]; }
        }
      }
    }
    forall m: nat | m < r.next ensures IsSettled(r, m) || IsPending(r, m) {
      SettlingIsComplete(s, r, batch, m);
    }
  }

  lemma DropKeepsLedger(s: Hub, sid: string)
    requires WellFormed(s) && Ledger(s)
    ensures WellFormed(DropSlot(s, sid)) && Ledger(DropSlot(s, sid))
  {
    if sid in s.slots {
      var r := DropSlot(s, sid);
      var slot := s.slots[sid];
      WithoutLemma(s.order, sid);
      assert SlotFits(slot);
      forall k, j | k in slot.pending && j in slot.pending && slot.pending[k].serial == slot.pending[j].serial ensures k == j {
        assert Pending(s, sid, k) && Pending(s, sid, j);
      }
      var batch := Rejections(slot.pendingOrder, slot.pending);
      forall i, j | 0 <= i < j < |batch| ensures batch[i].serial != batch[j].serial {
        RejectionsDistinct(slot.pendingOrder, slot.pending, i, j);
      }
      forall tid, id | Pending(s, tid, id) && !Pending(r, tid, id)
        ensures exists i :: 0 <= i < |batch| && batch[i].serial == SerialOf(s, tid, id)
      {
        var i := RejectionsCover(slot.pendingOrder, slot.pending, id);
      }
      forall i | 0 <= i < |batch| ensures WasPending(s, r, batch[i].serial) {
        RejectionsListed(slot.pendingOrder, slot.pending, i);
        assert Lists(slot.pendingOrder, slot.pending, batch[i].serial);
        var k :| k in slot.pendingOrder && k in slot.pending && slot.pending[k].serial == batch[i].serial;
        assert Pending(s, sid, k);
      }
      SettlingKeepsLedger(s, r, batch);
    }
  }

  /** One call stops being pending and is settled. */
  lemma SettleOneKeepsLedger(s: Hub, r: Hub, sid: string, id: string, resolved: bool)
    requires Ledger(s) && Pending(s, sid, id)
    requires r.next == s.next && r.settled == s.settled + [Settlement(SerialOf(s, sid, id), resolved)]
    requires forall tid, jd :: Pending(r, tid, jd) <==> Pending(s, tid, jd) && !(tid == sid && jd == id)
    requires forall tid, jd | Pending(r, tid, jd) :: SerialOf(r, tid, jd) == SerialOf(s, tid, jd)
    ensures Ledger(r)
  {
    var batch := [Settlement(SerialOf(s, sid, id), resolved)];
    assert WasPending(s, r, batch[0].serial);
    forall tid, jd | Pending(s, tid, jd) && !Pending(r, tid, jd)
      ensures exists i :: 0 <= i < |batch| && batch[i].serial == SerialOf(s, tid, jd)
    {
      assert batch[0].serial == SerialOf(s, tid, jd);
    }
    SettlingKeepsLedger(s, r, batch);
  }

  /** A call registered under a free id becomes pending. */
  lemma PendOneKeepsLedger(s: Hub, r: Hub, sid: string, id: string)
    requires Ledger(s) && !Pending(s, sid, id)
    requires r.next == s.next + 1 && r.settled == s.settled
    requires forall tid, jd :: Pending(r, tid, jd) <==> Pending(s, tid, jd) || (tid == sid && jd == id)
    requires SerialOf(r, sid, id) == s.next
    requires forall tid, jd | Pending(s, tid, jd) :: SerialOf(r, tid, jd) == SerialOf(s, tid, jd)
    ensures Ledger(r)
  {
    forall n: nat | n < r.next ensures IsSettled(r, n) || IsPending(r, n) {
      if n < s.next {
        assert IsSettled(s, n) || IsPending(s, n);
        if IsPending(s, n) {
          var tid, jd :| Pending(s, tid, jd) && SerialOf(s, tid, jd) == n;
          assert Pending(r, tid, jd);
        }
      } else {
        assert Pending(r, sid, id);
      }
    }
    forall tid, jd | Pending(r, tid, jd) ensures !IsSettled(r, SerialOf(r, tid, jd)) {
      if Pending(s, tid, jd) { assert !IsSettled(s, SerialOf(s, tid, jd)); }
    }
  }

  /** A call registered without a slot is settled at once. */
  lemma RefuseKeepsLedger(s: Hub, r: Hub)
    requires Ledger(s) && r.slots == s.slots && r.next == s.next + 1
    requires r.settled == s.settled + [Settlement(s.next, false)]
    ensures Ledger(r)
  {
    assert forall tid, jd :: Pending(r, tid, jd) <==> Pending(s, tid, jd);
    forall n: nat | n < r.next ensures IsSettled(r, n) || IsPending(r, n) {
      if n == s.next {
        assert r.settled[|s.settled|].serial == n;
      } else if IsSettled(s, n) {
        var i :| 0 <= i < |s.settled| && s.settled[i].serial == n;
        assert r.settled[i].serial == n;
      } else {
        assert IsPending(s, n);
        var tid, jd :| Pending(s, tid, jd) && SerialOf(s, tid, jd) == n;
        assert Pending(r, tid, jd);
      }
    }
    forall tid, jd | Pending(r, tid, jd) ensures !IsSettled(r, SerialOf(r, tid, jd)) {
      assert !IsSettled(s, SerialOf(s, tid, jd));
    }
  }

  // ---- deadlines, timers, recency, capacity ------------------------------------------------------------

  /** `d` is the latest deadline among the pending calls. */
  ghost predicate IsLatest(slot: Slot, d: int) {
    && (forall k | k in slot.pending :: slot.pending[k].deadline <= d)
    && (exists k :: k in slot.pending && slot.pending[k].deadline == d)
  }

  ghost predicate SlotDue(slot: Slot) {
    slot.state.AwaitingTools? && slot.pending != map[] ==> slot.holdDeadline.Some? && IsLatest(slot, slot.holdDeadline.value)
  }

  /** A hold timer is armed only for an awaiting slot, and for its deadline. */
  ghost predicate TimersTruthful(s: Hub) {
    forall sid | sid in s.timers ::
      sid in s.slots && s.slots[sid].state.AwaitingTools? && s.slots[sid].holdDeadline == Some(s.timers[sid])
  }

  /** The map order is the order of last use. */
  ghost predicate ByRecency(slots: map<string, Slot>, order: seq<string>, clock: int) {
    order == [] ||
    (order[0] in slots && slots[order[0]].lastUsedAt <= clock && ByRecency(slots, order[1..], clock)
     && forall k | k in order[1..] && k in slots :: slots[order[0]].lastUsedAt <= slots[k].lastUsedAt)
  }

  ghost predicate AllDue(s: Hub) {
    forall k | k in s.slots :: SlotDue(s.slots[k])
  }

  /** The invariant without the ledger. */
  ghost predicate Shape(cfg: Config, s: Hub) {
    && WellFormed(s) && TimersTruthful(s) && AllDue(s)
    && ByRecency(s.slots, s.order, s.clock)
    && |s.slots| <= cfg.maxLive
  }

  ghost predicate Inv(cfg: Config, s: Hub) {
    Shape(cfg, s) && Ledger(s)
  }

  lemma {:induction false} ByRecencyWithout(slots: map<string, Slot>, order: seq<string>, clock: int, id: string,
                                            slots': map<string, Slot>, later: int)
    requires ByRecency(slots, order, clock) && clock <= later
    requires forall k | k in order && k != id && k in slots :: k in slots' && slots'[k].lastUsedAt == slots[k].lastUsedAt
    ensures ByRecency(slots', Without(order, id), later)
    ensures forall k | k in Without(order, id) :: k in slots' && slots'[k].lastUsedAt <= clock
  {
    if order != [] {
      WithoutLemma(order, id);
      WithoutLemma(order[1..], id);
      ByRecencyWithout(slots, order[1..], clock, id, slots', later);
      var rest := Without(order[1..], id);
      if order[0] != id {
        assert Without(order, id) == [order[0]] + rest && ([order[0]] + rest)[1..] == rest;
        ListedBelow(slots, order, clock);
      } else {
        assert Without(order, id) == rest;
      }
    }
  }

  lemma {:induction false} ListedBelow(slots: map<string, Slot>, order: seq<string>, clock: int)
    requires ByRecency(slots, order, clock)
    ensures forall k | k in order :: k in slots && slots[k].lastUsedAt <= clock
  {
    if order != [] { ListedBelow(slots, order[1..], clock); }
  }

  lemma {:induction false} ByRecencyAppend(slots: map<string, Slot>, order: seq<string>, id: string, now: int)
    requires ByRecency(slots, order, now) && id in slots && slots[id].lastUsedAt == now
    ensures ByRecency(slots, order + [id], now)
  {
    if order == [] {
      assert ([id])[1..] == [];
      assert order + [id] == [id];
    } else {
      assert (order + [id])[1..] == order[1..] + [id] && (order + [id])[0] == order[0];
      ByRecencyAppend(slots, order[1..], id, now);
    }
  }

  lemma {:induction false} MaxDeadlineLemma(order: seq<string>, pending: map<string, Hold>)
    ensures forall k | k in order && k in pending ::
      MaxDeadline(order, pending).Some? && pending[k].deadline <= MaxDeadline(order, pending).value
    ensures MaxDeadline(order, pending).Some? ==>
      exists k :: k in order && k in pending && pending[k].deadline == MaxDeadline(order, pending).value
  {
    if order != [] {
      MaxDeadlineLemma(order[1..], pending);
      var rest := MaxDeadline(order[1..], pending);
      if rest.Some? {
        var k :| k in order[1..] && k in pending && pending[k].deadline == rest.value;
        assert k in order;
      }
    }
  }

  // ---- the building blocks keep the invariant ------------------------------------------------------------

  lemma StoreWellFormed(s: Hub, sid: string, slot: Slot, now: int)
    requires WellFormed(s) && SlotFits(slot)
    ensures WellFormed(Store(s, sid, slot, now))
  {
    var r := Store(s, sid, slot, now);
    WithoutLemma(s.order, sid);
    var rest := Without(s.order, sid);
    assert Distinct(rest + [sid]) by {
      forall i, j | 0 <= i < j < |rest + [sid]| ensures (rest + [sid])[i] != (rest + [sid])[j] {
        if j == |rest| { assert rest[i] in rest; }
      }
    }
    assert SlotFits(r.slots[sid]);
  }

  lemma StoreRecency(s: Hub, sid: string, slot: Slot, now: int)
    requires WellFormed(s) && ByRecency(s.slots, s.order, s.clock) && now >= s.clock
    ensures ByRecency(Store(s, sid, slot, now).slots, Store(s, sid, slot, now).order, now)
  {
    var r := Store(s, sid, slot, now);
    ByRecencyWithout(s.slots, s.order, s.clock, sid, r.slots, now);
    ByRecencyAppend(r.slots, Without(s.order, sid), sid, now);
  }

  lemma StoreDue(s: Hub, sid: string, slot: Slot, now: int)
    requires AllDue(s) && SlotDue(slot)
    ensures AllDue(Store(s, sid, slot, now))
  {
    var r := Store(s, sid, slot, now);
    assert SlotDue(r.slots[sid]);
  }

  lemma StoreTimers(s: Hub, sid: string, slot: Slot, timers: map<string, int>, now: int)
    requires TimersTruthful(s)
    requires forall k | k in timers && k != sid :: k in s.timers && s.timers[k] == timers[k]
    requires sid in timers ==> slot.state.AwaitingTools? && slot.holdDeadline == Some(timers[sid])
    ensures TimersTruthful(Store(s.(timers := timers), sid, slot, now))
  {
  }

  /** Storing a slot as the most recently used one. */
  lemma StoreShape(cfg: Config, s: Hub, sid: string, slot: Slot, timers: map<string, int>, now: int)
    requires Shape(cfg, s) && now >= s.clock && SlotFits(slot) && SlotDue(slot)
    requires forall k | k in timers && k != sid :: k in s.timers && s.timers[k] == timers[k]
    requires sid in timers ==> slot.state.AwaitingTools? && slot.holdDeadline == Some(timers[sid])
    requires sid in s.slots || |s.slots| < cfg.maxLive
    ensures Shape(cfg, Store(s.(timers := timers), sid, slot, now).(clock := now))
  {
    var r := Store(s.(timers := timers), sid, slot, now).(clock := now);
    StoreWellFormed(s, sid, slot, now);
    StoreRecency(s, sid, slot, now);
    StoreDue(s, sid, slot, now);
    StoreTimers(s, sid, slot, timers, now);
    var plain := Store(s, sid, slot, now);
    assert r.slots == plain.slots && r.order == plain.order;
    assert r.slots.Keys == s.slots.Keys + {sid};
  }
}
