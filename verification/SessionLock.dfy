/**
 The per-session ticket lock of src/session-hub.ts (`bindLock`, `acquire`, `tryAcquire`).

 A ticket is one call of `bindLock`.  Its tail promise resolves once the ticket is released and
 the tail it was chained to has resolved; `tails` is the map `lockTails`.
 */
module SessionLock {
  import opened Prelude

  datatype TicketState = Waiting | Holding | Released

  datatype Ticket = Ticket(session: string, previous: Option<nat>, state: TicketState)

  datatype Locks = Locks(tickets: seq<Ticket>, tails: map<string, nat>)

  const Unlocked := Locks([], map[])

  predicate TailResolved(s: Locks, t: nat)
    decreases t
  {
    && t < |s.tickets| && s.tickets[t].state.Released?
    && (s.tickets[t].previous.Some? ==>
         s.tickets[t].previous.value < t && TailResolved(s, s.tickets[t].previous.value))
  }

  /** The promise this ticket waits for has resolved. */
  predicate Ready(s: Locks, t: nat)
    requires t < |s.tickets|
  {
    s.tickets[t].previous.Some? ==> TailResolved(s, s.tickets[t].previous.value)
  }

  function Tail(s: Locks, session: string): Option<nat> {
    if session in s.tails then Some(s.tails[session]) else None
  }

  function SetState(s: Locks, t: nat, state: TicketState): Locks
    requires t < |s.tickets|
  {
    s.(tickets := s.tickets[t := s.tickets[t].(state := state)])
  }

  /** The release function a ticket was given: unlock, and forget the tail if it is still this one. */
  function Unlock(s: Locks, t: nat): Locks
    requires t < |s.tickets|
  {
    var released := SetState(s, t, Released);
    var session := s.tickets[t].session;
    if Tail(s, session) == Some(t) then released.(tails := released.tails - {session}) else released
  }

  function Bind(s: Locks, session: string, state: TicketState): Locks {
    Locks(s.tickets + [Ticket(session, Tail(s, session), state)], s.tails[session := |s.tickets|])
  }

  datatype Step =
    | Acquire(session: string)    // an `acquire` call takes its ticket
    | TryAcquire(session: string) // a `tryAcquire` call, successful or not
    | Grant(ticket: nat)          // the awaited tail has resolved: `acquire` returns
    | Abort(ticket: nat)          // the signal of a waiting `acquire` fires
    | Release(ticket: nat)        // the holder calls its release function

  predicate Enabled(s: Locks, step: Step) {
    match step
    case Acquire(_) => true
    case TryAcquire(_) => true
    case Grant(t) => t < |s.tickets| && s.tickets[t].state.Waiting? && Ready(s, t)
    case Abort(t) => t < |s.tickets| && s.tickets[t].state.Waiting?
    case Release(t) => t < |s.tickets| && s.tickets[t].state.Holding?
  }

  function Apply(s: Locks, step: Step): Locks
    requires Enabled(s, step)
  {
    match step
    case Acquire(session) => Bind(s, session, Waiting)
    case TryAcquire(session) => if session in s.tails then s else Bind(s, session, Holding)
    case Grant(t) => SetState(s, t, Holding)
    case Abort(t) => Unlock(s, t)
    case Release(t) => Unlock(s, t)
  }

  /** The hazard: the last waiter gives up while a ticket before it is still unreleased. */
  predicate AbortsLastWaiter(s: Locks, step: Step) {
    && step.Abort? && step.ticket < |s.tickets|
    && Tail(s, s.tickets[step.ticket].session) == Some(step.ticket)
    && !Ready(s, step.ticket)
  }

  ghost predicate Reaches(steps: seq<Step>, s: Locks)
    decreases |steps|
  {
    if steps == [] then s == Unlocked
    else
      var k := |steps| - 1;
      exists p :: Reaches(steps[..k], p) && Enabled(p, steps[k]) && s == Apply(p, steps[k])
  }

  /** Runs in which no last waiter gives up too early. */
  ghost predicate SafelyReaches(steps: seq<Step>, s: Locks)
    decreases |steps|
  {
    if steps == [] then s == Unlocked
    else
      var k := |steps| - 1;
      exists p :: SafelyReaches(steps[..k], p) && Enabled(p, steps[k]) && !AbortsLastWaiter(p, steps[k])
        && s == Apply(p, steps[k])
  }

  // ---- what every run keeps ------------------------------------------------------------------------

  predicate SameSession(s: Locks, t: nat, u: nat) {
    t < |s.tickets| && u < |s.tickets| && s.tickets[t].session == s.tickets[u].session
  }

  /** Chains run backwards in one session, and a tail is an unreleased ticket of its session. */
  ghost predicate Chained(s: Locks) {
    && (forall t | 0 <= t < |s.tickets| && s.tickets[t].previous.Some? ::
         s.tickets[t].previous.value < t && SameSession(s, s.tickets[t].previous.value, t))
    && (forall k | k in s.tails :: s.tails[k] < |s.tickets|
         && s.tickets[s.tails[k]].session == k && !s.tickets[s.tails[k]].state.Released?)
  }

  lemma BindKeepsChained(s: Locks, session: string, state: TicketState)
    requires Chained(s) && !state.Released?
    ensures Chained(Bind(s, session, state))
  {
    var r := Bind(s, session, state);
    assert forall t | 0 <= t < |s.tickets| :: r.tickets[t] == s.tickets[t];
  }

  lemma UnlockKeepsChained(s: Locks, t: nat)
    requires Chained(s) && t < |s.tickets|
    ensures Chained(Unlock(s, t))
  {
    var r := Unlock(s, t);
    forall k | k in r.tails ensures r.tails[k] < |r.tickets|
      && r.tickets[r.tails[k]].session == k && !r.tickets[r.tails[k]].state.Released?
    {
      assert k in s.tails && s.tails[k] == r.tails[k];
    }
  }

  lemma StepIsChained(s: Locks, step: Step)
    requires Chained(s) && Enabled(s, step)
    ensures Chained(Apply(s, step))
  {
    match step
    case Acquire(session) => BindKeepsChained(s, session, Waiting);
    case TryAcquire(session) => BindKeepsChained(s, session, Holding);
    case Grant(t) =>
    case Abort(t) => UnlockKeepsChained(s, t);
    case Release(t) => UnlockKeepsChained(s, t);
  }

  lemma {:induction false} RunIsChained(steps: seq<Step>, s: Locks)
    requires Reaches(steps, s)
    ensures Chained(s)
    decreases |steps|
  {
    if steps != [] {
      var k := |steps| - 1;
      var p :| Reaches(steps[..k], p) && Enabled(p, steps[k]) && s == Apply(p, steps[k]);
      RunIsChained(steps[..k], p);
      StepIsChained(p, steps[k]);
    }
  }

  /** Once every ticket of a session is released its lock entry is gone, whatever was aborted. */
  lemma LockMapEmpties(steps: seq<Step>, s: Locks, session: string)
    requires Reaches(steps, s)
    requires forall t | 0 <= t < |s.tickets| && s.tickets[t].session == session :: s.tickets[t].state.Released?
    ensures session !in s.tails
  {
    RunIsChained(steps, s);
  }

  /** No waiter is forgotten: when all earlier tickets of its session are released it can be granted. */
  lemma NoLostWakeup(steps: seq<Step>, s: Locks, t: nat)
    requires Reaches(steps, s) && t < |s.tickets| && s.tickets[t].state.Waiting?
    requires forall u: nat | u < t && SameSession(s, u, t) :: s.tickets[u].state.Released?
    ensures Enabled(s, Grant(t))
  {
    RunIsChained(steps, s);
    if s.tickets[t].previous.Some? { ReleasedResolves(s, s.tickets[t].previous.value, t); }
  }

  lemma {:induction false} ReleasedResolves(s: Locks, p: nat, t: nat)
    requires Chained(s) && p < t && SameSession(s, p, t)
    requires forall u: nat | u < t && SameSession(s, u, t) :: s.tickets[u].state.Released?
    ensures TailResolved(s, p)
    decreases p
  {
    if s.tickets[p].previous.Some? { ReleasedResolves(s, s.tickets[p].previous.value, t); }
  }

  /** A ticket is chained to the ticket just before it, or everything before it was already released. */
  ghost predicate Gapless(s: Locks) {
    forall t: nat, u: nat | u < t && SameSession(s, u, t) ::
      if s.tickets[t].previous.Some? then u <= s.tickets[t].previous.value else s.tickets[u].state.Released?
  }

  ghost predicate HoldersReady(s: Locks) {
    forall t: nat | t < |s.tickets| && s.tickets[t].state.Holding? :: Ready(s, t)
  }

  /** The tail is the last ticket of its session; a session without one has no unreleased ticket. */
  ghost predicate TailsLast(s: Locks) {
    forall t: nat | t < |s.tickets| ::
      if s.tickets[t].session in s.tails then t <= s.tails[s.tickets[t].session] else s.tickets[t].state.Released?
  }

  ghost predicate Inv(s: Locks) {
    Chained(s) && Gapless(s) && HoldersReady(s) && TailsLast(s)
  }

  lemma {:induction false} ResolvedReleases(s: Locks, p: nat, u: nat)
    requires Chained(s) && Gapless(s) && TailResolved(s, p) && u <= p && SameSession(s, u, p)
    ensures s.tickets[u].state.Released?
    decreases p
  {
    if u < p && s.tickets[p].previous.Some? { ResolvedReleases(s, s.tickets[p].previous.value, u); }
  }

  /** A ticket that may hold has outlived every ticket before it. */
  lemma ReadyReleases(s: Locks, t: nat, u: nat)
    requires Chained(s) && Gapless(s) && u < t && SameSession(s, u, t) && Ready(s, t)
    ensures s.tickets[u].state.Released?
  {
    if s.tickets[t].previous.Some? { ResolvedReleases(s, s.tickets[t].previous.value, u); }
  }

  /** Promises stay resolved. */
  lemma {:induction false} ResolvedStays(s: Locks, step: Step, t: nat)
    requires Enabled(s, step) && TailResolved(s, t)
    ensures TailResolved(Apply(s, step), t)
    decreases t
  {
    if s.tickets[t].previous.Some? { ResolvedStays(s, step, s.tickets[t].previous.value); }
  }

  /** A new ticket follows the last one of its session, so it is chained without a gap. */
  lemma BindKeepsGapless(s: Locks, session: string, state: TicketState)
    requires Chained(s) && Gapless(s) && TailsLast(s)
    ensures Gapless(Bind(s, session, state)) && TailsLast(Bind(s, session, state))
  {
    var r := Bind(s, session, state);
    forall t: nat, u: nat | u < t && SameSession(r, u, t)
      ensures if r.tickets[t].previous.Some? then u <= r.tickets[t].previous.value else r.tickets[u].state.Released?
    {
      if t < |s.tickets| { assert SameSession(s, u, t); }
    }
  }

  lemma HoldersStayReady(s: Locks, step: Step)
    requires HoldersReady(s) && Enabled(s, step)
    ensures HoldersReady(Apply(s, step))
  {
    var r := Apply(s, step);
    forall t: nat | t < |r.tickets| && r.tickets[t].state.Holding? ensures Ready(r, t) {
      if t < |s.tickets| {
        assert Ready(s, t);
        if s.tickets[t].previous.Some? { ResolvedStays(s, step, s.tickets[t].previous.value); }
      }
    }
  }

  lemma SetStateKeepsGapless(s: Locks, t: nat, state: TicketState)
    requires Gapless(s) && t < |s.tickets| && !s.tickets[t].state.Released?
    ensures Gapless(SetState(s, t, state))
  {
    var r := SetState(s, t, state);
    forall v: nat, u: nat | u < v && SameSession(r, u, v)
      ensures if r.tickets[v].previous.Some? then u <= r.tickets[v].previous.value else r.tickets[u].state.Released?
    {
      assert SameSession(s, u, v);
    }
  }

  /** A ticket may go once it is ready, or while a later ticket keeps the session's tail. */
  lemma UnlockKeepsTails(s: Locks, t: nat)
    requires Inv(s) && t < |s.tickets| && !s.tickets[t].state.Released?
    requires Tail(s, s.tickets[t].session) == Some(t) ==> Ready(s, t)
    ensures Gapless(Unlock(s, t)) && TailsLast(Unlock(s, t))
  {
    var r := Unlock(s, t);
    SetStateKeepsGapless(s, t, Released);
    assert Gapless(r) by {
      forall v: nat, u: nat | u < v && SameSession(r, u, v)
        ensures if r.tickets[v].previous.Some? then u <= r.tickets[v].previous.value else r.tickets[u].state.Released?
      {
        assert SameSession(SetState(s, t, Released), u, v);
      }
    }
    forall u: nat | u < |r.tickets| && r.tickets[u].session !in r.tails ensures r.tickets[u].state.Released? {
      if r.tickets[u].session == s.tickets[t].session && Tail(s, s.tickets[t].session) == Some(t) && u < t {
        ReadyReleases(s, t, u);
      }
    }
  }

  lemma StepKeeps(s: Locks, step: Step)
    requires Inv(s) && Enabled(s, step) && !AbortsLastWaiter(s, step)
    ensures Inv(Apply(s, step))
  {
    StepIsChained(s, step);
    HoldersStayReady(s, step);
    match step
    case Acquire(session) => BindKeepsGapless(s, session, Waiting);
    case TryAcquire(session) => BindKeepsGapless(s, session, Holding);
    case Grant(t) => SetStateKeepsGapless(s, t, Holding);
    case Abort(t) => UnlockKeepsTails(s, t);
    case Release(t) => UnlockKeepsTails(s, t);
  }

  lemma {:induction false} RunKeeps(steps: seq<Step>, s: Locks)
    requires SafelyReaches(steps, s)
    ensures Inv(s)
    decreases |steps|
  {
    if steps != [] {
      var k := |steps| - 1;
      var p :| SafelyReaches(steps[..k], p) && Enabled(p, steps[k]) && !AbortsLastWaiter(p, steps[k])
        && s == Apply(p, steps[k]);
      RunKeeps(steps[..k], p);
      StepKeeps(p, steps[k]);
    }
  }

  /** At most one holder per session, granted in ticket order: all tickets before a holder are released. */
  lemma HoldersAreFifo(steps: seq<Step>, s: Locks, t: nat, u: nat)
    requires SafelyReaches(steps, s) && SameSession(s, u, t) && u != t && s.tickets[t].state.Holding?
    ensures !s.tickets[u].state.Holding?
    ensures u < t ==> s.tickets[u].state.Released?
    ensures u > t ==> !Ready(s, u)
  {
    RunKeeps(steps, s);
    if u < t { ReadyReleases(s, t, u); }
    else if Ready(s, u) { ReadyReleases(s, u, t); }
  }

  // ---- the hazard is real ----------------------------------------------------------------------------

  ghost predicate Leads(s: Locks, steps: seq<Step>, r: Locks)
    decreases |steps|
  {
    if steps == [] then s == r
    else Enabled(s, steps[0]) && Leads(Apply(s, steps[0]), steps[1..], r)
  }

  /** The first unreleased ticket before an unready one can hold, if it does not already. */
  lemma {:induction false} FirstUnreleased(s: Locks, t: nat) returns (u: nat)
    requires Inv(s) && t < |s.tickets| && !Ready(s, t)
    ensures u < t && SameSession(s, u, t) && !s.tickets[u].state.Released? && Ready(s, u)
    decreases t
  {
    var p := s.tickets[t].previous.value;
    if Ready(s, p) {
      u := p;
    } else {
      u := FirstUnreleased(s, p);
    }
  }

  /** From any state of a safe run, the hazard leads to two holders of one session. */
  lemma AbortedLastWaiterBreaksExclusion(s: Locks, t: nat)
    returns (steps: seq<Step>, r: Locks, u: nat, v: nat)
    requires Inv(s) && Enabled(s, Abort(t)) && AbortsLastWaiter(s, Abort(t))
    ensures Leads(s, [Abort(t)] + steps, r)
    ensures u != v && SameSession(r, u, v) && r.tickets[u].state.Holding? && r.tickets[v].state.Holding?
  {
    u := FirstUnreleased(s, t);
    v := |s.tickets|;
    var session := s.tickets[t].session;
    var aborted := Apply(s, Abort(t));
    var bound := Apply(aborted, TryAcquire(session));
    assert bound.tickets[v] == Ticket(session, None, Holding);
    if s.tickets[u].state.Holding? {
      steps, r := [TryAcquire(session)], bound;
      assert Leads(bound, [], r) && Leads(aborted, steps, r);
    } else {
      if s.tickets[u].previous.Some? {
        ResolvedStays(s, Abort(t), s.tickets[u].previous.value);
        ResolvedStays(aborted, TryAcquire(session), s.tickets[u].previous.value);
      }
      r := Apply(bound, Grant(u));
      steps := [TryAcquire(session), Grant(u)];
      assert steps[1..] == [Grant(u)] && steps[1..][1..] == [];
      assert Leads(bound, [Grant(u)], r) && Leads(aborted, steps, r);
    }
    assert ([Abort(t)] + steps)[1..] == steps;
  }

  // ---- the hub's lock fields -------------------------------------------------------------------------

  class SessionLocks {
    var lockTails: map<string, nat>
    var tickets: seq<Ticket>

    function State(): Locks
      reads this
    {
      Locks(tickets, lockTails)
    }

    constructor ()
      ensures State() == Unlocked && Inv(State())
    {
      lockTails, tickets := map[], [];
    }

    method BindLock(session: string) returns (ticket: nat)
      modifies this
      ensures ticket == |old(tickets)| && State() == Bind(old(State()), session, Waiting)
    {
      ticket := |tickets|;
      tickets := tickets + [Ticket(session, Tail(State(), session), Waiting)];
      lockTails := lockTails[session := ticket];
    }

    method Acquire(session: string) returns (ticket: nat)
      requires Inv(State())
      modifies this
      ensures Inv(State()) && ticket == |old(tickets)|
      ensures State() == Apply(old(State()), Step.Acquire(session))
    {
      StepKeeps(State(), Step.Acquire(session));
      ticket := BindLock(session);
    }

    /** `None` exactly when the session is already locked; otherwise the caller holds at once. */
    method TryAcquire(session: string) returns (ticket: Option<nat>)
      requires Inv(State())
      modifies this
      ensures Inv(State()) && State() == Apply(old(State()), Step.TryAcquire(session))
      ensures ticket.None? <==> session in old(lockTails)
      ensures ticket.Some? ==> ticket.value == |old(tickets)| && tickets[ticket.value].state.Holding?
      ensures ticket.Some? ==>
        forall u: nat | u < |old(tickets)| && old(tickets)[u].session == session :: old(tickets)[u].state.Released?
    {
      StepKeeps(State(), Step.TryAcquire(session));
      if session in lockTails { return None; }
      var t := BindLock(session);
      tickets := tickets[t := tickets[t].(state := Holding)];
      assert State() == Bind(old(State()), session, Holding);
      ticket := Some(t);
    }

    method Grant(t: nat)
      requires Inv(State()) && Enabled(State(), Step.Grant(t))
      modifies this
      ensures Inv(State()) && State() == Apply(old(State()), Step.Grant(t))
    {
      StepKeeps(State(), Step.Grant(t));
      tickets := tickets[t := tickets[t].(state := Holding)];
    }

    /**
     The release closure: called by the holder, or by a waiter that gives up; a second call does nothing.
     Only a last waiter that gives up too early breaks the invariant, and even it keeps the chains.
     */
    method Release(t: nat)
      requires Inv(State()) && t < |tickets|
      modifies this
      ensures Chained(State()) && (old(!AbortsLastWaiter(State(), Step.Abort(t))) ==> Inv(State()))
      ensures old(tickets)[t].state.Released? ==> State() == old(State())
      ensures !old(tickets)[t].state.Released? ==> State() == Unlock(old(State()), t)
    {
      if tickets[t].state.Released? { return; }
      UnlockKeepsChained(State(), t);
      if tickets[t].state.Holding? {
        StepKeeps(State(), Step.Release(t));
      } else if !AbortsLastWaiter(State(), Step.Abort(t)) {
        StepKeeps(State(), Step.Abort(t));
      }
      var session := tickets[t].session;
      tickets := tickets[t := tickets[t].(state := Released)];
      if session in lockTails && lockTails[session] == t { lockTails := lockTails - {session}; }
    }
  }
}
