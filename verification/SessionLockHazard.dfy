/** A run that gets the session lock to two holders: the last of three callers gives up while the first still holds. */
module SessionLockHazard {
  import opened Prelude
  import opened SessionLock

  lemma SafelyNext(steps: seq<Step>, s: Locks, step: Step)
    requires SafelyReaches(steps, s) && Enabled(s, step) && !AbortsLastWaiter(s, step)
    ensures SafelyReaches(steps + [step], Apply(s, step))
  {
    assert (steps + [step])[..|steps|] == steps && (steps + [step])[|steps|] == step;
  }

  /** The first caller holds, a second one waits. */
  function HeldAndWaiting(session: string): Locks {
    Locks([Ticket(session, None, Holding), Ticket(session, Some(0), Waiting)], map[session := 1])
  }

  lemma HeldAndWaitingIsReached(session: string) returns (steps: seq<Step>)
    ensures SafelyReaches(steps, HeldAndWaiting(session))
  {
    var asked := Locks([Ticket(session, None, Waiting)], map[session := 0]);
    var held := Locks([Ticket(session, None, Holding)], map[session := 0]);
    SafelyNext([], Unlocked, Acquire(session));
    assert Apply(Unlocked, Acquire(session)) == asked;
    steps := [] + [Acquire(session)];
    SafelyNext(steps, asked, Grant(0));
    assert Apply(asked, Grant(0)) == held;
    steps := steps + [Grant(0)];
    SafelyNext(steps, held, Acquire(session));
    assert Apply(held, Acquire(session)) == HeldAndWaiting(session);
    steps := steps + [Acquire(session)];
  }

  /** A safe run gets there; the waiter may give up, and a newcomer holds beside the first caller. */
  lemma TwoHoldersAreReached(session: string) returns (run: seq<Step>, steps: seq<Step>, r: Locks, u: nat, v: nat)
    ensures
      var s := HeldAndWaiting(session);
      && SafelyReaches(run, s)
      && Enabled(s, Abort(1)) && AbortsLastWaiter(s, Abort(1)) && Leads(s, [Abort(1)] + steps, r)
    ensures u != v && SameSession(r, u, v) && r.tickets[u].state.Holding? && r.tickets[v].state.Holding?
  {
    run := HeldAndWaitingIsReached(session);
    RunKeeps(run, HeldAndWaiting(session));
    steps, r, u, v := AbortedLastWaiterBreaksExclusion(HeldAndWaiting(session), 1);
  }
}
