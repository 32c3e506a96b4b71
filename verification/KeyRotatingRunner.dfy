/** `KeyRotatingRunner.stream`: the loop itself, with everything promised about one request. */
module KeyRotatingRunnerClass {
  import opened Prelude
  import opened Routing
  import opened KeyPool
  import opened KeyAccounting
  import opened CursorKeyPoolClass
  import opened KeyRotation

  class KeyRotatingRunner {
    const pool: CursorKeyPool
    const limits: Limits

    constructor (keyPool: CursorKeyPool, requestLimits: Limits)
      ensures pool == keyPool && limits == requestLimits
    {
      pool, limits := keyPool, requestLimits;
    }

    /** Streaming hands out every event; it counts as emitted unless it is a thinking event nobody will see. */
    method Relay(input: Request, events: seq<Event>, call: nat) returns (sent: seq<Delivery>, emitted: bool)
      ensures sent == Tagged(events, call)
      ensures emitted <==> ShowsSomething(input, events)
    {
      sent, emitted := [], false;
      var i := 0;
      while i < |events|
        invariant 0 <= i <= |events| && sent == Tagged(events[..i], call)
        invariant emitted <==> ShowsSomething(input, events[..i])
      {
        var e := events[i];
        assert forall x :: x in events[..i + 1] <==> x in events[..i] || x == e;
        assert ShowsSomething(input, events[..i + 1]) <==> ShowsSomething(input, events[..i]) || Visible(input, e);
        if !e.thinking || input.thinkingVisible { emitted := true; }
        sent := sent + [Delivery(e, call)];
        i := i + 1;
      }
      assert events[..i] == events;
    }

    /** The bookkeeping of a failed call: the bucket mark of a quota failure, then the failure itself. */
    method Account(input: Request, keyId: string, kind: Option<FailureKind>, now: int, markBuckets: bool) returns (disabled: bool)
      requires pool.Valid()
      modifies pool
      ensures pool.Valid() && Frame(old(pool.State()), pool.State(), None)
      ensures disabled ==> kind.Some?
    {
      disabled := false;
      if kind == Some(Quota) && input.bucket.Some? && markBuckets {
        var until := Some(now + QUOTA_BUCKET_RESET_MS);
        var _ := pool.UpdateKey(keyId, (k: KeyRecord) => k.(exhausted := k.exhausted[input.bucket.value := until]));
      }
      label Marked:
      if kind.Some? {
        disabled := pool.ReportFailure(keyId, kind.value);
        StepEvolves(old@Marked(pool.keys), Report(keyId, kind.value), pool.autoDisable);
      }
    }

    /** A successful call: the key is healthy, and the session sticks to it. */
    method Succeeded(input: Request, keyId: string, now: int)
      requires pool.Valid()
      modifies pool
      ensures pool.Valid() && Evolved(old(pool.keys), pool.keys)
      ensures pool.routing.ttl > 0 && pool.routing.sessionAffinity && HasSession(input.sessionHash) && keyId != "" ==>
        BoundStays(pool.bindings, input, keyId)
      ensures !pool.routing.sessionAffinity || input.sessionHash.None? ==> pool.bindings == old(pool.bindings)
      ensures pool.routing == old(pool.routing)
    {
      pool.RecordSuccess(keyId, input.bucket);
      StepEvolves(old(pool.keys), Success(keyId, input.bucket), pool.autoDisable);
      if input.sessionHash.Some? && pool.routing.sessionAffinity {
        pool.BindSession(input.sessionHash.value, keyId, now);
      }
    }

    /** One selection of the loop; `before` is the pool the request found. */
    method NextKey(attempted: set<string>, opts: PickOptions, now: int, ghost before: Pool) returns (selection: Selection)
      requires pool.Valid() && Evolved(before.keys, pool.keys)
      modifies pool
      ensures pool.Valid() && Frame(old(pool.State()), pool.State(), opts.sessionHash) && Evolved(before.keys, pool.keys)
      ensures selection.Picked? ==> selection.key.id !in attempted && BoundTo(selection.key, opts)
      ensures selection.Picked? ==> OnlyEligible(before, opts, {selection.key.id})
    {
      var advance := |attempted| < limits.maxKeys;
      ghost var found := pool.State();
      SelectFrame(found, attempted, opts, advance, now);
      PickedBasics(found, attempted, opts, advance, now);
      if Clean(before, opts) && NoSentinelKey(before) && Select(found, attempted, opts, advance, now).0.Picked? {
        PickedWasEligible(before, found, attempted, opts, advance, now);
      }
      selection := pool.SelectKey(attempted, opts, advance, now);
    }

    /**
     `upstream` is what the n-th call of this request meets with this key; `clock` the time of each pass.
     `calls` logs the upstream calls, `delivered` what the client receives.
     */
    method Stream(input: Request, upstream: (nat, string) -> Attempt, clock: nat -> int, markBuckets: bool)
      returns (calls: seq<Call>, delivered: seq<Delivery>, outcome: Outcome)
      requires pool.Valid()
      modifies pool
      ensures pool.Valid() && Evolved(old(pool.keys), pool.keys)
      ensures Bounded(calls, limits) && DistinctCalls(calls) && CallsAreUpstream(upstream, calls) && Rotated(input, calls)
      ensures delivered == DeliveredBy(input, calls, outcome)
      ensures outcome == Done <==> calls != [] && calls[|calls| - 1].attempt.error.None?
      ensures OnlyEligible(
        old(pool.State()), Options(input, PinnedKey(old(pool.State()), input, clock(0))), CalledIds(calls))
      ensures PinnedKey(old(pool.State()), input, clock(0)).None? && outcome.Threw? ==>
        ThrownRight(input, calls, outcome.failure, limits)
      ensures PinnedKey(old(pool.State()), input, clock(0)).Some? ==>
        PinnedRight(PinnedKey(old(pool.State()), input, clock(0)).value, calls, outcome, limits)
      ensures PinnedKey(old(pool.State()), input, clock(0)).Some? && old(pool.routing.ttl) > 0 ==>
        BoundStays(pool.bindings, input, PinnedKey(old(pool.State()), input, clock(0)).value)
    {
      ghost var before := pool.State();
      var pinned := PinnedKeyId(input, clock(0));
      if PinnedOutOfBounds(input, pinned) {
        calls, delivered, outcome := [], [], Threw(PinnedUnavailable);
        return;
      }
      calls, delivered, outcome := Rotate(input, pinned, upstream, clock, markBuckets);
      EndedLog(input, upstream, calls);
    }

    /** The rotation loop. */
    method Rotate(input: Request, pinned: Option<string>, upstream: (nat, string) -> Attempt, clock: nat -> int, markBuckets: bool)
      returns (calls: seq<Call>, delivered: seq<Delivery>, outcome: Outcome)
      requires pool.Valid()
      requires pinned.Some? ==> HasSession(input.sessionHash) && pinned.value != ""
      modifies pool
      ensures pool.Valid() && Evolved(old(pool.keys), pool.keys)
      ensures Finished(input, upstream, limits, pinned, calls, delivered, outcome)
      ensures OnlyEligible(old(pool.State()), Options(input, pinned), CalledIds(calls))
      ensures pinned.Some? && old(pool.routing.ttl) > 0 && BoundStays(old(pool.bindings), input, pinned.value) ==>
        BoundStays(pool.bindings, input, pinned.value)
    {
      ghost var before := pool.State();
      var p := Progress([], [], {}, None, 0);
      while true
        invariant pool.Valid() && Evolved(before.keys, pool.keys) && pool.routing == before.routing
        invariant Sound(input, upstream, limits, p)
        invariant pinned.Some? ==> p.calls == [] && pool.bindings == before.bindings
        invariant OnlyEligible(before, Options(input, pinned), p.attempted)
        decreases limits.maxKeys - |p.calls|
      {
        var q, end := Pass(input, pinned, upstream, p, clock(|p.calls|), markBuckets, before);
        if end.Some? { return q.calls, q.delivered, end.value; }
        p := q;
      }
    }

    /** One pass of the loop: select, call, and go on or end. */
    method Pass(
      input: Request, pinned: Option<string>, upstream: (nat, string) -> Attempt, p: Progress, now: int, markBuckets: bool,
      ghost before: Pool)
      returns (q: Progress, end: Option<Outcome>)
      requires pool.Valid() && Evolved(before.keys, pool.keys) && Sound(input, upstream, limits, p)
      requires pinned.Some? ==> p.calls == [] && HasSession(input.sessionHash) && pinned.value != ""
      requires OnlyEligible(before, Options(input, pinned), p.attempted)
      modifies pool
      ensures pool.Valid() && Evolved(before.keys, pool.keys) && pool.routing == old(pool.routing)
      ensures OnlyEligible(before, Options(input, pinned), CalledIds(q.calls))
      ensures end.None? ==> Sound(input, upstream, limits, q) && pinned.None? && |q.calls| == |p.calls| + 1
      ensures end.Some? ==> Finished(input, upstream, limits, pinned, q.calls, q.delivered, end.value)
      ensures pinned.Some? && pool.routing.ttl > 0 && BoundStays(old(pool.bindings), input, pinned.value) ==>
        BoundStays(pool.bindings, input, pinned.value)
    {
      var opts := Options(input, pinned);
      var selection := NextKey(p.attempted, opts, now, before);
      var failure := Refusal(input, pinned, selection, p);
      if failure.Some? {
        RefusedIsFinished(input, upstream, limits, pinned, p, failure.value);
        return p, Some(Threw(failure.value));
      }
      var key := selection.key;
      var attempt := upstream(|p.calls|, key.id);
      var sent, emitted, disabled := CallOnce(input, key.id, attempt, |p.calls|, now, markBuckets, before);
      OneMoreEligible(before, opts, p.attempted, key.id);
      q, end := Record(input, upstream, pinned, p, key.id, attempt, sent, emitted, disabled);
    }

    /** Why the loop does not call the selected key, if it does not. */
    method Refusal(input: Request, pinned: Option<string>, selection: Selection, p: Progress) returns (failure: Option<Failure>)
      ensures failure.None? <==>
        selection.Picked? && (pinned.Some? ==> selection.key.id == pinned.value) && |p.attempted| < limits.maxKeys
      ensures failure.Some? ==> RefusedWith(limits, pinned, p, failure.value)
    {
      if selection.NoKey? {
        return Some(
          if pinned.Some? then PinnedUnavailable
          else if p.softError.Some? then FromUpstream(p.softError.value) else NoKeyFor(selection.reason));
      }
      if pinned.Some? && selection.key.id != pinned.value { return Some(PinnedUnavailable); }
      if |p.attempted| >= limits.maxKeys {
        return Some(if p.softError.Some? then FromUpstream(p.softError.value) else AttemptsExhausted);
      }
      failure := None;
    }

    /** What the loop makes of the end of one call: go on, or end. */
    method Record(
      input: Request, ghost upstream: (nat, string) -> Attempt, pinned: Option<string>, p: Progress, keyId: string,
      attempt: Attempt, sent: seq<Delivery>, emitted: bool, disabled: bool)
      returns (q: Progress, end: Option<Outcome>)
      requires Sound(input, upstream, limits, p) && (pinned.Some? ==> p.calls == [] && keyId == pinned.value)
      requires keyId !in p.attempted && |p.attempted| < limits.maxKeys && attempt == upstream(|p.calls|, keyId)
      requires sent == if input.streaming || attempt.error.None? then Tagged(attempt.events, |p.calls|) else []
      requires emitted <==> input.streaming && ShowsSomething(input, attempt.events)
      requires disabled ==> attempt.error.Some? && attempt.error.value.kind.Some?
      ensures q.calls == p.calls + [Call(keyId, attempt, SoftlyFailed(attempt, disabled))]
      ensures q.attempted == p.attempted + {keyId} == CalledIds(q.calls)
      ensures end == Some(Done) <==> attempt.error.None?
      ensures end.None? ==> Sound(input, upstream, limits, q) && pinned.None?
      ensures end.Some? ==> Finished(input, upstream, limits, pinned, q.calls, q.delivered, end.value)
    {
      var c := Call(keyId, attempt, SoftlyFailed(attempt, disabled));
      q := p.(calls := p.calls + [c], delivered := p.delivered + sent, attempted := p.attempted + {keyId});
      DeliveredStep(input, p.calls, c, p.delivered, sent);
      OneMoreCall(p.calls, c);
      if attempt.error.None? {
        StopIsFinished(input, upstream, limits, pinned, p, c, q.delivered, Done);
        return q, Some(Done);
      }
      var error := attempt.error.value;
      if pinned.Some? {
        var f := PinnedFailure(error, attempt.aborted);
        StopIsFinished(input, upstream, limits, pinned, p, c, q.delivered, Threw(f));
        return q, Some(Threw(f));
      }
      if error.kind.Some? && !disabled {
        q := q.(softError := Some(error), softCount := q.softCount + 1);
      }
      if error.kind.None? || emitted || attempt.aborted || (!disabled && q.softCount >= limits.maxTransient) {
        StopIsFinished(input, upstream, limits, pinned, p, c, q.delivered, Threw(FromUpstream(error)));
        return q, Some(Threw(FromUpstream(error)));
      }
      ProceedingLog(input, upstream, q.calls);
      end := None;
    }

    /** One upstream call: what it hands out at once or, buffered, on success; and the bookkeeping of its end. */
    method CallOnce(input: Request, keyId: string, attempt: Attempt, call: nat, now: int, markBuckets: bool, ghost before: Pool)
      returns (sent: seq<Delivery>, emitted: bool, disabled: bool)
      requires pool.Valid() && Evolved(before.keys, pool.keys)
      modifies pool
      ensures pool.Valid() && Evolved(before.keys, pool.keys) && pool.routing == old(pool.routing)
      ensures sent == if input.streaming || attempt.error.None? then Tagged(attempt.events, call) else []
      ensures emitted <==> input.streaming && ShowsSomething(input, attempt.events)
      ensures disabled ==> attempt.error.Some? && attempt.error.value.kind.Some?
      ensures attempt.error.Some? || !pool.routing.sessionAffinity || input.sessionHash.None? ==>
        pool.bindings == old(pool.bindings)
      ensures attempt.error.None? && pool.routing.ttl > 0 && pool.routing.sessionAffinity ==>
        (HasSession(input.sessionHash) && keyId != "" ==> BoundStays(pool.bindings, input, keyId))
    {
      sent, emitted, disabled := [], false, false;
      var buffered := [];
      if input.streaming {
        sent, emitted := Relay(input, attempt.events, call);
      } else {
        buffered := Tagged(attempt.events, call);
      }
      if attempt.error.None? {
        sent := sent + buffered;
        Succeeded(input, keyId, now);
      } else {
        disabled := Account(input, keyId, attempt.error.value.kind, now, markBuckets);
      }
      EvolvedTransitive(before.keys, old(pool.keys), pool.keys);
    }

    method PinnedKeyId(input: Request, now: int) returns (pinned: Option<string>)
      ensures pinned == PinnedKey(pool.State(), input, now)
    {
      pinned := None;
      if input.durableTurn && input.sessionHash.Some? {
        var bound := pool.GetSessionBinding(input.sessionHash.value, now);
        if bound.Some? && bound.value.keyId != "" { pinned := Some(bound.value.keyId); }
      }
    }
  }
}
