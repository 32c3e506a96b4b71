/** The rotation loop of src/key-rotating-runner.ts: one request, several keys. */
module KeyRotation {
  import opened Prelude
  import opened Routing
  import opened KeyPool
  import opened KeyAccounting
  import opened CursorKeyPoolClass

  const QUOTA_BUCKET_RESET_MS := 3_600_000

  /** What an upstream call threw; `kind` is its classification, `gatewayRun502` says it is already the gateway's 502. */
  datatype UpstreamError = UpstreamError(tag: int, kind: Option<FailureKind>, gatewayRun502: bool)

  datatype Event = Event(thinking: bool, payload: int)

  /** One upstream call: its events, then its end; `aborted` is the client's signal at that time. */
  datatype Attempt = Attempt(events: seq<Event>, error: Option<UpstreamError>, aborted: bool)

  datatype Failure =
    | NoKeyFor(reason: NoKeyReason)
    | PinnedUnavailable
    | AttemptsExhausted
    | FromUpstream(error: UpstreamError)
    | PinnedFailed(error: UpstreamError)

  datatype Outcome = Done | Threw(failure: Failure)

  /** `soft`: the call failed for its key's sake and the key was not switched off. */
  datatype Call = Call(keyId: string, attempt: Attempt, soft: bool)

  datatype Delivery = Delivery(event: Event, call: nat)

  datatype Request = Request(
    model: string, identity: Option<Identity>, gateway: Option<Scope>, allowedKeyIds: seq<string>,
    sessionHash: Option<string>, durableTurn: bool, streaming: bool, thinkingVisible: bool, bucket: Option<string>)

  function Options(input: Request, pinned: Option<string>): PickOptions {
    PickOptions(
      Some(input.model), input.identity, input.gateway,
      if pinned.Some? then [pinned.value] else input.allowedKeyIds,
      if pinned.Some? then None else input.sessionHash,
      input.bucket)
  }

  // ---- what a run of the loop is ----------------------------------------------------------------------

  predicate Visible(input: Request, e: Event) { !e.thinking || input.thinkingVisible }

  predicate ShowsSomething(input: Request, events: seq<Event>) { exists e :: e in events && Visible(input, e) }

  function Tagged(events: seq<Event>, call: nat): (r: seq<Delivery>)
    ensures |r| == |events| && forall i | 0 <= i < |events| :: r[i] == Delivery(events[i], call)
  {
    seq(|events|, i requires 0 <= i < |events| => Delivery(events[i], call))
  }

  /** The events of all calls in order. */
  function AllEvents(calls: seq<Call>): seq<Delivery> {
    if calls == [] then []
    else AllEvents(calls[..|calls| - 1]) + Tagged(calls[|calls| - 1].attempt.events, |calls| - 1)
  }

  function SoftCount(calls: seq<Call>): nat {
    if calls == [] then 0 else SoftCount(calls[..|calls| - 1]) + (if calls[|calls| - 1].soft then 1 else 0)
  }

  /** The error of the last soft failure. */
  function LastSoft(calls: seq<Call>): Option<UpstreamError> {
    if calls == [] then None
    else if calls[|calls| - 1].soft then calls[|calls| - 1].attempt.error
    else LastSoft(calls[..|calls| - 1])
  }

  /** A call the loop goes on from: it failed because of its key, and the client saw nothing of it. */
  predicate Retried(input: Request, c: Call) {
    && c.attempt.error.Some? && c.attempt.error.value.kind.Some? && !c.attempt.aborted
    && (input.streaming ==> !ShowsSomething(input, c.attempt.events))
  }

  predicate DistinctCalls(calls: seq<Call>) {
    forall i, j | 0 <= i < j < |calls| :: calls[i].keyId != calls[j].keyId
  }

  function CalledIds(calls: seq<Call>): set<string> {
    if calls == [] then {} else CalledIds(calls[..|calls| - 1]) + {calls[|calls| - 1].keyId}
  }

  predicate CallsAreUpstream(upstream: (nat, string) -> Attempt, calls: seq<Call>) {
    forall i | 0 <= i < |calls| :: calls[i].attempt == upstream(i, calls[i].keyId)
  }

  /** Every call but the last was worth a retry. */
  predicate Rotated(input: Request, calls: seq<Call>) {
    forall i | 0 <= i < |calls| - 1 :: Retried(input, calls[i])
  }

  predicate NextCall(upstream: (nat, string) -> Attempt, calls: seq<Call>, c: Call) {
    c.keyId !in CalledIds(calls) && c.attempt == upstream(|calls|, c.keyId)
  }

  /** A log the loop may go on from. */
  predicate Proceeding(input: Request, upstream: (nat, string) -> Attempt, calls: seq<Call>) {
    calls == [] || (
      var init, last := calls[..|calls| - 1], calls[|calls| - 1];
      Proceeding(input, upstream, init) && NextCall(upstream, init, last) && Retried(input, last))
  }

  /** A log the loop may end with: nothing is known of its last call. */
  predicate Ended(input: Request, upstream: (nat, string) -> Attempt, calls: seq<Call>) {
    calls == [] || (
      var init, last := calls[..|calls| - 1], calls[|calls| - 1];
      Proceeding(input, upstream, init) && NextCall(upstream, init, last))
  }

  lemma {:induction false} CalledIdsListed(calls: seq<Call>, id: string)
    ensures id in CalledIds(calls) <==> exists i :: 0 <= i < |calls| && calls[i].keyId == id
  {
    if calls != [] { CalledIdsListed(calls[..|calls| - 1], id); }
  }

  lemma DistinctSnoc(calls: seq<Call>, c: Call)
    requires DistinctCalls(calls) && c.keyId !in CalledIds(calls)
    ensures DistinctCalls(calls + [c])
  {
    CalledIdsListed(calls, c.keyId);
  }

  lemma UpstreamSnoc(upstream: (nat, string) -> Attempt, calls: seq<Call>, c: Call)
    requires CallsAreUpstream(upstream, calls) && c.attempt == upstream(|calls|, c.keyId)
    ensures CallsAreUpstream(upstream, calls + [c])
  {
  }

  lemma RotatedSnoc(input: Request, calls: seq<Call>, c: Call)
    requires forall i | 0 <= i < |calls| :: Retried(input, calls[i])
    ensures Rotated(input, calls + [c])
  {
  }

  lemma {:induction false} ProceedingLog(input: Request, upstream: (nat, string) -> Attempt, calls: seq<Call>)
    requires Proceeding(input, upstream, calls)
    ensures DistinctCalls(calls) && CallsAreUpstream(upstream, calls) && |CalledIds(calls)| == |calls|
    ensures forall i | 0 <= i < |calls| :: Retried(input, calls[i])
  {
    if calls != [] {
      var init, last := calls[..|calls| - 1], calls[|calls| - 1];
      ProceedingLog(input, upstream, init);
      DistinctSnoc(init, last);
      UpstreamSnoc(upstream, init, last);
      assert init + [last] == calls;
    }
  }

  /** The log of a whole request: distinct keys, upstream's answers, and a retry only where one was due. */
  lemma EndedLog(input: Request, upstream: (nat, string) -> Attempt, calls: seq<Call>)
    requires Ended(input, upstream, calls)
    ensures DistinctCalls(calls) && CallsAreUpstream(upstream, calls) && Rotated(input, calls)
  {
    if calls != [] {
      var init, last := calls[..|calls| - 1], calls[|calls| - 1];
      ProceedingLog(input, upstream, init);
      DistinctSnoc(init, last);
      UpstreamSnoc(upstream, init, last);
      RotatedSnoc(input, init, last);
      assert init + [last] == calls;
    }
  }

  /** The loop stops at the last call: done, not retryable, or one soft failure too many. */
  predicate StopsAtLast(input: Request, calls: seq<Call>, maxTransient: nat) {
    calls != [] && var c := calls[|calls| - 1];
    c.attempt.error.None? || !Retried(input, c) || (c.soft && SoftCount(calls) >= maxTransient)
  }

  /** What reaches the client. */
  function DeliveredBy(input: Request, calls: seq<Call>, outcome: Outcome): seq<Delivery> {
    if input.streaming then AllEvents(calls)
    else if outcome == Done && calls != [] then Tagged(calls[|calls| - 1].attempt.events, |calls| - 1)
    else []
  }

  /** Which error an unpinned request ends with. */
  predicate ThrownRight(input: Request, calls: seq<Call>, f: Failure, limits: Limits) {
    if StopsAtLast(input, calls, limits.maxTransient) && calls[|calls| - 1].attempt.error.Some? then
      f == FromUpstream(calls[|calls| - 1].attempt.error.value)
    else if LastSoft(calls).Some? then f == FromUpstream(LastSoft(calls).value)
    else f.NoKeyFor? || (f == AttemptsExhausted && |calls| >= limits.maxKeys)
  }

  datatype Limits = Limits(maxKeys: nat, maxTransient: nat)

  function PinnedFailure(e: UpstreamError, aborted: bool): Failure {
    if !aborted && (e.kind == Some(Auth) || e.kind == Some(Quota)) && !e.gatewayRun502 then PinnedFailed(e)
    else FromUpstream(e)
  }

  // ---- consequences of the shape ---------------------------------------------------------------------------

  lemma {:induction false} EventsOf(calls: seq<Call>, d: Delivery)
    ensures d in AllEvents(calls) <==> d.call < |calls| && d.event in calls[d.call].attempt.events
  {
    if calls != [] {
      var n := |calls| - 1;
      EventsOf(calls[..n], d);
      assert d in Tagged(calls[n].attempt.events, n) <==> d.call == n && d.event in calls[n].attempt.events by {
        if d.call == n && d.event in calls[n].attempt.events {
          var i :| 0 <= i < |calls[n].attempt.events| && calls[n].attempt.events[i] == d.event;
          assert Tagged(calls[n].attempt.events, n)[i] == d;
        }
      }
    }
  }

  /** Everything the client sees comes from one attempt: the last one, and without streaming a successful one. */
  lemma VisibleFromOneAttempt(input: Request, calls: seq<Call>, outcome: Outcome, d: Delivery)
    requires Rotated(input, calls) && d in DeliveredBy(input, calls, outcome) && Visible(input, d.event)
    ensures d.call == |calls| - 1 && d.event in calls[|calls| - 1].attempt.events
    ensures !input.streaming ==> outcome == Done
  {
    if input.streaming {
      EventsOf(calls, d);
    } else {
      var n := |calls| - 1;
      var i :| 0 <= i < |Tagged(calls[n].attempt.events, n)| && Tagged(calls[n].attempt.events, n)[i] == d;
    }
  }

  // ---- what the loop leaves of the key table -----------------------------------------------------------------

  /** The same keys with the same scopes; none switched on. */
  predicate Evolved(before: seq<KeyRecord>, after: seq<KeyRecord>) {
    && |after| == |before|
    && forall i | 0 <= i < |before| ::
         after[i].id == before[i].id && after[i].scope == before[i].scope && (after[i].active ==> before[i].active)
  }

  lemma EvolvedKeepsEligible(before: seq<KeyRecord>, after: seq<KeyRecord>, k: KeyRecord, excluded: set<string>, opts: PickOptions)
    requires Evolved(before, after) && k in after && Eligible(k, excluded, opts)
    ensures exists b :: b in before && b.id == k.id && Eligible(b, excluded, opts)
  {
    var i :| 0 <= i < |after| && after[i] == k;
    assert before[i] in before;
  }

  lemma EvolvedKeepsClean(before: Pool, after: Pool, opts: PickOptions)
    requires Evolved(before.keys, after.keys) && Clean(before, opts) && NoSentinelKey(before)
    ensures Clean(after, opts) && NoSentinelKey(after)
  {
    forall k | k in after.keys ensures Unblank(Some(k.scope)) && k.id != NO_KEY_SENTINEL {
      var i :| 0 <= i < |after.keys| && after.keys[i] == k;
      assert before.keys[i] in before.keys;
    }
  }

  /** Nothing but keys' marks, a stale binding and the cursor changes. */
  predicate Frame(before: Pool, after: Pool, hash: Option<string>) {
    && Evolved(before.keys, after.keys)
    && after.routing == before.routing && after.autoDisable == before.autoDisable && after.bindCount == before.bindCount
    && (hash.None? ==> after.bindings == before.bindings)
  }

  lemma SettleFrame(
    pool: Pool, untried: seq<KeyRecord>, candidates: seq<KeyRecord>, bucket: Option<string>, hash: Option<string>,
    advance: bool, now: int)
    ensures Frame(pool, AfterPrune(pool, untried, bucket, now), hash)
    ensures Frame(pool, Advanced(WithoutStale(AfterPrune(pool, untried, bucket, now), candidates, hash, now), advance), hash)
  {
  }

  lemma SelectFrame(pool: Pool, excluded: set<string>, opts: PickOptions, advance: bool, now: int)
    ensures Frame(pool, Select(pool, excluded, opts, advance, now).1, opts.sessionHash)
  {
    ScreenedNonEmpty(pool.keys, excluded, opts);
    match Screen(pool.keys, excluded, opts)
    case Rejected(_) => assert Select(pool, excluded, opts, advance, now).1 == pool;
    case Candidates(untried) =>
      SettleFrame(pool, untried, PreferQuota(untried, opts.bucket, now), opts.bucket, opts.sessionHash, advance, now);
  }

  /** A selected key is one of the pool's, was not tried, and is bound if a binding list is given. */
  lemma PickedBasics(pool: Pool, excluded: set<string>, opts: PickOptions, advance: bool, now: int)
    ensures var r := Select(pool, excluded, opts, advance, now).0;
      r.Picked? ==> r.key.id !in excluded && BoundTo(r.key, opts)
  {
    ScreenedNonEmpty(pool.keys, excluded, opts);
    var s := Screen(pool.keys, excluded, opts);
    if s.Candidates? {
      var r := Select(pool, excluded, opts, advance, now).0;
      assert r.key in PreferQuota(s.keys, opts.bucket, now);
      assert r.key in s.keys;
    }
  }

  /** The keys that may serve the request at all. */
  ghost function EligibleIds(pool: Pool, opts: PickOptions): set<string> {
    set k | k in pool.keys && Eligible(k, {}, opts) :: k.id
  }

  /** In a clean pool, these ids all may serve the request. */
  ghost predicate OnlyEligible(pool: Pool, opts: PickOptions, ids: set<string>) {
    Clean(pool, opts) && NoSentinelKey(pool) ==> ids <= EligibleIds(pool, opts)
  }

  lemma OneMoreEligible(pool: Pool, opts: PickOptions, ids: set<string>, id: string)
    requires OnlyEligible(pool, opts, ids) && OnlyEligible(pool, opts, {id})
    ensures OnlyEligible(pool, opts, ids + {id})
  {
  }

  /** A key picked later on was eligible when the request came in. */
  lemma PickedWasEligible(before: Pool, pool: Pool, excluded: set<string>, opts: PickOptions, advance: bool, now: int)
    requires Clean(before, opts) && NoSentinelKey(before) && Evolved(before.keys, pool.keys)
    requires Select(pool, excluded, opts, advance, now).0.Picked?
    ensures Select(pool, excluded, opts, advance, now).0.key.id in EligibleIds(before, opts)
  {
    EvolvedKeepsClean(before, pool, opts);
    SelectionIsEligible(pool, excluded, opts, advance, now);
    var k := Select(pool, excluded, opts, advance, now).0.key;
    EvolvedKeepsEligible(before.keys, pool.keys, k, {}, opts);
  }

  // ---- the loop, pass by pass -------------------------------------------------------------------------------

  /** `pinnedDurableKeyId`: a continued durable turn is pinned to the key its session is bound to. */
  function PinnedKey(pool: Pool, input: Request, now: int): Option<string> {
    if input.durableTurn && input.sessionHash.Some? then
      var b := BindingFor(pool, input.sessionHash.value, now);
      if b.Some? && b.value.keyId != "" then Some(b.value.keyId) else None
    else None
  }

  predicate PinnedOutOfBounds(input: Request, pinned: Option<string>) {
    pinned.Some? && BoundIds(input.allowedKeyIds) != {} && pinned.value !in BoundIds(input.allowedKeyIds)
  }

  /** Within the limits: a soft failure over the limit is the last call. */
  predicate Bounded(calls: seq<Call>, limits: Limits) {
    |calls| <= limits.maxKeys && SoftCount(calls) <= if limits.maxTransient >= 1 then limits.maxTransient else 1
  }

  /** What a pinned request may do: at most one call, of its own key. */
  predicate PinnedRight(pinned: string, calls: seq<Call>, outcome: Outcome, limits: Limits) {
    && |calls| <= 1 && (forall c | c in calls :: c.keyId == pinned)
    && (calls == [] ==> outcome == Threw(PinnedUnavailable) || (limits.maxKeys == 0 && outcome == Threw(AttemptsExhausted)))
    && (calls != [] && calls[0].attempt.error.Some? ==>
          outcome == Threw(PinnedFailure(calls[0].attempt.error.value, calls[0].attempt.aborted)))
  }

  predicate HasSession(hash: Option<string>) { hash.Some? && hash.value != "" }

  /** The session is still bound to its key. */
  predicate BoundStays(bindings: map<string, Binding>, input: Request, pinned: string) {
    input.sessionHash.Some? && input.sessionHash.value in bindings && bindings[input.sessionHash.value].keyId == pinned
  }

  predicate SoftlyFailed(attempt: Attempt, disabled: bool) {
    attempt.error.Some? && attempt.error.value.kind.Some? && !disabled
  }

  /** The variables of the loop. */
  datatype Progress = Progress(
    calls: seq<Call>, delivered: seq<Delivery>, attempted: set<string>, softError: Option<UpstreamError>, softCount: nat)

  /** At the top of the loop. */
  ghost predicate Sound(input: Request, upstream: (nat, string) -> Attempt, limits: Limits, p: Progress) {
    && Proceeding(input, upstream, p.calls) && |p.calls| <= limits.maxKeys
    && p.attempted == CalledIds(p.calls) && |p.attempted| == |p.calls|
    && p.softCount == SoftCount(p.calls) && p.softError == LastSoft(p.calls)
    && (p.softCount == 0 || p.softCount < limits.maxTransient)
    && p.delivered == (if input.streaming then AllEvents(p.calls) else [])
  }

  /** At the end of the request. */
  ghost predicate Finished(
    input: Request, upstream: (nat, string) -> Attempt, limits: Limits, pinned: Option<string>, calls: seq<Call>,
    delivered: seq<Delivery>, outcome: Outcome)
  {
    && Bounded(calls, limits) && Ended(input, upstream, calls)
    && delivered == DeliveredBy(input, calls, outcome)
    && (outcome == Done <==> calls != [] && calls[|calls| - 1].attempt.error.None?)
    && (pinned.None? && outcome.Threw? ==> ThrownRight(input, calls, outcome.failure, limits))
    && (pinned.Some? ==> PinnedRight(pinned.value, calls, outcome, limits))
  }

  /** The errors of a loop that finds no further key to call. */
  predicate RefusedWith(limits: Limits, pinned: Option<string>, p: Progress, f: Failure) {
    if pinned.Some? && f == PinnedUnavailable then true
    else if p.softError.Some? then f == FromUpstream(p.softError.value)
    else (pinned.None? && f.NoKeyFor?) || (f == AttemptsExhausted && |p.attempted| >= limits.maxKeys)
  }

  lemma RefusedIsFinished(
    input: Request, upstream: (nat, string) -> Attempt, limits: Limits, pinned: Option<string>, p: Progress, f: Failure)
    requires Sound(input, upstream, limits, p) && RefusedWith(limits, pinned, p, f) && (pinned.Some? ==> p.calls == [])
    ensures Finished(input, upstream, limits, pinned, p.calls, p.delivered, Threw(f))
  {
  }

  lemma OneMoreCall(calls: seq<Call>, c: Call)
    ensures
      var next := calls + [c];
      && CalledIds(next) == CalledIds(calls) + {c.keyId}
      && SoftCount(next) == SoftCount(calls) + (if c.soft then 1 else 0)
      && LastSoft(next) == (if c.soft then c.attempt.error else LastSoft(calls))
      && next[..|next| - 1] == calls
  {
    assert (calls + [c])[..|calls|] == calls;
  }

  /** Ending with this call. */
  lemma StopIsFinished(
    input: Request, upstream: (nat, string) -> Attempt, limits: Limits, pinned: Option<string>, p: Progress, c: Call,
    delivered: seq<Delivery>, outcome: Outcome)
    requires Sound(input, upstream, limits, p) && NextCall(upstream, p.calls, c) && |p.calls| < limits.maxKeys
    requires pinned.Some? ==> p.calls == [] && c.keyId == pinned.value
    requires delivered == DeliveredBy(input, p.calls + [c], outcome)
    requires outcome == Done <==> c.attempt.error.None?
    requires c.attempt.error.Some? && pinned.None? ==>
      StopsAtLast(input, p.calls + [c], limits.maxTransient) && outcome == Threw(FromUpstream(c.attempt.error.value))
    requires c.attempt.error.Some? && pinned.Some? ==>
      outcome == Threw(PinnedFailure(c.attempt.error.value, c.attempt.aborted))
    ensures Finished(input, upstream, limits, pinned, p.calls + [c], delivered, outcome)
  {
    OneMoreCall(p.calls, c);
  }

  lemma StepEvolves(keys: seq<KeyRecord>, op: Op, policy: AutoDisable)
    requires op.Report? || op.Success?
    ensures Evolved(keys, Step(keys, op, policy)) && (Distinct(keys) ==> Distinct(Step(keys, op, policy)))
  {
  }

  lemma EvolvedTransitive(a: seq<KeyRecord>, b: seq<KeyRecord>, c: seq<KeyRecord>)
    requires Evolved(a, b) && Evolved(b, c)
    ensures Evolved(a, c)
  {
  }

  /** After one more call, the client has what the whole log says. */
  lemma DeliveredStep(input: Request, calls: seq<Call>, c: Call, delivered: seq<Delivery>, sent: seq<Delivery>)
    requires delivered == if input.streaming then AllEvents(calls) else []
    requires sent == if input.streaming || c.attempt.error.None? then Tagged(c.attempt.events, |calls|) else []
    ensures input.streaming ==> delivered + sent == AllEvents(calls + [c])
    ensures !input.streaming && c.attempt.error.Some? ==> delivered + sent == []
    ensures c.attempt.error.None? ==> delivered + sent == DeliveredBy(input, calls + [c], Done)
    ensures forall f :: c.attempt.error.Some? ==> delivered + sent == DeliveredBy(input, calls + [c], Threw(f))
  {
    assert (calls + [c])[..|calls|] == calls;
  }
}
