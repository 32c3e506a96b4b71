/** The key pool of src/key-pool.ts with its fields, proved against the model on values. */
module CursorKeyPoolClass {
  import opened Prelude
  import opened Text
  import opened Routing
  import opened WeightedPick
  import opened KeyPool
  import opened KeyAccounting
  import opened CursorWrap

  const SESSION_BINDING_PRUNE_EVERY := 200

  predicate Expired(b: Binding, ttl: nat, now: int) { b.updatedAt <= now - ttl }

  /** The pool after a session was bound to a key. */
  function Bound(pool: Pool, hash: string, keyId: string, now: int): Pool {
    if !pool.routing.sessionAffinity || hash == "" || keyId == "" then pool
    else
      var saved := pool.bindings[hash := Binding(keyId, now)];
      var kept :=
        if (pool.bindCount + 1) % SESSION_BINDING_PRUNE_EVERY != 0 then saved
        else map h | h in saved && !Expired(saved[h], pool.routing.ttl, now) :: saved[h];
      pool.(bindings := kept, bindCount := pool.bindCount + 1)
  }

  class CursorKeyPool {
    /** The key table in its listing order, and the session bindings. */
    var keys: seq<KeyRecord>
    var bindings: map<string, Binding>
    var routing: RoutingPolicy
    var autoDisable: AutoDisable
    var rotationCursor: nat
    var bindCount: nat

    ghost function State(): Pool
      reads this
    {
      Pool(keys, bindings, routing, autoDisable, rotationCursor, bindCount)
    }

    /** Ids are the primary key of the table. */
    ghost predicate Valid()
      reads this
    {
      Distinct(keys) && rotationCursor < ROTATION_CURSOR_MODULUS
    }

    constructor (stored: seq<KeyRecord>, bound: map<string, Binding>, policy: AutoDisable, route: RoutingPolicy)
      requires Distinct(stored)
      ensures Valid() && State() == Pool(stored, bound, route, policy, 0, 0)
    {
      keys, bindings, routing, autoDisable, rotationCursor, bindCount := stored, bound, route, policy, 0, 0;
    }

    /** `updateCursorKey`: one pass over the table. */
    method UpdateKey(id: string, f: KeyRecord -> KeyRecord) returns (changed: bool)
      modifies `keys
      ensures keys == Update(old(keys), id, f)
      ensures changed <==> exists k :: k in old(keys) && k.id == id
    {
      changed := exists k :: k in keys && k.id == id;
      keys := Update(keys, id, f);
    }

    method NextRotationCursor() returns (current: nat)
      modifies `rotationCursor
      ensures current == old(rotationCursor) && rotationCursor == NextCursor(current)
    {
      current := rotationCursor;
      rotationCursor := (current + 1) % ROTATION_CURSOR_MODULUS;
    }

    /** `getSessionBinding`: expired bindings do not count, and stay. */
    function GetSessionBinding(hash: string, now: int): (b: Option<Binding>)
      reads this
      ensures b == BindingFor(State(), hash, now)
    {
      if hash != "" && hash in bindings && bindings[hash].updatedAt > now - routing.ttl
      then Some(bindings[hash]) else None
    }

    method PruneExpiredBucketMarks(candidates: seq<KeyRecord>, now: int)
      requires forall k | k in candidates :: k in keys
      requires Distinct(keys)
      modifies `keys
      ensures keys == PruneMarks(old(keys), Ids(candidates), now)
    {
      ghost var before := keys;
      assert PruneMarks(before, Ids(candidates[..0]), now) == before;
      var i := 0;
      while i < |candidates|
        invariant 0 <= i <= |candidates|
        invariant keys == PruneMarks(before, Ids(candidates[..i]), now)
      {
        var k := candidates[i];
        var pruned := PrunedKey(k, now);
        assert k in candidates;
        PruneOneMore(before, candidates, i, now);
        if pruned != k { var _ := UpdateKey(k.id, WithMarks(pruned.exhausted)); }
        i := i + 1;
      }
      assert candidates[..i] == candidates;
    }

    method FindCandidate(candidates: seq<KeyRecord>, id: string) returns (found: Option<KeyRecord>)
      ensures found == FindKey(candidates, id)
    {
      var i := 0;
      while i < |candidates|
        invariant 0 <= i <= |candidates| && FindKey(candidates[i..], id) == FindKey(candidates, id)
      {
        assert candidates[i..][1..] == candidates[i + 1..];
        if candidates[i].id == id { return Some(candidates[i]); }
        i := i + 1;
      }
      assert candidates[i..] == [];
      found := None;
    }

    /** `stickyKey`. */
    method Sticky(candidates: seq<KeyRecord>, hash: Option<string>, now: int) returns (found: Option<KeyRecord>)
      modifies `bindings
      ensures found == StickyKey(old(State()), candidates, hash, now)
      ensures State() == WithoutStale(old(State()), candidates, hash, now)
    {
      found := None;
      if routing.sessionAffinity && hash.Some? {
        var binding := GetSessionBinding(hash.value, now);
        if binding.Some? {
          found := FindCandidate(candidates, binding.value.keyId);
          if found.None? { bindings := bindings - {hash.value}; }
        }
      }
    }

    /** The keys that serve, and whether some key was left out only because its deny list could not be checked. */
    method FilterServable(authorized: seq<KeyRecord>, serves: KeyRecord -> bool, unverifiable: KeyRecord -> bool)
      returns (servable: seq<KeyRecord>, uncertain: bool)
      requires forall k | k in authorized :: !(serves(k) && unverifiable(k))
      ensures servable == Filter(authorized, serves)
      ensures uncertain <==> Filter(authorized, unverifiable) != []
    {
      servable, uncertain := [], false;
      var i := 0;
      while i < |authorized|
        invariant 0 <= i <= |authorized|
        invariant servable == Filter(authorized[..i], serves)
        invariant uncertain <==> Filter(authorized[..i], unverifiable) != []
      {
        var k := authorized[i];
        FilterSnoc(authorized[..i], k, serves);
        FilterSnoc(authorized[..i], k, unverifiable);
        assert authorized[..i + 1] == authorized[..i] + [k];
        if serves(k) {
          servable := servable + [k];
        } else if unverifiable(k) {
          uncertain := true;
        }
        i := i + 1;
      }
      assert authorized[..i] == authorized;
    }

    /** The filters of `select`, in the order of the source. */
    method ScreenKeys(excluded: set<string>, opts: PickOptions) returns (r: Screening)
      ensures r == Screen(keys, excluded, opts)
    {
      var ids := BoundIds(opts.allowedKeyIds);
      if |ids| == 1 && NO_KEY_SENTINEL in ids {
        assert ids == {NO_KEY_SENTINEL} by { SingletonSet(ids, NO_KEY_SENTINEL); }
        return Rejected(NotAuthorized);
      }
      var authorized := Keep(keys, CanUse(ids));
      if ids != {} {
        if authorized == [] { return Rejected(NotAuthorized); }
      } else {
        if keys == [] { return Rejected(NoneConfigured); }
        if authorized == [] { return Rejected(AllDisabled); }
      }
      var id := RequestIdentity(opts);
      if id.Some? && opts.gateway.Some? {
        if !IdentityAllowed(id.value, opts.gateway) { return Rejected(ModelNotAllowed); }
        if DenyRuleUnverifiable(id.value, opts.gateway) { return Rejected(ModelUnverified); }
      }
      forall k | k in authorized ensures !(CanServe(id, opts.gateway)(k) && Unverifiable(id, opts.gateway)(k)) {
        OneOrTheOther(k, id, opts.gateway);
      }
      var servable, uncertain := FilterServable(authorized, CanServe(id, opts.gateway), Unverifiable(id, opts.gateway));
      if servable == [] {
        UncertainIfNoneServes(authorized, id, opts.gateway);
        return Rejected(if uncertain then ModelUnverified else ModelNotAllowed);
      }
      var candidates := Keep(servable, NotTried(excluded));
      if candidates == [] { return Rejected(Exhausted); }
      r := Candidates(candidates);
    }

    /** `select`: the key or the reason, and what becomes of marks, bindings and the cursor. */
    method SelectKey(excluded: set<string>, opts: PickOptions, advanceCursor: bool, now: int) returns (r: Selection)
      requires Valid()
      modifies this
      ensures Valid() && (r, State()) == Select(old(State()), excluded, opts, advanceCursor, now)
    {
      var screening := ScreenKeys(excluded, opts);
      if screening.Rejected? { return NoKey(screening.reason); }
      ScreenedNonEmpty(keys, excluded, opts);
      CandidatesAreKeys(keys, excluded, opts);
      r := SelectAmong(screening.keys, opts, advanceCursor, now);
      assert (r, State()) == AmongCandidates(old(State()), screening.keys, opts, advanceCursor, now);
    }

    /** From the candidates on: marks, session, strategy. */
    method SelectAmong(untried: seq<KeyRecord>, opts: PickOptions, advanceCursor: bool, now: int) returns (r: Selection)
      requires Valid() && untried != [] && forall k | k in untried :: k in keys
      modifies this
      ensures Valid() && (r, State()) == AmongCandidates(old(State()), untried, opts, advanceCursor, now)
    {
      var candidates := untried;
      if opts.bucket.Some? {
        PruneExpiredBucketMarks(candidates, now);
        var usable := Keep(candidates, HasQuota(opts.bucket.value, now));
        if usable != [] { candidates := usable; }
      }
      var sticky := Sticky(candidates, opts.sessionHash, now);
      if sticky.Some? { return Picked(sticky.value, true); }
      var key := ChooseByStrategy(candidates, advanceCursor);
      r := Picked(key, false);
    }

    /** Weighted round robin, or the first candidate. */
    method ChooseByStrategy(candidates: seq<KeyRecord>, advanceCursor: bool) returns (key: KeyRecord)
      requires Valid() && candidates != []
      modifies `rotationCursor
      ensures key == ByStrategy(old(State()), candidates) && State() == Advanced(old(State()), advanceCursor) && Valid()
    {
      key := candidates[0];
      if routing.strategy == RoundRobin {
        var cursor := rotationCursor;
        if advanceCursor { cursor := NextRotationCursor(); }
        ghost var ws := Normalized(Weights(candidates));
        var index := PickWeighted(Weights(candidates), Finite(cursor as real));
        ChosenIsUnique(ws, cursor, index.value, WeightedIndex(ws, cursor));
        key := candidates[index.value];
      }
    }

    method BindSession(hash: string, keyId: string, now: int)
      modifies `bindings, `bindCount
      ensures State() == Bound(old(State()), hash, keyId, now)
    {
      if !routing.sessionAffinity || hash == "" || keyId == "" { return; }
      bindings := bindings[hash := Binding(keyId, now)];
      bindCount := bindCount + 1;
      if bindCount % SESSION_BINDING_PRUNE_EVERY != 0 { return; }
      bindings := map h | h in bindings && !Expired(bindings[h], routing.ttl, now) :: bindings[h];
    }

    method Enable(id: string) returns (changed: bool)
      modifies `keys
      ensures keys == Step(old(keys), Op.Enable(id), autoDisable)
      ensures changed <==> exists k :: k in old(keys) && k.id == id
    {
      changed := UpdateKey(id, (k: KeyRecord) => k.(active := true, failureCount := 0));
    }

    method Disable(id: string, manual: bool) returns (changed: bool)
      modifies `keys
      ensures keys == Step(old(keys), Op.Disable(id, manual), autoDisable)
      ensures changed <==> exists k :: k in old(keys) && k.id == id
    {
      changed := UpdateKey(id, (k: KeyRecord) => k.(active := false, failureCount := if manual then 0 else k.failureCount));
    }

    /** `reportFailure`: the bookkeeping of one failure; the result says whether the key was switched off. */
    method ReportFailure(id: string, kind: FailureKind) returns (disabled: bool)
      requires Distinct(keys)
      modifies `keys
      ensures keys == Step(old(keys), Report(id, kind), autoDisable) && Distinct(keys)
      ensures disabled <==> SwitchesOff(old(keys), id, kind, autoDisable) && exists k :: k in old(keys) && k.id == id
    {
      if kind == Transient {
        assert Step(keys, Report(id, kind), autoDisable) == keys;
        return false;
      }
      ghost var before := keys;
      var _ := UpdateKey(id, OneMoreFailure());
      if !autoDisable.enabled {
        ReportIsCount(before, id, kind, autoDisable);
        return false;
      }
      if kind == Quota {
        ReportIsDisable(before, id, kind, autoDisable);
        disabled := Disable(id, false);
        return;
      }
      var found := FindCandidate(keys, id);
      var failures := if found.Some? then found.value.failureCount else 1;
      FailuresAfter(before, keys, id, failures);
      if failures < autoDisable.threshold {
        ReportIsCount(before, id, kind, autoDisable);
        return false;
      }
      ReportIsDisable(before, id, kind, autoDisable);
      disabled := Disable(id, false);
    }

    /** `recordSuccess`: with a bucket, only that bucket's mark is cleared. */
    method RecordSuccess(id: string, bucket: Option<string>)
      modifies `keys
      ensures keys == Step(old(keys), Success(id, bucket), autoDisable)
    {
      var _ := UpdateKey(id, (k: KeyRecord) =>
        k.(failureCount := 0, exhausted := if bucket.Some? then k.exhausted - {bucket.value} else map[]));
    }
  }

  function WithMarks(marks: map<string, Option<int>>): KeyRecord -> KeyRecord {
    (k: KeyRecord) => k.(exhausted := marks)
  }

  /** One more candidate loses its expired marks; without any, nothing changes. */
  lemma PruneOneMore(keys: seq<KeyRecord>, candidates: seq<KeyRecord>, i: nat, now: int)
    requires Distinct(keys) && i < |candidates| && candidates[i] in keys
    ensures
      var k := candidates[i];
      var before, after := PruneMarks(keys, Ids(candidates[..i]), now), PruneMarks(keys, Ids(candidates[..i + 1]), now);
      && after == Update(before, k.id, WithMarks(PrunedKey(k, now).exhausted))
      && (PrunedKey(k, now) == k ==> after == before)
  {
    var k := candidates[i];
    var before, after := PruneMarks(keys, Ids(candidates[..i]), now), PruneMarks(keys, Ids(candidates[..i + 1]), now);
    assert Ids(candidates[..i + 1]) == Ids(candidates[..i]) + {k.id} by {
      assert forall c :: c in candidates[..i + 1] <==> c in candidates[..i] || c == k;
    }
    forall j | 0 <= j < |keys| ensures after[j] == Update(before, k.id, WithMarks(PrunedKey(k, now).exhausted))[j] {
      if keys[j].id == k.id {
        var at :| 0 <= at < |keys| && keys[at] == k;
        assert at == j;
      }
    }
  }

  lemma CandidatesAreKeys(keys: seq<KeyRecord>, excluded: set<string>, opts: PickOptions)
    ensures Screen(keys, excluded, opts).Candidates? ==> forall k | k in Screen(keys, excluded, opts).keys :: k in keys
  {
  }

  lemma SingletonSet<T>(s: set<T>, x: T)
    requires |s| == 1 && x in s
    ensures s == {x}
  {
    assert |s - {x}| == 0;
    assert s == {x} + (s - {x});
  }

  /** In scope, but its deny list cannot be checked. */
  function Unverifiable(id: Option<Identity>, gateway: Option<Scope>): KeyRecord -> bool {
    k => InScope(k, id, gateway) && !Verified(k, id)
  }

  lemma OneOrTheOther(k: KeyRecord, id: Option<Identity>, gateway: Option<Scope>)
    ensures !(CanServe(id, gateway)(k) && Unverifiable(id, gateway)(k))
  {
  }

  lemma {:induction false} FilterSnoc(keys: seq<KeyRecord>, k: KeyRecord, p: KeyRecord -> bool)
    ensures Filter(keys + [k], p) == Filter(keys, p) + (if p(k) then [k] else [])
  {
    if keys == [] {
      assert ([] + [k])[1..] == [];
    } else {
      assert (keys + [k])[1..] == keys[1..] + [k];
      FilterSnoc(keys[1..], k, p);
    }
  }

  lemma UncertainIfNoneServes(authorized: seq<KeyRecord>, id: Option<Identity>, gateway: Option<Scope>)
    requires Keep(authorized, CanServe(id, gateway)) == []
    ensures Keep(authorized, Unverifiable(id, gateway)) != [] <==> exists k :: k in authorized && InScope(k, id, gateway)
  {
    var unverifiable := Keep(authorized, Unverifiable(id, gateway));
    forall k | k in authorized ensures !Serves(k, id, gateway) {
      assert k !in Keep(authorized, CanServe(id, gateway)) && !CanServe(id, gateway)(k);
    }
    if unverifiable != [] { assert unverifiable[0] in unverifiable; }
    if k :| k in authorized && InScope(k, id, gateway) { assert k in unverifiable; }
  }

  function OneMoreFailure(): KeyRecord -> KeyRecord { (k: KeyRecord) => k.(failureCount := k.failureCount + 1) }

  predicate SwitchesOff(keys: seq<KeyRecord>, id: string, kind: FailureKind, policy: AutoDisable) {
    policy.enabled
    && (kind == Quota || (kind == Auth && forall k | k in keys && k.id == id :: k.failureCount + 1 >= policy.threshold))
  }

  lemma ReportIsCount(keys: seq<KeyRecord>, id: string, kind: FailureKind, policy: AutoDisable)
    requires kind != Transient
    requires !policy.enabled
          || (kind == Auth && forall k | k in keys && k.id == id :: k.failureCount + 1 < policy.threshold)
    ensures Step(keys, Report(id, kind), policy) == Update(keys, id, OneMoreFailure())
  {
    forall i | 0 <= i < |keys|
      ensures Step(keys, Report(id, kind), policy)[i] == Update(keys, id, OneMoreFailure())[i]
    {
      assert keys[i] in keys;
    }
  }

  lemma ReportIsDisable(keys: seq<KeyRecord>, id: string, kind: FailureKind, policy: AutoDisable)
    requires SwitchesOff(keys, id, kind, policy)
    ensures Step(keys, Report(id, kind), policy)
      == Step(Update(keys, id, OneMoreFailure()), Op.Disable(id, false), policy)
  {
    forall i | 0 <= i < |keys|
      ensures Step(keys, Report(id, kind), policy)[i]
        == Step(Update(keys, id, OneMoreFailure()), Op.Disable(id, false), policy)[i]
    {
      assert keys[i] in keys;
    }
  }

  /** The count read back is the one just written. */
  lemma FailuresAfter(before: seq<KeyRecord>, after: seq<KeyRecord>, id: string, failures: nat)
    requires Distinct(before) && after == Update(before, id, OneMoreFailure())
    requires failures == if FindKey(after, id).Some? then FindKey(after, id).value.failureCount else 1
    ensures forall k | k in before && k.id == id :: k.failureCount + 1 == failures
  {
    FoundIsTheOne(after, id);
    forall k | k in before && k.id == id ensures k.failureCount + 1 == failures {
      var i :| 0 <= i < |before| && before[i] == k;
      assert after[i] in after;
    }
  }

  lemma FoundIsTheOne(keys: seq<KeyRecord>, id: string)
    requires Distinct(keys)
    ensures forall k | k in keys && k.id == id :: FindKey(keys, id) == Some(k)
  {
    forall k | k in keys && k.id == id ensures FindKey(keys, id) == Some(k) {
      var f := FindKey(keys, id).value;
      var a :| 0 <= a < |keys| && keys[a] == f;
      var b :| 0 <= b < |keys| && keys[b] == k;
    }
  }
}
