/** Which Cursor key serves a request, and when a failing key is taken out: src/key-pool.ts on values. */
module KeyPool {
  import opened Prelude
  import opened Text
  import opened Routing
  import opened WeightedPick

  /** A key id no record has: it stands for a binding whose keys are gone. */
  const NO_KEY_SENTINEL := "\U{0000}none"

  const ROTATION_CURSOR_MODULUS := 1_000_000_000

  /** `exhausted` maps a quota bucket to the time its mark expires; a time that does not parse is `None`. */
  datatype KeyRecord = KeyRecord(
    id: string, active: bool, failureCount: nat, scope: Scope, weight: Number, exhausted: map<string, Option<int>>)

  datatype Binding = Binding(keyId: string, updatedAt: int)

  datatype Strategy = FillFirst | RoundRobin

  datatype RoutingPolicy = RoutingPolicy(strategy: Strategy, sessionAffinity: bool, ttl: nat)

  datatype AutoDisable = AutoDisable(enabled: bool, threshold: nat)

  datatype FailureKind = Quota | Auth | Transient

  datatype NoKeyReason =
    NoneConfigured | AllDisabled | ModelNotAllowed | ModelUnverified | NotAuthorized | Exhausted

  datatype PickOptions = PickOptions(
    model: Option<string>, identity: Option<Identity>, gateway: Option<Scope>,
    allowedKeyIds: seq<string>, sessionHash: Option<string>, bucket: Option<string>)

  datatype Selection = Picked(key: KeyRecord, sticky: bool) | NoKey(reason: NoKeyReason)

  datatype Pool = Pool(
    keys: seq<KeyRecord>, bindings: map<string, Binding>, routing: RoutingPolicy, autoDisable: AutoDisable,
    cursor: nat, bindCount: nat)

  // ---- the filters ------------------------------------------------------------------------------------

  /** `filter`. */
  function Filter(keys: seq<KeyRecord>, p: KeyRecord -> bool): seq<KeyRecord> {
    if keys == [] then [] else (if p(keys[0]) then [keys[0]] else []) + Filter(keys[1..], p)
  }

  lemma {:induction false} FilterListed(keys: seq<KeyRecord>, p: KeyRecord -> bool)
    ensures forall k :: k in Filter(keys, p) <==> k in keys && p(k)
    ensures |Filter(keys, p)| <= |keys|
  {
    if keys != [] {
      FilterListed(keys[1..], p);
      assert forall k :: k in keys <==> k == keys[0] || k in keys[1..];
    }
  }

  function Keep(keys: seq<KeyRecord>, p: KeyRecord -> bool): (r: seq<KeyRecord>)
    ensures forall k :: k in r <==> k in keys && p(k)
    ensures |r| <= |keys|
  {
    FilterListed(keys, p);
    Filter(keys, p)
  }

  function BoundIds(ids: seq<string>): set<string> { set i | i in ids && i != "" }

  predicate MayUse(k: KeyRecord, ids: set<string>) { k.active && (ids == {} || k.id in ids) }

  function EffectiveScope(gateway: Option<Scope>, key: Scope, id: Identity): Option<Scope> {
    Some(if gateway.Some? then IntersectScopes(gateway, Some(key), id) else key)
  }

  predicate InScope(k: KeyRecord, id: Option<Identity>, gateway: Option<Scope>) {
    id.Some? ==> IdentityAllowed(id.value, EffectiveScope(gateway, k.scope, id.value))
  }

  predicate Verified(k: KeyRecord, id: Option<Identity>) {
    id.Some? ==> !DenyRuleUnverifiable(id.value, Some(k.scope))
  }

  predicate Serves(k: KeyRecord, id: Option<Identity>, gateway: Option<Scope>) {
    InScope(k, id, gateway) && Verified(k, id)
  }

  /** Without a resolved identity, the model is known by its name and its static aliases only. */
  function RequestIdentity(opts: PickOptions): Option<Identity> {
    if opts.model.Some? && Trim(opts.model.value) != "" then
      Some(opts.identity.GetOr(IdentityFor(Trim(opts.model.value), "", [], false)))
    else None
  }

  predicate LiveMark(until: Option<int>, now: int) { until.Some? && until.value > now }

  predicate BucketExhausted(k: KeyRecord, bucket: string, now: int) {
    bucket in k.exhausted && LiveMark(k.exhausted[bucket], now)
  }

  function CanUse(ids: set<string>): KeyRecord -> bool { k => MayUse(k, ids) }

  function CanServe(id: Option<Identity>, gateway: Option<Scope>): KeyRecord -> bool { k => Serves(k, id, gateway) }

  function NotTried(excluded: set<string>): KeyRecord -> bool { (k: KeyRecord) => k.id !in excluded }

  function HasQuota(bucket: string, now: int): KeyRecord -> bool { k => !BucketExhausted(k, bucket, now) }

  datatype Screening = Candidates(keys: seq<KeyRecord>) | Rejected(reason: NoKeyReason)

  /** Status, binding, model scope and earlier attempts, each with its own reason for an empty result. */
  function Screen(keys: seq<KeyRecord>, excluded: set<string>, opts: PickOptions): Screening {
    var ids := BoundIds(opts.allowedKeyIds);
    var authorized := Keep(keys, CanUse(ids));
    var id := RequestIdentity(opts);
    var servable := Keep(authorized, CanServe(id, opts.gateway));
    var untried := Keep(servable, NotTried(excluded));
    if ids == {NO_KEY_SENTINEL} || (ids != {} && authorized == []) then Rejected(NotAuthorized)
    else if keys == [] then Rejected(NoneConfigured)
    else if authorized == [] then Rejected(AllDisabled)
    else if id.Some? && opts.gateway.Some? && !IdentityAllowed(id.value, opts.gateway) then Rejected(ModelNotAllowed)
    else if id.Some? && opts.gateway.Some? && DenyRuleUnverifiable(id.value, opts.gateway) then Rejected(ModelUnverified)
    else if servable == [] then
      Rejected(if exists k :: k in authorized && InScope(k, id, opts.gateway) then ModelUnverified else ModelNotAllowed)
    else if untried == [] then Rejected(Exhausted)
    else Candidates(untried)
  }

  /** Keys whose bucket is exhausted are avoided, unless that leaves none. */
  function PreferQuota(candidates: seq<KeyRecord>, bucket: Option<string>, now: int): seq<KeyRecord> {
    if bucket.None? then candidates
    else
      var usable := Keep(candidates, HasQuota(bucket.value, now));
      if usable != [] then usable else candidates
  }

  // ---- sticky sessions and the strategy -----------------------------------------------------------------

  function BindingFor(pool: Pool, hash: string, now: int): Option<Binding> {
    if hash != "" && hash in pool.bindings && pool.bindings[hash].updatedAt > now - pool.routing.ttl
    then Some(pool.bindings[hash]) else None
  }

  /** The first record with this id. */
  function FindKey(keys: seq<KeyRecord>, id: string): (r: Option<KeyRecord>)
    ensures r.Some? ==> r.value in keys && r.value.id == id
    ensures r.None? ==> forall k | k in keys :: k.id != id
  {
    if keys == [] then None
    else if keys[0].id == id then Some(keys[0])
    else
      var r := FindKey(keys[1..], id);
      assert forall k :: k in keys <==> k == keys[0] || k in keys[1..];
      r
  }

  function StickyBinding(pool: Pool, hash: Option<string>, now: int): Option<Binding> {
    if pool.routing.sessionAffinity && hash.Some? then BindingFor(pool, hash.value, now) else None
  }

  function StickyKey(pool: Pool, candidates: seq<KeyRecord>, hash: Option<string>, now: int): Option<KeyRecord> {
    var b := StickyBinding(pool, hash, now);
    if b.Some? then FindKey(candidates, b.value.keyId) else None
  }

  /** A live binding to a key that is not a candidate is dropped. */
  function WithoutStale(pool: Pool, candidates: seq<KeyRecord>, hash: Option<string>, now: int): Pool {
    if StickyBinding(pool, hash, now).Some? && StickyKey(pool, candidates, hash, now).None?
    then pool.(bindings := pool.bindings - {hash.value}) else pool
  }

  function PrunedKey(k: KeyRecord, now: int): KeyRecord {
    k.(exhausted := map b | b in k.exhausted && LiveMark(k.exhausted[b], now) :: k.exhausted[b])
  }

  /** The candidates lose their expired marks. */
  function PruneMarks(keys: seq<KeyRecord>, ids: set<string>, now: int): seq<KeyRecord> {
    seq(|keys|, i requires 0 <= i < |keys| => if keys[i].id in ids then PrunedKey(keys[i], now) else keys[i])
  }

  function Ids(keys: seq<KeyRecord>): set<string> { set k | k in keys :: k.id }

  function Weights(keys: seq<KeyRecord>): (r: seq<Number>)
    ensures |r| == |keys| && forall i | 0 <= i < |keys| :: r[i] == keys[i].weight
  {
    seq(|keys|, i requires 0 <= i < |keys| => keys[i].weight)
  }

  ghost function ByStrategy(pool: Pool, candidates: seq<KeyRecord>): KeyRecord
    requires candidates != []
  {
    if pool.routing.strategy == RoundRobin
    then candidates[WeightedIndex(Normalized(Weights(candidates)), pool.cursor)]
    else candidates[0]
  }

  function Advanced(pool: Pool, advance: bool): Pool {
    if pool.routing.strategy == RoundRobin && advance
    then pool.(cursor := (pool.cursor + 1) % ROTATION_CURSOR_MODULUS) else pool
  }

  function AfterPrune(pool: Pool, untried: seq<KeyRecord>, bucket: Option<string>, now: int): Pool {
    if bucket.Some? then pool.(keys := PruneMarks(pool.keys, Ids(untried), now)) else pool
  }

  /** From the candidates on: the choice, and the pool it leaves. */
  ghost function AmongCandidates(pool: Pool, untried: seq<KeyRecord>, opts: PickOptions, advance: bool, now: int)
    : (Selection, Pool)
    requires untried != []
  {
    var candidates := PreferQuota(untried, opts.bucket, now);
    var pruned := AfterPrune(pool, untried, opts.bucket, now);
    var sticky := StickyKey(pruned, candidates, opts.sessionHash, now);
    if sticky.Some? then (Picked(sticky.value, true), pruned)
    else
      var settled := WithoutStale(pruned, candidates, opts.sessionHash, now);
      (Picked(ByStrategy(settled, candidates), false), Advanced(settled, advance))
  }

  /** `select`: the choice, and the pool it leaves. */
  ghost function Select(pool: Pool, excluded: set<string>, opts: PickOptions, advance: bool, now: int): (Selection, Pool) {
    match Screen(pool.keys, excluded, opts)
    case Rejected(reason) => (NoKey(reason), pool)
    case Candidates(untried) =>
      ScreenedNonEmpty(pool.keys, excluded, opts);
      AmongCandidates(pool, untried, opts, advance, now)
  }

  lemma ScreenedNonEmpty(keys: seq<KeyRecord>, excluded: set<string>, opts: PickOptions)
    ensures Screen(keys, excluded, opts).Candidates? ==> Screen(keys, excluded, opts).keys != []
  {
  }

  // ---- what a selected key is -----------------------------------------------------------------------------

  /** What the request demands of a key, independently of the order of the filters. */
  predicate Eligible(k: KeyRecord, excluded: set<string>, opts: PickOptions) {
    && k.active && k.id !in excluded
    && (BoundIds(opts.allowedKeyIds) == {} || k.id in BoundIds(opts.allowedKeyIds))
    && (RequestIdentity(opts).Some? ==> ScopesAdmit(RequestIdentity(opts).value, opts.gateway, k.scope))
  }

  predicate ScopesAdmit(id: Identity, gateway: Option<Scope>, key: Scope) {
    (gateway.Some? ==> Admits(id, gateway)) && Admits(id, Some(key))
  }

  predicate Unblank(scope: Option<Scope>) { forall e | e in Allowed(scope) :: !Blank(e) }

  /** Normalized scopes, and an identity that names neither nothing nor the sentinel. */
  predicate Clean(pool: Pool, opts: PickOptions) {
    && Unblank(opts.gateway)
    && (forall k | k in pool.keys :: Unblank(Some(k.scope)))
    && (RequestIdentity(opts).Some? ==>
          "" !in RequestIdentity(opts).value.names && NO_MODEL_SENTINEL !in RequestIdentity(opts).value.names)
  }

  /** The id the sentinel stands for belongs to no key. */
  predicate NoSentinelKey(pool: Pool) { forall k | k in pool.keys :: k.id != NO_KEY_SENTINEL }

  lemma ServesIsAdmission(pool: Pool, opts: PickOptions, k: KeyRecord)
    requires Clean(pool, opts) && k in pool.keys
    requires RequestIdentity(opts).Some? && opts.gateway.Some? ==> Admits(RequestIdentity(opts).value, opts.gateway)
    ensures Serves(k, RequestIdentity(opts), opts.gateway) <==>
      (RequestIdentity(opts).Some? ==> ScopesAdmit(RequestIdentity(opts).value, opts.gateway, k.scope))
  {
    var id := RequestIdentity(opts);
    if id.Some? && opts.gateway.Some? {
      IntersectionIsExact(opts.gateway, Some(k.scope), id.value);
    }
  }

  /** The candidates are exactly the eligible keys, whatever the order of the filters. */
  lemma ScreenIsEligibility(pool: Pool, excluded: set<string>, opts: PickOptions, k: KeyRecord)
    requires Clean(pool, opts) && NoSentinelKey(pool)
    ensures k in pool.keys && Eligible(k, excluded, opts) <==>
      Screen(pool.keys, excluded, opts).Candidates? && k in Screen(pool.keys, excluded, opts).keys
  {
    if k in pool.keys {
      var id := RequestIdentity(opts);
      var ids := BoundIds(opts.allowedKeyIds);
      if id.Some? && opts.gateway.Some? ==> Admits(id.value, opts.gateway) { ServesIsAdmission(pool, opts, k); }
      if Eligible(k, excluded, opts) {
        var authorized := Keep(pool.keys, CanUse(ids));
        assert CanUse(ids)(k) && k in authorized;
        assert CanServe(id, opts.gateway)(k);
        assert NotTried(excluded)(k);
      }
    }
  }

  /** A key comes out exactly if an eligible one exists, and the one that comes out is eligible. */
  lemma SelectionIsEligible(pool: Pool, excluded: set<string>, opts: PickOptions, advance: bool, now: int)
    requires Clean(pool, opts) && NoSentinelKey(pool)
    ensures var r := Select(pool, excluded, opts, advance, now).0;
      r.Picked? ==> r.key in pool.keys && Eligible(r.key, excluded, opts)
    ensures Select(pool, excluded, opts, advance, now).0.Picked? <==>
      exists k :: k in pool.keys && Eligible(k, excluded, opts)
  {
    ScreenedNonEmpty(pool.keys, excluded, opts);
    forall k ensures k in pool.keys && Eligible(k, excluded, opts) <==>
      Screen(pool.keys, excluded, opts).Candidates? && k in Screen(pool.keys, excluded, opts).keys
    {
      ScreenIsEligibility(pool, excluded, opts, k);
    }
    var s := Screen(pool.keys, excluded, opts);
    if s.Candidates? { assert s.keys[0] in s.keys; }
  }

  /** Names the gateway did not know of cannot turn out to be denied: the key stays admitted for all of them. */
  lemma UnconfirmedSelectionIsSafe(pool: Pool, excluded: set<string>, opts: PickOptions, advance: bool, now: int, more: Identity)
    requires Clean(pool, opts) && NoSentinelKey(pool)
    requires RequestIdentity(opts).Some? && !RequestIdentity(opts).value.confirmed
    requires forall n | n in RequestIdentity(opts).value.names :: n in more.names
    ensures var r := Select(pool, excluded, opts, advance, now).0;
      r.Picked? ==> IdentityAllowed(more, Some(r.key.scope)) && (opts.gateway.Some? ==> IdentityAllowed(more, opts.gateway))
  {
    var id := RequestIdentity(opts).value;
    var r := Select(pool, excluded, opts, advance, now).0;
    SelectionIsEligible(pool, excluded, opts, advance, now);
    if r.Picked? {
      AdmissionSurvivesMoreNames(id, more, Some(r.key.scope));
      if opts.gateway.Some? { AdmissionSurvivesMoreNames(id, more, opts.gateway); }
    }
  }

  /** The quota bucket of a request never decides whether there is a key, nor why there is none. */
  lemma BucketNeverStarves(pool: Pool, excluded: set<string>, opts: PickOptions, advance: bool, now: int)
    ensures
      var plain := Select(pool, excluded, opts.(bucket := None), advance, now).0;
      var r := Select(pool, excluded, opts, advance, now).0;
      && (r.NoKey? <==> plain.NoKey?) && (r.NoKey? ==> r == plain)
  {
    assert Screen(pool.keys, excluded, opts.(bucket := None)) == Screen(pool.keys, excluded, opts) by {
      assert RequestIdentity(opts.(bucket := None)) == RequestIdentity(opts);
    }
  }

  /** An exhausted bucket is used only when every eligible key has exhausted it. */
  lemma ExhaustedOnlyAsLastResort(pool: Pool, excluded: set<string>, opts: PickOptions, advance: bool, now: int, k: KeyRecord)
    requires Clean(pool, opts) && NoSentinelKey(pool) && opts.bucket.Some?
    requires Select(pool, excluded, opts, advance, now).0.Picked?
    requires BucketExhausted(Select(pool, excluded, opts, advance, now).0.key, opts.bucket.value, now)
    requires k in pool.keys && Eligible(k, excluded, opts)
    ensures BucketExhausted(k, opts.bucket.value, now)
  {
    ScreenIsEligibility(pool, excluded, opts, k);
    ScreenedNonEmpty(pool.keys, excluded, opts);
    var untried := Screen(pool.keys, excluded, opts).keys;
    var usable := Keep(untried, HasQuota(opts.bucket.value, now));
    var r := Select(pool, excluded, opts, advance, now).0;
    assert r.key in PreferQuota(untried, opts.bucket, now);
    assert !HasQuota(opts.bucket.value, now)(r.key);
    assert r.key !in usable;
    assert !HasQuota(opts.bucket.value, now)(k);
  }

  // ---- why there is no key ------------------------------------------------------------------------------------

  /** A deny list stands that an incomplete identity cannot be checked against. */
  predicate MeetsDenyRule(id: Identity, gateway: Option<Scope>, key: Scope) {
    DenyRuleUnverifiable(id, gateway) || DenyRuleUnverifiable(id, Some(key))
  }

  predicate BoundTo(k: KeyRecord, opts: PickOptions) {
    BoundIds(opts.allowedKeyIds) == {} || k.id in BoundIds(opts.allowedKeyIds)
  }

  function Authorized(pool: Pool, opts: PickOptions): (r: seq<KeyRecord>)
    ensures forall k :: k in r <==> k in pool.keys && k.active && BoundTo(k, opts)
  {
    Keep(pool.keys, CanUse(BoundIds(opts.allowedKeyIds)))
  }

  /** Whether a key may be used at all is decided before the model is looked at. */
  lemma AuthorizationReasons(pool: Pool, excluded: set<string>, opts: PickOptions, advance: bool, now: int)
    requires NoSentinelKey(pool) && Select(pool, excluded, opts, advance, now).0.NoKey?
    ensures
      var reason := Select(pool, excluded, opts, advance, now).0.reason;
      var bound := BoundIds(opts.allowedKeyIds) != {};
      && (reason == NotAuthorized <==> bound && forall k | k in pool.keys && k.active :: !BoundTo(k, opts))
      && (reason == NoneConfigured <==> !bound && pool.keys == [])
      && (reason == AllDisabled <==> !bound && pool.keys != [] && forall k | k in pool.keys :: !k.active)
  {
    var authorized := Authorized(pool, opts);
    if authorized != [] { assert authorized[0] in authorized; }
    if pool.keys != [] { assert pool.keys[0] in pool.keys; }
  }

  /** The two model reasons: the model is denied to every usable key, or a deny rule could not be checked. */
  lemma ModelReasons(pool: Pool, excluded: set<string>, opts: PickOptions, advance: bool, now: int)
    requires Clean(pool, opts) && Select(pool, excluded, opts, advance, now).0.NoKey?
    ensures
      var reason := Select(pool, excluded, opts, advance, now).0.reason;
      var id := RequestIdentity(opts);
      && (reason == ModelNotAllowed ==> id.Some? && forall k | k in pool.keys && k.active && BoundTo(k, opts) ::
            !(IdentityAllowed(id.value, opts.gateway) && IdentityAllowed(id.value, Some(k.scope))))
      && (reason == ModelUnverified ==> id.Some? && !id.value.confirmed && exists k ::
            k in pool.keys && k.active && BoundTo(k, opts) && MeetsDenyRule(id.value, opts.gateway, k.scope))
  {
    var id := RequestIdentity(opts);
    var authorized := Authorized(pool, opts);
    var reason := Select(pool, excluded, opts, advance, now).0.reason;
    ReasonForScopes(pool, opts);
    var servable := Keep(authorized, CanServe(id, opts.gateway));
    assert id.None? ==> forall k :: CanServe(id, opts.gateway)(k);
    assert servable == [] ==> forall k | k in authorized :: !Serves(k, id, opts.gateway) by {
      forall k | k in authorized && servable == [] ensures !Serves(k, id, opts.gateway) {
        assert k !in servable && !CanServe(id, opts.gateway)(k);
      }
    }
    if authorized != [] { assert authorized[0] in authorized; }
    if servable != [] { assert servable[0] in servable; }
  }

  /** Only keys that could serve the request and were tried already are left. */
  lemma ExhaustedMeansTried(pool: Pool, excluded: set<string>, opts: PickOptions, advance: bool, now: int)
    requires Clean(pool, opts) && NoSentinelKey(pool)
    requires Select(pool, excluded, opts, advance, now).0 == NoKey(Exhausted)
    ensures exists k :: k in pool.keys && Eligible(k, {}, opts)
    ensures forall k | k in pool.keys && Eligible(k, {}, opts) :: k.id in excluded
  {
    var servable := Keep(Authorized(pool, opts), CanServe(RequestIdentity(opts), opts.gateway));
    var k := servable[0];
    assert k in servable && NotTried({})(k);
    assert Screen(pool.keys, {}, opts).Candidates? by { assert k in Keep(servable, NotTried({})); }
    ScreenIsEligibility(pool, {}, opts, k);
    forall k | k in pool.keys && Eligible(k, {}, opts) ensures k.id in excluded {
      ScreenIsEligibility(pool, excluded, opts, k);
    }
  }

  /** With the gateway scope met, a key is in scope exactly if its own scope allows the model. */
  lemma ReasonForScopes(pool: Pool, opts: PickOptions)
    requires Clean(pool, opts)
    ensures RequestIdentity(opts).Some? ==> forall k | k in pool.keys ::
      InScope(k, RequestIdentity(opts), opts.gateway) <==>
        (opts.gateway.Some? ==> IdentityAllowed(RequestIdentity(opts).value, opts.gateway))
        && IdentityAllowed(RequestIdentity(opts).value, Some(k.scope))
  {
    var id := RequestIdentity(opts);
    if id.Some? && opts.gateway.Some? {
      forall k | k in pool.keys
        ensures InScope(k, id, opts.gateway) <==> IdentityAllowed(id.value, opts.gateway) && IdentityAllowed(id.value, Some(k.scope))
      {
        IntersectionIsExact(opts.gateway, Some(k.scope), id.value);
      }
    }
  }
}
