/** Runs of the key pool: which failures take a key out. */
module KeyAccounting {
  import opened Prelude
  import opened Routing
  import opened WeightedPick
  import opened KeyPool

  // ---- the filters keep ids distinct ----------------------------------------------------------------

  predicate Distinct(keys: seq<KeyRecord>) {
    forall i, j | 0 <= i < j < |keys| :: keys[i].id != keys[j].id
  }

  lemma {:induction false} FilterDistinct(keys: seq<KeyRecord>, p: KeyRecord -> bool)
    requires Distinct(keys)
    ensures Distinct(Filter(keys, p))
  {
    if keys != [] {
      FilterDistinct(keys[1..], p);
      FilterListed(keys[1..], p);
      var rest := Filter(keys[1..], p);
      forall j | 0 <= j < |rest| ensures rest[j].id != keys[0].id {
        assert rest[j] in rest;
        assert rest[j] in keys[1..];
      }
    }
  }

  lemma KeepDistinct(keys: seq<KeyRecord>, p: KeyRecord -> bool)
    requires Distinct(keys)
    ensures Distinct(Keep(keys, p))
  {
    FilterDistinct(keys, p);
  }

  lemma ScreenDistinct(pool: Pool, excluded: set<string>, opts: PickOptions)
    requires Distinct(pool.keys) && Screen(pool.keys, excluded, opts).Candidates?
    ensures Distinct(Screen(pool.keys, excluded, opts).keys)
  {
    var authorized := Keep(pool.keys, CanUse(BoundIds(opts.allowedKeyIds)));
    KeepDistinct(pool.keys, CanUse(BoundIds(opts.allowedKeyIds)));
    KeepDistinct(authorized, CanServe(RequestIdentity(opts), opts.gateway));
    KeepDistinct(Keep(authorized, CanServe(RequestIdentity(opts), opts.gateway)), NotTried(excluded));
  }

  // ---- failures, successes and the automatic switch-off -------------------------------------------------

  datatype Op =
    | Report(id: string, kind: FailureKind)
    | Success(id: string, bucket: Option<string>)
    | Enable(id: string)
    | Disable(id: string, manual: bool)

  function Update(keys: seq<KeyRecord>, id: string, f: KeyRecord -> KeyRecord): (r: seq<KeyRecord>)
    ensures |r| == |keys|
    ensures forall i | 0 <= i < |keys| :: r[i] == if keys[i].id == id then f(keys[i]) else keys[i]
  {
    seq(|keys|, i requires 0 <= i < |keys| => if keys[i].id == id then f(keys[i]) else keys[i])
  }

  /** What one operation makes of the key it is about. */
  function StepKey(k: KeyRecord, op: Op, policy: AutoDisable): KeyRecord {
    match op
    case Report(_, Transient) => k
    case Report(_, Quota) => k.(failureCount := k.failureCount + 1, active := k.active && !policy.enabled)
    case Report(_, Auth) =>
      var n := k.failureCount + 1;
      k.(failureCount := n, active := k.active && !(policy.enabled && n >= policy.threshold))
    case Success(_, bucket) =>
      k.(failureCount := 0, exhausted := if bucket.Some? then k.exhausted - {bucket.value} else map[])
    case Enable(_) => k.(active := true, failureCount := 0)
    case Disable(_, manual) => k.(active := false, failureCount := if manual then 0 else k.failureCount)
  }

  function Stepped(op: Op, policy: AutoDisable): KeyRecord -> KeyRecord { k => StepKey(k, op, policy) }

  function Step(keys: seq<KeyRecord>, op: Op, policy: AutoDisable): seq<KeyRecord> {
    Update(keys, op.id, Stepped(op, policy))
  }

  function Run(keys: seq<KeyRecord>, ops: seq<Op>, policy: AutoDisable): (r: seq<KeyRecord>)
    ensures |r| == |keys| && forall i | 0 <= i < |keys| :: r[i].id == keys[i].id
  {
    if ops == [] then keys else Step(Run(keys, ops[..|ops| - 1], policy), ops[|ops| - 1], policy)
  }

  predicate Counts(op: Op, id: string) { op.id == id && op.Report? && op.kind != Transient }

  /** Quota and authorization failures of this key. */
  function Failures(ops: seq<Op>, id: string): nat {
    if ops == [] then 0
    else Failures(ops[..|ops| - 1], id) + (if Counts(ops[|ops| - 1], id) then 1 else 0)
  }

  predicate NoSuccess(ops: seq<Op>, id: string) { forall o | o in ops :: o.id == id ==> !o.Success? }

  /** Nobody switched the key on or off by hand. */
  predicate Unattended(ops: seq<Op>, id: string) { forall o | o in ops :: o.id == id ==> o.Report? || o.Success? }

  predicate QuotaFailed(ops: seq<Op>, id: string) { Report(id, Quota) in ops }

  /** `threshold` counted failures with no success between them. */
  ghost predicate FailedInARow(ops: seq<Op>, id: string, threshold: nat) {
    exists a, b {:trigger ops[a..b]} :: 0 <= a <= b <= |ops| && NoSuccess(ops[a..b], id) && Failures(ops[a..b], id) >= threshold
  }

  /** One more operation, seen from any starting point. */
  lemma SuffixStep(ops: seq<Op>, id: string, a: nat)
    requires a < |ops|
    ensures
      var init, last := ops[..|ops| - 1], ops[|ops| - 1];
      && (NoSuccess(ops[a..], id) <==> NoSuccess(init[a..], id) && !(last.id == id && last.Success?))
      && Failures(ops[a..], id) == Failures(init[a..], id) + (if Counts(last, id) then 1 else 0)
  {
    var init, last := ops[..|ops| - 1], ops[|ops| - 1];
    assert ops[a..] == init[a..] + [last];
    assert ops[a..][..|ops[a..]| - 1] == init[a..];
    assert forall o :: o in ops[a..] <==> o in init[a..] || o == last;
  }

  lemma EmptySuffix(ops: seq<Op>, id: string)
    ensures NoSuccess(ops[|ops|..], id) && Failures(ops[|ops|..], id) == 0
  {
    assert ops[|ops|..] == [];
  }

  /** Failures of this key without a success since position `a`. */
  ghost predicate StreakFrom(ops: seq<Op>, id: string, a: nat, n: nat)
    requires a <= |ops|
  {
    NoSuccess(ops[a..], id) && Failures(ops[a..], id) == n
  }

  /** No start gives more failures than `n` without a success. */
  ghost predicate StreaksUpTo(ops: seq<Op>, id: string, n: nat) {
    forall a: nat | a <= |ops| && NoSuccess(ops[a..], id) :: Failures(ops[a..], id) <= n
  }

  /** What one more operation makes of the longest run. */
  function NextStreak(n: nat, op: Op, id: string): nat {
    if op.id == id && op.Success? then 0 else if Counts(op, id) then n + 1 else n
  }

  lemma StreakStep(ops: seq<Op>, id: string, b: nat, n: nat) returns (a: nat)
    requires ops != [] && b < |ops|
    requires StreaksUpTo(ops[..|ops| - 1], id, n) && StreakFrom(ops[..|ops| - 1], id, b, n)
    ensures a <= |ops| && StreakFrom(ops, id, a, NextStreak(n, ops[|ops| - 1], id))
    ensures StreaksUpTo(ops, id, NextStreak(n, ops[|ops| - 1], id))
  {
    var last := ops[|ops| - 1];
    EmptySuffix(ops, id);
    SuffixStep(ops, id, b);
    a := if last.id == id && last.Success? then |ops| else b;
    forall c: nat | c <= |ops| && NoSuccess(ops[c..], id) ensures Failures(ops[c..], id) <= NextStreak(n, last, id) {
      if c < |ops| { SuffixStep(ops, id, c); }
    }
  }

  lemma CountStep(keys: seq<KeyRecord>, ops: seq<Op>, policy: AutoDisable, i: nat)
    requires i < |keys| && ops != []
    requires ops[|ops| - 1].id == keys[i].id ==> ops[|ops| - 1].Report? || ops[|ops| - 1].Success?
    ensures Run(keys, ops, policy)[i].failureCount
      == NextStreak(Run(keys, ops[..|ops| - 1], policy)[i].failureCount, ops[|ops| - 1], keys[i].id)
  {
  }

  /** The failure count is the longest run of failures up to now without a success in it. */
  lemma {:induction false} CountIsStreak(keys: seq<KeyRecord>, ops: seq<Op>, policy: AutoDisable, i: nat) returns (a: nat)
    requires i < |keys| && keys[i].failureCount == 0 && Unattended(ops, keys[i].id)
    ensures StreaksUpTo(ops, keys[i].id, Run(keys, ops, policy)[i].failureCount)
    ensures a <= |ops| && StreakFrom(ops, keys[i].id, a, Run(keys, ops, policy)[i].failureCount)
  {
    var id := keys[i].id;
    if ops == [] {
      EmptySuffix(ops, id);
      a := 0;
    } else {
      var init := ops[..|ops| - 1];
      assert ops[|ops| - 1] in ops && forall o | o in init :: o in ops;
      var b := CountIsStreak(keys, init, policy, i);
      a := StreakStep(ops, id, b, Run(keys, init, policy)[i].failureCount);
      CountStep(keys, ops, policy, i);
    }
  }

  /**
   Left to itself, a healthy key is switched off exactly if the policy is on and either one quota failure
   was reported, or enough failures in a row; transient failures never count.
   */
  lemma {:induction false} SwitchedOffExactlyWhen(keys: seq<KeyRecord>, ops: seq<Op>, policy: AutoDisable, i: nat)
    requires i < |keys| && keys[i].active && keys[i].failureCount == 0 && Unattended(ops, keys[i].id)
    requires policy.threshold >= 1
    ensures !Run(keys, ops, policy)[i].active <==>
      policy.enabled && (QuotaFailed(ops, keys[i].id) || FailedInARow(ops, keys[i].id, policy.threshold))
  {
    var id := keys[i].id;
    var n := |ops| - 1;
    if ops == [] {
      assert forall a, b {:trigger ops[a..b]} | 0 <= a <= b <= |ops| :: ops[a..b] == [];
    } else {
      var init, last := ops[..n], ops[n];
      assert ops == init + [last] && last in ops;
      SwitchedOffExactlyWhen(keys, init, policy, i);
      assert QuotaFailed(ops, id) <==> QuotaFailed(init, id) || last == Report(id, Quota);
      InARowSplits(ops, id, policy.threshold);
      CountReachesThreshold(keys, ops, policy, i);
      CountReachesThreshold(keys, init, policy, i);
      InARowEndsAnywhere(init, id, policy.threshold);
      var k := Run(keys, init, policy)[i];
      assert Run(keys, ops, policy)[i] == if last.id == id then StepKey(k, last, policy) else k;
    }
  }

  lemma CountReachesThreshold(keys: seq<KeyRecord>, ops: seq<Op>, policy: AutoDisable, i: nat)
    requires i < |keys| && keys[i].failureCount == 0 && Unattended(ops, keys[i].id)
    ensures FailedNow(ops, keys[i].id, policy.threshold) <==> Run(keys, ops, policy)[i].failureCount >= policy.threshold
  {
    var a := CountIsStreak(keys, ops, policy, i);
    assert ops[a..] == ops[a..];
  }

  lemma InARowEndsAnywhere(ops: seq<Op>, id: string, threshold: nat)
    ensures FailedNow(ops, id, threshold) ==> FailedInARow(ops, id, threshold)
  {
    if FailedNow(ops, id, threshold) {
      var a :| 0 <= a <= |ops| && NoSuccess(ops[a..], id) && Failures(ops[a..], id) >= threshold;
      assert ops[a..] == ops[a..|ops|];
    }
  }

  ghost predicate FailedNow(ops: seq<Op>, id: string, threshold: nat) {
    exists a :: 0 <= a <= |ops| && NoSuccess(ops[a..], id) && Failures(ops[a..], id) >= threshold
  }

  lemma InARowSplits(ops: seq<Op>, id: string, threshold: nat)
    requires ops != []
    ensures FailedInARow(ops, id, threshold) <==> FailedInARow(ops[..|ops| - 1], id, threshold) || FailedNow(ops, id, threshold)
  {
    var init := ops[..|ops| - 1];
    if FailedInARow(ops, id, threshold) {
      var a, b :| 0 <= a <= b <= |ops| && NoSuccess(ops[a..b], id) && Failures(ops[a..b], id) >= threshold;
      if b == |ops| { assert ops[a..b] == ops[a..]; } else { assert ops[a..b] == init[a..b]; }
    }
    if FailedInARow(init, id, threshold) {
      var a, b :| 0 <= a <= b <= |init| && NoSuccess(init[a..b], id) && Failures(init[a..b], id) >= threshold;
      assert ops[a..b] == init[a..b];
    }
    if FailedNow(ops, id, threshold) {
      var a :| 0 <= a <= |ops| && NoSuccess(ops[a..], id) && Failures(ops[a..], id) >= threshold;
      assert ops[a..] == ops[a..|ops|];
    }
  }
}
