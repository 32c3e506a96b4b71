/** Call ids of Responses items: `responseCallIds` of src/protocol.ts. */
module CallIds {
  import opened Prelude
  import opened Text
  import opened Sorting
  import opened Decimal
  import opened ToolCallIds

  /** `ref` is the identity of the call object; `arguments` its JSON text. */
  datatype ToolCall = ToolCall(ref: nat, id: string, name: string, arguments: string)

  /** The hash of a long id, and the random stand-in remembered for an object with an empty one. */
  datatype Oracles = Oracles(digest: string -> string, degenerate: nat -> string)

  function BaseSuffix(call: ToolCall, o: Oracles): string {
    var shown := Sanitize(call.id, o.digest);
    var suffix := StripCall(Trim(if shown != "" then shown else call.id));
    if suffix != "" then suffix else o.degenerate(call.ref)
  }

  /** The suffixes already given to call objects, and those used in this response. */
  datatype Resolver = Resolver(cache: map<nat, string>, used: set<string>)

  function Numbered(base: string, k: nat): string { base + "_" + Digits(k) }

  lemma NumberedInjective(base: string, i: nat, j: nat)
    requires Numbered(base, i) == Numbered(base, j)
    ensures i == j
  {
    assert Numbered(base, i)[|base| + 1..] == Digits(i) && Numbered(base, j)[|base| + 1..] == Digits(j);
    DigitsInjective(i, j);
  }

  /** The base and its numbered forms up to `k` are all taken. */
  ghost predicate Taken(base: string, used: set<string>, k: nat) {
    base in used && forall j | 2 <= j < k :: Numbered(base, j) in used
  }

  lemma {:induction false} TakenFit(base: string, used: set<string>, k: nat)
    requires k >= 2 && Taken(base, used, k)
    ensures k - 1 <= |used|
    decreases k
  {
    if k == 2 {
      assert |used - {base}| == |used| - 1;
    } else {
      var last := Numbered(base, k - 1);
      forall j | 2 <= j < k - 1 ensures Numbered(base, j) != last {
        if Numbered(base, j) == last { NumberedInjective(base, j, k - 1); }
      }
      assert |last| > |base|;
      TakenFit(base, used - {last}, k - 1);
    }
  }

  /** The first free form from number `k` on. */
  function FirstFree(base: string, used: set<string>, k: nat): (s: string)
    requires k >= 2 && Taken(base, used, k)
    ensures s !in used && exists n :: n >= k && s == Numbered(base, n) && Taken(base, used, n)
    decreases |used| + 2 - k
  {
    TakenFit(base, used, k);
    if Numbered(base, k) in used then FirstFree(base, used, k + 1) else Numbered(base, k)
  }

  function Renamed(base: string, used: set<string>): (s: string)
    ensures s !in used
    ensures s == base || exists n :: n >= 2 && s == Numbered(base, n) && Taken(base, used, n)
  {
    if base in used then FirstFree(base, used, 2) else base
  }

  /** Resolving with the set of the response. */
  function Resolve(r: Resolver, call: ToolCall, o: Oracles): (string, Resolver) {
    if call.ref in r.cache then (r.cache[call.ref], r)
    else
      var s := Renamed(BaseSuffix(call, o), r.used);
      (s, Resolver(r.cache[call.ref := s], r.used + {s}))
  }

  /** Resolving without a set, as the runner does when it remembers a call: the base is kept as it is. */
  function ResolveAlone(r: Resolver, call: ToolCall, o: Oracles): (string, Resolver) {
    if call.ref in r.cache then (r.cache[call.ref], r)
    else (BaseSuffix(call, o), r.(cache := r.cache[call.ref := BaseSuffix(call, o)]))
  }

  method ResponseCallIds(r: Resolver, call: ToolCall, inResponse: bool, o: Oracles) returns (suffix: string, next: Resolver)
    ensures (suffix, next) == if inResponse then Resolve(r, call, o) else ResolveAlone(r, call, o)
  {
    if call.ref in r.cache { return r.cache[call.ref], r; }
    var base := BaseSuffix(call, o);
    if !inResponse { return base, r.(cache := r.cache[call.ref := base]); }
    var candidate := base;
    var counter := 2;
    while candidate in r.used
      invariant counter >= 2
      invariant candidate == if counter == 2 then base else Numbered(base, counter - 1)
      invariant counter > 2 ==> Taken(base, r.used, counter - 1)
      invariant counter > 2 ==>
        (Renamed(base, r.used) == if candidate in r.used then FirstFree(base, r.used, counter) else candidate)
      invariant candidate in r.used ==> Taken(base, r.used, counter)
      decreases |r.used| + 2 - counter
    {
      TakenFit(base, r.used, counter);
      candidate := Numbered(base, counter);
      counter := counter + 1;
    }
    suffix := candidate;
    next := Resolver(r.cache[call.ref := suffix], r.used + {suffix});
  }

  // ---- a whole response -----------------------------------------------------------------------------------

  function ResolveAll(r: Resolver, calls: seq<ToolCall>, o: Oracles): (seq<string>, Resolver)
    decreases |calls|
  {
    if calls == [] then ([], r)
    else
      var (s, next) := Resolve(r, calls[0], o);
      var (rest, end) := ResolveAll(next, calls[1..], o);
      ([s] + rest, end)
  }

  predicate Fresh(r: Resolver, calls: seq<ToolCall>) {
    && (forall i | 0 <= i < |calls| :: calls[i].ref !in r.cache)
    && (forall i, j | 0 <= i < j < |calls| :: calls[i].ref != calls[j].ref)
  }

  function CallId(suffix: string): string { "call_" + suffix }

  function ItemId(suffix: string): string { "fc_" + suffix }

  lemma {:induction false} FreshSuffixes(r: Resolver, calls: seq<ToolCall>, o: Oracles)
    requires Fresh(r, calls)
    ensures |ResolveAll(r, calls, o).0| == |calls|
    ensures forall i | 0 <= i < |calls| :: ResolveAll(r, calls, o).0[i] !in r.used
    ensures forall i, j | 0 <= i < j < |calls| :: ResolveAll(r, calls, o).0[i] != ResolveAll(r, calls, o).0[j]
    decreases |calls|
  {
    if calls != [] {
      var (s, next) := Resolve(r, calls[0], o);
      FreshSuffixes(next, calls[1..], o);
    }
  }

  /** Freshly resolved calls of one response get distinct ids, in both name spaces. */
  lemma FreshCallsAreDistinct(r: Resolver, calls: seq<ToolCall>, o: Oracles, i: nat, j: nat)
    requires Fresh(r, calls) && i < j < |calls|
    ensures |ResolveAll(r, calls, o).0| == |calls|
    ensures CallId(ResolveAll(r, calls, o).0[i]) != CallId(ResolveAll(r, calls, o).0[j])
    ensures ItemId(ResolveAll(r, calls, o).0[i]) != ItemId(ResolveAll(r, calls, o).0[j])
  {
    FreshSuffixes(r, calls, o);
    var s, t := ResolveAll(r, calls, o).0[i], ResolveAll(r, calls, o).0[j];
    assert CallId(s)[5..] == s && CallId(t)[5..] == t;
    assert ItemId(s)[3..] == s && ItemId(t)[3..] == t;
  }

  /** Asked again for the same object, the ids do not change. */
  lemma ResolveIsStable(r: Resolver, call: ToolCall, o: Oracles)
    ensures var (s, next) := Resolve(r, call, o); Resolve(next, call, o) == (s, next)
  {
  }

  // ---- calls that kept a suffix from an earlier response ---------------------------------------------------

  predicate DistinctRefs(calls: seq<ToolCall>) {
    forall i, j | 0 <= i < j < |calls| :: calls[i].ref != calls[j].ref
  }

  predicate Distinct(ss: seq<string>) {
    forall i, j | 0 <= i < j < |ss| :: ss[i] != ss[j]
  }

  /** The suffixes kept from earlier responses, in order. */
  function Kept(r: Resolver, calls: seq<ToolCall>): seq<string> {
    if calls == [] then []
    else (if calls[0].ref in r.cache then [r.cache[calls[0].ref]] else []) + Kept(r, calls[1..])
  }

  /** The calls without one. */
  function New(r: Resolver, calls: seq<ToolCall>): seq<ToolCall> {
    if calls == [] then []
    else (if calls[0].ref in r.cache then [] else [calls[0]]) + New(r, calls[1..])
  }

  /** What the new calls are given: each one its base, or the first numbered form free among those given before it. */
  function Given(used: set<string>, calls: seq<ToolCall>, o: Oracles): seq<string>
    decreases |calls|
  {
    if calls == [] then []
    else
      var s := Renamed(BaseSuffix(calls[0], o), used);
      [s] + Given(used + {s}, calls[1..], o)
  }

  predicate MergeOf(ss: seq<string>, left: seq<string>, right: seq<string>) {
    multiset(ss) == multiset(left) + multiset(right)
  }

  /** Kept suffixes differ from each other and from the given ones. */
  predicate NoClash(kept: seq<string>, given: seq<string>) {
    Distinct(kept) && forall s | s in kept :: s !in given
  }
}
