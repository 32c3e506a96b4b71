/** From intent to model parameters: `resolveModelParams` of src/model-params.ts. */
module ModelParams {
  import opened Prelude
  import opened Text
  import opened Sorting
  import opened ModelIntent

  datatype ParamValue = ParamValue(value: string, displayName: Option<string>)

  datatype ParamDef = ParamDef(id: string, displayName: Option<string>, values: seq<ParamValue>)

  datatype Variant = Variant(isDefault: bool, params: seq<Param>)

  datatype Catalog = Catalog(parameters: seq<ParamDef>, variants: seq<Variant>)

  /** The built-in conventions for a family of model ids. */
  datatype Family = Family(defs: seq<ParamDef>, maxContextExcludesFast: bool)

  /** The size a context value stands for, and the rank of an effort word or number. */
  datatype Oracles = Oracles(size: string -> real, level: string -> Option<nat>)

  /** What the log records as not sent as asked. */
  datatype Drop = DroppedReasoning | DroppedMaxMode | DroppedFast | ForcedFast(was: string, now: string) | LoweredContext(was: string, now: string)

  datatype Resolved = Resolved(params: seq<Param>, dropped: seq<Drop>, usedFallback: bool)

  // ---- names -----------------------------------------------------------------------------------------

  predicate OccursAt(s: string, i: nat, part: string) {
    i + |part| <= |s| && s[i..i + |part|] == part
  }

  predicate Contains(s: string, part: string) {
    exists i: nat :: i <= |s| && OccursAt(s, i, part)
  }

  const LINE_ENDS := "\n\r\U{2028}\U{2029}"

  /** `/max.?mode/`. */
  predicate ContainsMaxMode(s: string) {
    Contains(s, "maxmode")
    || exists i: nat :: i <= |s| && OccursAt(s, i, "max") && OccursAt(s, i + 4, "mode") && s[i + 3] !in LINE_ENDS
  }

  predicate MaxModeName(name: string) {
    var s := Lower(name);
    ContainsMaxMode(s) || Contains(s, "context") || Contains(s, "window") || Contains(s, "long")
    || Contains(s, "token") || Contains(s, "length") || s == "1m"
  }

  predicate FastName(name: string) { Contains(Lower(name), "fast") }

  predicate ReasoningName(name: string) {
    Contains(Lower(name), "reason") || Contains(Lower(name), "effort") || Contains(Lower(name), "think")
  }

  predicate ThinkingName(name: string) { Lower(name) == "think" || Lower(name) == "thinking" }

  predicate SoftLevel(effort: string) { Lower(Trim(effort)) in {"adaptive", "default", "standard", "auto"} }

  predicate IsBoolean(def: ParamDef) {
    def.values != [] && forall v | v in def.values :: v.value == "true" || v.value == "false"
  }

  predicate MaxModeDef(def: ParamDef) {
    MaxModeName(def.id) || (def.displayName.Some? && def.displayName.value != "" && MaxModeName(def.displayName.value))
  }

  /** `find`. */
  function FindDef(defs: seq<ParamDef>, p: ParamDef -> bool): (r: Option<ParamDef>)
    ensures r.Some? ==> r.value in defs && p(r.value)
    ensures r.None? ==> forall d | d in defs :: !p(d)
  {
    if defs == [] then None
    else if p(defs[0]) then Some(defs[0])
    else
      var r := FindDef(defs[1..], p);
      assert forall d :: d in defs <==> d == defs[0] || d in defs[1..];
      r
  }

  function FastDef(defs: seq<ParamDef>): Option<ParamDef> {
    var exact := FindDef(defs, (d: ParamDef) => Lower(d.id) == "fast");
    if exact.Some? then exact else FindDef(defs, (d: ParamDef) => FastName(d.id))
  }

  function ContextDef(defs: seq<ParamDef>): Option<ParamDef> { FindDef(defs, (d: ParamDef) => !IsBoolean(d) && MaxModeDef(d)) }

  function MaxModeTarget(defs: seq<ParamDef>): Option<ParamDef> { FindDef(defs, (d: ParamDef) => MaxModeDef(d)) }

  function Values(def: ParamDef): (r: seq<string>)
    ensures |r| == |def.values| && forall i | 0 <= i < |r| :: r[i] == def.values[i].value
  {
    seq(|def.values|, i requires 0 <= i < |def.values| => def.values[i].value)
  }

  // ---- ordering by size --------------------------------------------------------------------------------

  function Smaller(size: string -> real): (string, string) -> bool { (a, b) => size(a) < size(b) }

  function Larger(size: string -> real): (string, string) -> bool { (a, b) => size(a) > size(b) }

  ghost predicate NoneBefore(before: (string, string) -> bool, xs: seq<string>) {
    forall i, j | 0 <= i < j < |xs| :: !before(xs[j], xs[i])
  }

  /** A comparison by a number. */
  ghost predicate ByNumber(before: (string, string) -> bool, key: string -> real) {
    forall a, b :: before(a, b) <==> key(a) < key(b)
  }

  lemma {:induction false} InsertByNumber(before: (string, string) -> bool, key: string -> real, x: string, xs: seq<string>)
    requires ByNumber(before, key) && NoneBefore(before, xs)
    ensures NoneBefore(before, Insert(before, x, xs))
  {
    if xs != [] && before(xs[0], x) {
      InsertByNumber(before, key, x, xs[1..]);
      var rest := Insert(before, x, xs[1..]);
      forall j | 0 <= j < |rest| ensures !before(rest[j], xs[0]) {
        InsertedFrom(before, x, xs[1..], rest[j]);
        if rest[j] in xs[1..] {
          var k :| 0 <= k < |xs[1..]| && xs[1..][k] == rest[j];
          assert xs[k + 1] == rest[j];
        }
      }
    }
  }

  lemma {:induction false} SortByNumber(before: (string, string) -> bool, key: string -> real, xs: seq<string>)
    requires ByNumber(before, key)
    ensures NoneBefore(before, Sort(before, xs)) && |Sort(before, xs)| == |xs|
  {
    SortPermutes(before, xs);
    if xs != [] {
      SortByNumber(before, key, xs[1..]);
      InsertByNumber(before, key, xs[0], Sort(before, xs[1..]));
    }
  }

  /** The last in ascending order is a largest one. */
  lemma LastIsLargest(size: string -> real, xs: seq<string>)
    requires xs != []
    ensures var s := Sort(Smaller(size), xs);
      |s| == |xs| && s[|s| - 1] in xs && (forall v | v in xs :: size(v) <= size(s[|s| - 1]))
      && s[0] in xs && forall v | v in xs :: size(s[0]) <= size(v)
  {
    var s := Sort(Smaller(size), xs);
    SortByNumber(Smaller(size), size, xs);
    SortedFrom(Smaller(size), xs, s[|s| - 1]);
    SortedFrom(Smaller(size), xs, s[0]);
    forall v | v in xs ensures size(s[0]) <= size(v) <= size(s[|s| - 1]) {
      SortedFrom(Smaller(size), xs, v);
      var i :| 0 <= i < |s| && s[i] == v;
      assert i == 0 || !Smaller(size)(s[i], s[0]);
      assert i == |s| - 1 || !Smaller(size)(s[|s| - 1], s[i]);
    }
  }

  // ---- the three intents ----------------------------------------------------------------------------------

  function BooleanValue(def: ParamDef, enabled: bool): string {
    var wanted := if enabled then "true" else "false";
    if wanted in Values(def) then wanted else if def.values != [] then def.values[0].value else wanted
  }

  function ApplyMaxMode(result: seq<Param>, defs: seq<ParamDef>, enabled: bool, size: string -> real): (seq<Param>, bool) {
    var target := MaxModeTarget(defs);
    if target.None? || target.value.values == [] then (result, false)
    else if IsBoolean(target.value) then (SetParam(result, Param(target.value.id, BooleanValue(target.value, enabled))), true)
    else
      var sorted := Sort(Smaller(size), Values(target.value));
      SortByNumber(Smaller(size), size, Values(target.value));
      var chosen := if enabled then sorted[|sorted| - 1] else sorted[0];
      (SetParam(result, Param(target.value.id, chosen)), true)
  }

  function ApplyFast(result: seq<Param>, defs: seq<ParamDef>, enabled: bool): (seq<Param>, bool) {
    var target := FastDef(defs);
    if target.None? then (result, false)
    else (SetParam(result, Param(target.value.id, BooleanValue(target.value, enabled))), true)
  }

  function RankOf(v: ParamValue, o: Oracles): Option<nat> {
    var r := o.level(v.value);
    if r.Some? then r else o.level(v.displayName.GetOr(""))
  }

  function Distance(a: nat, b: nat): nat { if a >= b then a - b else b - a }

  /** Whether a value of rank `a` is a better match for `rank` than one of rank `b`: closer, or as close and stronger. */
  predicate Better(a: nat, b: nat, rank: nat) {
    Distance(a, rank) < Distance(b, rank) || (Distance(a, rank) == Distance(b, rank) && a > b)
  }

  /** The position of the best match, the first of equals. */
  function Closest(values: seq<ParamValue>, rank: nat, o: Oracles): (r: Option<nat>)
    ensures r.Some? ==> r.value < |values| && RankOf(values[r.value], o).Some?
  {
    if values == [] then None
    else
      var n := |values| - 1;
      var best := Closest(values[..n], rank, o);
      var here := RankOf(values[n], o);
      if here.Some? && (best.None? || Better(here.value, RankOf(values[best.value], o).value, rank)) then Some(n) else best
  }

  /** No value with a rank matches better than the chosen one, and one is chosen if any has a rank. */
  lemma {:induction false} ClosestIsBest(values: seq<ParamValue>, rank: nat, o: Oracles)
    ensures Closest(values, rank, o).None? <==> forall v | v in values :: RankOf(v, o).None?
    ensures forall v | v in values && RankOf(v, o).Some? ::
      !Better(RankOf(v, o).value, RankOf(values[Closest(values, rank, o).value], o).value, rank)
  {
    if values != [] {
      var n := |values| - 1;
      ClosestIsBest(values[..n], rank, o);
      assert forall v :: v in values <==> v in values[..n] || v == values[n];
    }
  }

  method PickClosestValue(def: ParamDef, rank: nat, o: Oracles) returns (value: Option<string>)
    ensures value == if Closest(def.values, rank, o).Some? then Some(def.values[Closest(def.values, rank, o).value].value) else None
  {
    var best: Option<nat> := None;
    var i := 0;
    while i < |def.values|
      invariant 0 <= i <= |def.values| && best == Closest(def.values[..i], rank, o)
    {
      assert def.values[..i + 1][..i] == def.values[..i];
      var here := RankOf(def.values[i], o);
      if here.Some? {
        if best.None? || Better(here.value, RankOf(def.values[best.value], o).value, rank) { best := Some(i); }
      }
      i := i + 1;
    }
    assert def.values[..i] == def.values;
    value := if best.Some? then Some(def.values[best.value].value) else None;
  }

  function ClosestValue(def: ParamDef, rank: nat, o: Oracles): Option<string> {
    var c := Closest(def.values, rank, o);
    if c.Some? then Some(def.values[c.value].value) else None
  }

  function ApplyReasoning(result: seq<Param>, defs: seq<ParamDef>, effort: string, o: Oracles): (seq<Param>, bool) {
    var rank := o.level(effort);
    if rank.None? then (result, false)
    else
      var thinking := FindDef(defs, (d: ParamDef) => ThinkingName(d.id) && IsBoolean(d));
      var graded := FindDef(defs, (d: ParamDef) => ReasoningName(d.id) && Some(d) != thinking && !IsBoolean(d));
      if thinking.Some? then
        var switched := SetParam(result, Param(thinking.value.id, BooleanValue(thinking.value, rank.value > 0)));
        if graded.Some? && rank.value > 0 && !SoftLevel(effort) && ClosestValue(graded.value, rank.value, o).Some? then
          (SetParam(switched, Param(graded.value.id, ClosestValue(graded.value, rank.value, o).value)), true)
        else (switched, true)
      else
        var target := if graded.Some? then graded else FindDef(defs, (d: ParamDef) => ReasoningName(d.id));
        if target.None? then (result, false)
        else if IsBoolean(target.value) then
          (SetParam(result, Param(target.value.id, BooleanValue(target.value, rank.value > 0))), true)
        else
          var value := ClosestValue(target.value, rank.value, o);
          if value.None? then (result, false) else (SetParam(result, Param(target.value.id, value.value)), true)
  }

  // ---- the whitelist of pairs --------------------------------------------------------------------------------

  predicate Pairs(v: Variant, ctxId: string, ctx: string, fastId: string, fast: string) {
    Get(v.params, ctxId) == Some(ctx) && Get(v.params, fastId) == Some(fast)
  }

  /** Some variant has both values. */
  predicate PairOccurs(variants: seq<Variant>, ctxId: string, ctx: string, fastId: string, fast: string) {
    exists v :: v in variants && Pairs(v, ctxId, ctx, fastId, fast)
  }

  /** The first in descending order of size. */
  function MaxContext(def: ParamDef, size: string -> real): string {
    var sorted := Sort(Larger(size), Values(def));
    if sorted != [] then sorted[0] else ""
  }

  predicate PairAllowed(
    variants: seq<Variant>, ctx: ParamDef, ctxVal: string, fastId: string, fastVal: string, family: Option<Family>,
    size: string -> real)
  {
    if variants != [] then PairOccurs(variants, ctx.id, ctxVal, fastId, fastVal)
    else if family.Some? && family.value.maxContextExcludesFast && fastVal == "true" then ctxVal != MaxContext(ctx, size)
    else true
  }

  /** The fast value of the first variant with this context. */
  function FirstFast(variants: seq<Variant>, ctxId: string, ctx: string, fastId: string): Option<string> {
    if variants == [] then None
    else if Get(variants[0].params, ctxId) == Some(ctx) && Get(variants[0].params, fastId).Some? then
      Get(variants[0].params, fastId)
    else FirstFast(variants[1..], ctxId, ctx, fastId)
  }

  method FindFirstFast(variants: seq<Variant>, ctxId: string, ctx: string, fastId: string) returns (value: Option<string>)
    ensures value == FirstFast(variants, ctxId, ctx, fastId)
  {
    var i := 0;
    while i < |variants|
      invariant 0 <= i <= |variants| && FirstFast(variants[i..], ctxId, ctx, fastId) == FirstFast(variants, ctxId, ctx, fastId)
    {
      assert variants[i..][1..] == variants[i + 1..];
      if Get(variants[i].params, ctxId) == Some(ctx) {
        value := Get(variants[i].params, fastId);
        if value.Some? { return; }
      }
      i := i + 1;
    }
    assert variants[i..] == [];
    value := None;
  }

  lemma {:induction false} FirstFastPairs(variants: seq<Variant>, ctxId: string, ctx: string, fastId: string)
    ensures FirstFast(variants, ctxId, ctx, fastId).Some? ==>
      PairOccurs(variants, ctxId, ctx, fastId, FirstFast(variants, ctxId, ctx, fastId).value)
    ensures FirstFast(variants, ctxId, ctx, fastId).None? ==> forall fast :: !PairOccurs(variants, ctxId, ctx, fastId, fast)
  {
    if variants != [] {
      FirstFastPairs(variants[1..], ctxId, ctx, fastId);
      assert forall v :: v in variants <==> v == variants[0] || v in variants[1..];
      if FirstFast(variants, ctxId, ctx, fastId).Some? {
        var fast := FirstFast(variants, ctxId, ctx, fastId).value;
        if !Pairs(variants[0], ctxId, ctx, fastId, fast) {
          var v :| v in variants[1..] && Pairs(v, ctxId, ctx, fastId, fast);
          assert v in variants;
        }
      } else {
        forall fast ensures !PairOccurs(variants, ctxId, ctx, fastId, fast) {
          assert !PairOccurs(variants[1..], ctxId, ctx, fastId, fast);
          assert !Pairs(variants[0], ctxId, ctx, fastId, fast);
        }
      }
    }
  }

  /** The largest context among the variants with this fast value; the first of equals. */
  function LargestContext(variants: seq<Variant>, ctxId: string, fastId: string, fast: string, size: string -> real): Option<string> {
    if variants == [] then None
    else
      var n := |variants| - 1;
      var best := LargestContext(variants[..n], ctxId, fastId, fast, size);
      var here := Get(variants[n].params, ctxId);
      if Get(variants[n].params, fastId) != Some(fast) || here.None? then best
      else if best.None? || size(here.value) > size(best.value) then here else best
  }

  method FindLargestContext(variants: seq<Variant>, ctxId: string, fastId: string, fast: string, size: string -> real)
    returns (best: Option<string>)
    ensures best == LargestContext(variants, ctxId, fastId, fast, size)
  {
    best := None;
    var i := 0;
    while i < |variants|
      invariant 0 <= i <= |variants| && best == LargestContext(variants[..i], ctxId, fastId, fast, size)
    {
      assert variants[..i + 1][..i] == variants[..i];
      if Get(variants[i].params, fastId) == Some(fast) {
        var here := Get(variants[i].params, ctxId);
        if here.Some? {
          if best.None? || size(here.value) > size(best.value) { best := here; }
        }
      }
      i := i + 1;
    }
    assert variants[..i] == variants;
  }

  lemma {:induction false} LargestContextPairs(variants: seq<Variant>, ctxId: string, fastId: string, fast: string, size: string -> real)
    ensures var best := LargestContext(variants, ctxId, fastId, fast, size);
      && (best.Some? ==> PairOccurs(variants, ctxId, best.value, fastId, fast))
      && (best.None? ==> forall ctx :: !PairOccurs(variants, ctxId, ctx, fastId, fast))
      && (best.Some? ==> forall ctx | PairOccurs(variants, ctxId, ctx, fastId, fast) :: size(ctx) <= size(best.value))
  {
    if variants != [] {
      var n := |variants| - 1;
      LargestContextPairs(variants[..n], ctxId, fastId, fast, size);
      assert forall v :: v in variants <==> v in variants[..n] || v == variants[n];
      forall ctx ensures PairOccurs(variants, ctxId, ctx, fastId, fast) <==>
        PairOccurs(variants[..n], ctxId, ctx, fastId, fast) || Pairs(variants[n], ctxId, ctx, fastId, fast)
      {
        if PairOccurs(variants[..n], ctxId, ctx, fastId, fast) {
          var v :| v in variants[..n] && Pairs(v, ctxId, ctx, fastId, fast);
          assert v in variants;
        }
      }
    }
  }
}
