/** The repair of illegal context and fast pairs, and the whole resolution, of src/model-params.ts. */
module ModelResolve {
  import opened Prelude
  import opened Text
  import opened Sorting
  import opened ModelIntent
  import opened ModelParams

  // ---- the repair ----------------------------------------------------------------------------------------

  /** Both parameters exist and are about to be sent. */
  predicate BothSent(result: seq<Param>, defs: seq<ParamDef>) {
    && ContextDef(defs).Some? && FastDef(defs).Some?
    && Get(result, ContextDef(defs).value.id).Some? && Get(result, FastDef(defs).value.id).Some?
  }

  /** Max Mode goes first, unless only fast was asked for. */
  predicate KeepsContext(intent: Intent) { intent.maxMode.Some? || intent.fast.None? }

  function FastFor(variants: seq<Variant>, ctxId: string, ctx: string, fastId: string, family: Option<Family>): Option<string> {
    if variants != [] then FirstFast(variants, ctxId, ctx, fastId)
    else if family.Some? && family.value.maxContextExcludesFast then Some("false") else None
  }

  /** Without variants, the second largest context, or the only one. */
  function ContextFor(variants: seq<Variant>, ctx: ParamDef, fastId: string, fast: string, size: string -> real): Option<string> {
    if variants != [] then LargestContext(variants, ctx.id, fastId, fast, size)
    else
      var sorted := Sort(Larger(size), Values(ctx));
      if |sorted| > 1 then Some(sorted[1]) else if |sorted| > 0 then Some(sorted[0]) else None
  }

  /** `resolveContextFastConflict`. */
  function Repair(
    result: seq<Param>, defs: seq<ParamDef>, variants: seq<Variant>, family: Option<Family>, intent: Intent, size: string -> real)
    : (seq<Param>, seq<Drop>)
  {
    if !BothSent(result, defs) then (result, [])
    else
      var ctx, fastId := ContextDef(defs).value, FastDef(defs).value.id;
      var ctxVal, fastVal := Get(result, ctx.id).value, Get(result, fastId).value;
      if PairAllowed(variants, ctx, ctxVal, fastId, fastVal, family, size) then (result, [])
      else if KeepsContext(intent) then
        var fixed := FastFor(variants, ctx.id, ctxVal, fastId, family);
        if fixed.Some? && fixed.value != fastVal
        then (SetParam(result, Param(fastId, fixed.value)), [ForcedFast(fastVal, fixed.value)]) else (result, [])
      else
        var fixed := ContextFor(variants, ctx, fastId, fastVal, size);
        if fixed.Some? && fixed.value != ctxVal
        then (SetParam(result, Param(ctx.id, fixed.value)), [LoweredContext(ctxVal, fixed.value)]) else (result, [])
  }

  method ResolveContextFastConflict(
    result: seq<Param>, defs: seq<ParamDef>, variants: seq<Variant>, family: Option<Family>, intent: Intent, size: string -> real)
    returns (repaired: seq<Param>, dropped: seq<Drop>)
    ensures (repaired, dropped) == Repair(result, defs, variants, family, intent, size)
  {
    repaired, dropped := result, [];
    var contextDef := ContextDef(defs);
    var fastDef := FastDef(defs);
    if contextDef.None? || fastDef.None? { return; }
    var ctx, fastId := contextDef.value, fastDef.value.id;
    if Get(result, ctx.id).None? || Get(result, fastId).None? { return; }
    var ctxVal, fastVal := Get(result, ctx.id).value, Get(result, fastId).value;
    if PairAllowed(variants, ctx, ctxVal, fastId, fastVal, family, size) { return; }
    if intent.maxMode.Some? || intent.fast.None? {
      var fixed := None;
      if variants != [] {
        fixed := FindFirstFast(variants, ctx.id, ctxVal, fastId);
      } else if family.Some? && family.value.maxContextExcludesFast {
        fixed := Some("false");
      }
      if fixed.Some? && fixed.value != fastVal {
        repaired := SetParam(result, Param(fastId, fixed.value));
        dropped := [ForcedFast(fastVal, fixed.value)];
      }
      return;
    }
    var fixed;
    if variants != [] {
      fixed := FindLargestContext(variants, ctx.id, fastId, fastVal, size);
    } else {
      var sorted := Sort(Larger(size), Values(ctx));
      fixed := if |sorted| > 1 then Some(sorted[1]) else if |sorted| > 0 then Some(sorted[0]) else None;
    }
    if fixed.Some? && fixed.value != ctxVal {
      repaired := SetParam(result, Param(ctx.id, fixed.value));
      dropped := [LoweredContext(ctxVal, fixed.value)];
    }
  }

  // ---- what the repair achieves ------------------------------------------------------------------------------

  /** Some variant pairs the value that is kept with a value of the other parameter. */
  ghost predicate HasPartner(variants: seq<Variant>, ctxId: string, ctx: string, fastId: string, fast: string, intent: Intent) {
    if KeepsContext(intent) then exists f :: PairOccurs(variants, ctxId, ctx, fastId, f)
    else exists c :: PairOccurs(variants, ctxId, c, fastId, fast)
  }

  /** What is sent of a pair after the context was kept. */
  lemma KeptContext(result: seq<Param>, variants: seq<Variant>, ctxId: string, ctx: string, fastId: string, fast: string)
    requires Get(result, ctxId) == Some(ctx) && Get(result, fastId) == Some(fast)
    requires !PairOccurs(variants, ctxId, ctx, fastId, fast)
    ensures
      var fixed := FirstFast(variants, ctxId, ctx, fastId);
      && (fixed.Some? <==> exists f :: PairOccurs(variants, ctxId, ctx, fastId, f))
      && (fixed.Some? ==>
            var sent := SetParam(result, Param(fastId, fixed.value));
            && fixed.value != fast && Get(sent, ctxId) == Some(ctx) && Get(sent, fastId) == fixed
            && PairOccurs(variants, ctxId, ctx, fastId, fixed.value))
  {
    FirstFastPairs(variants, ctxId, ctx, fastId);
    var fixed := FirstFast(variants, ctxId, ctx, fastId);
    if fixed.Some? {
      GetSet(result, Param(fastId, fixed.value), ctxId);
      GetSet(result, Param(fastId, fixed.value), fastId);
    }
  }

  lemma KeptFast(
    result: seq<Param>, variants: seq<Variant>, ctxId: string, ctx: string, fastId: string, fast: string, size: string -> real)
    requires Get(result, ctxId) == Some(ctx) && Get(result, fastId) == Some(fast)
    requires !PairOccurs(variants, ctxId, ctx, fastId, fast)
    ensures
      var fixed := LargestContext(variants, ctxId, fastId, fast, size);
      && (fixed.Some? <==> exists c :: PairOccurs(variants, ctxId, c, fastId, fast))
      && (fixed.Some? ==>
            var sent := SetParam(result, Param(ctxId, fixed.value));
            && fixed.value != ctx && Get(sent, ctxId) == fixed && Get(sent, fastId) == Some(fast)
            && PairOccurs(variants, ctxId, fixed.value, fastId, fast))
  {
    LargestContextPairs(variants, ctxId, fastId, fast, size);
    var fixed := LargestContext(variants, ctxId, fastId, fast, size);
    if fixed.Some? {
      GetSet(result, Param(ctxId, fixed.value), ctxId);
      GetSet(result, Param(ctxId, fixed.value), fastId);
    }
  }

  /** The pair that is sent occurs in some variant exactly if the kept value has a partner at all. */
  lemma RepairedPairOccurs(
    result: seq<Param>, defs: seq<ParamDef>, variants: seq<Variant>, family: Option<Family>, intent: Intent, size: string -> real)
    requires BothSent(result, defs) && variants != []
    ensures
      var repaired := Repair(result, defs, variants, family, intent, size).0;
      var ctxId, fastId := ContextDef(defs).value.id, FastDef(defs).value.id;
      && Get(repaired, ctxId).Some? && Get(repaired, fastId).Some?
      && (PairOccurs(variants, ctxId, Get(repaired, ctxId).value, fastId, Get(repaired, fastId).value)
          <==> HasPartner(variants, ctxId, Get(result, ctxId).value, fastId, Get(result, fastId).value, intent))
  {
    var ctxId, fastId := ContextDef(defs).value.id, FastDef(defs).value.id;
    var ctxVal, fastVal := Get(result, ctxId).value, Get(result, fastId).value;
    if !PairOccurs(variants, ctxId, ctxVal, fastId, fastVal) {
      if KeepsContext(intent) {
        KeptContext(result, variants, ctxId, ctxVal, fastId, fastVal);
      } else {
        KeptFast(result, variants, ctxId, ctxVal, fastId, fastVal, size);
      }
    }
  }

  /** A parameter that is both context and fast pairs each value with itself only. */
  lemma SameParameter(variants: seq<Variant>, id: string, a: string, b: string)
    ensures PairOccurs(variants, id, a, id, b) ==> a == b
  {
  }

  /** The parameter that gives way. */
  function GivesWay(defs: seq<ParamDef>, intent: Intent): string
    requires ContextDef(defs).Some? && FastDef(defs).Some?
  {
    if KeepsContext(intent) then FastDef(defs).value.id else ContextDef(defs).value.id
  }

  lemma VariantRepairKeepsTheRest(
    result: seq<Param>, defs: seq<ParamDef>, variants: seq<Variant>, family: Option<Family>, intent: Intent, size: string -> real,
    id: string)
    requires BothSent(result, defs) && variants != []
    requires id != GivesWay(defs, intent) || FastDef(defs).value.id == ContextDef(defs).value.id
    ensures Get(Repair(result, defs, variants, family, intent, size).0, id) == Get(result, id)
    ensures Repair(result, defs, variants, family, intent, size).1 == [] <==>
      Repair(result, defs, variants, family, intent, size).0 == result
  {
    var ctx, fastId := ContextDef(defs).value, FastDef(defs).value.id;
    var ctxVal, fastVal := Get(result, ctx.id).value, Get(result, fastId).value;
    FirstFastPairs(variants, ctx.id, ctxVal, fastId);
    LargestContextPairs(variants, ctx.id, fastId, fastVal, size);
    var fast, context := FirstFast(variants, ctx.id, ctxVal, fastId), LargestContext(variants, ctx.id, fastId, fastVal, size);
    if fast.Some? {
      GetSet(result, Param(fastId, fast.value), id);
      GetSet(result, Param(fastId, fast.value), fastId);
      if ctx.id == fastId { SameParameter(variants, ctx.id, ctxVal, fast.value); }
    }
    if context.Some? {
      GetSet(result, Param(ctx.id, context.value), id);
      GetSet(result, Param(ctx.id, context.value), ctx.id);
      if ctx.id == fastId { SameParameter(variants, ctx.id, context.value, fastVal); }
    }
  }

  lemma FamilyRepairKeepsTheRest(
    result: seq<Param>, defs: seq<ParamDef>, family: Option<Family>, intent: Intent, size: string -> real, id: string)
    requires BothSent(result, defs) && id != GivesWay(defs, intent)
    ensures Get(Repair(result, defs, [], family, intent, size).0, id) == Get(result, id)
    ensures Repair(result, defs, [], family, intent, size).1 == [] <==> Repair(result, defs, [], family, intent, size).0 == result
  {
    var ctx, fastId := ContextDef(defs).value, FastDef(defs).value.id;
    var fast := FastFor([], ctx.id, Get(result, ctx.id).value, fastId, family);
    var context := ContextFor([], ctx, fastId, Get(result, fastId).value, size);
    if fast.Some? {
      GetSet(result, Param(fastId, fast.value), id);
      GetSet(result, Param(fastId, fast.value), fastId);
    }
    if context.Some? {
      GetSet(result, Param(ctx.id, context.value), id);
      GetSet(result, Param(ctx.id, context.value), ctx.id);
    }
  }

  /** Only the value that gives way is changed, and the change is logged. */
  lemma RepairKeepsTheRest(
    result: seq<Param>, defs: seq<ParamDef>, variants: seq<Variant>, family: Option<Family>, intent: Intent, size: string -> real,
    id: string)
    requires BothSent(result, defs)
    requires id != GivesWay(defs, intent) || (variants != [] && FastDef(defs).value.id == ContextDef(defs).value.id)
    ensures Get(Repair(result, defs, variants, family, intent, size).0, id) == Get(result, id)
    ensures Repair(result, defs, variants, family, intent, size).1 == [] <==>
      Repair(result, defs, variants, family, intent, size).0 == result
  {
    if variants != [] {
      VariantRepairKeepsTheRest(result, defs, variants, family, intent, size, id);
    } else {
      FamilyRepairKeepsTheRest(result, defs, family, intent, size, id);
    }
  }

  /** Without variants: one parameter is both context and fast, and its only legal top value is what the family forbids. */
  predicate ExcludesItself(
    result: seq<Param>, defs: seq<ParamDef>, variants: seq<Variant>, family: Option<Family>, size: string -> real)
    requires BothSent(result, defs)
  {
    && variants == [] && family.Some? && family.value.maxContextExcludesFast
    && ContextDef(defs).value.id == FastDef(defs).value.id
    && Get(result, ContextDef(defs).value.id).value == "true" == MaxContext(ContextDef(defs).value, size)
  }

  /** An explicitly requested Max Mode context is never lowered by the repair, unless the context parameter is also the fast one. */
  lemma MaxModeContextStays(
    result: seq<Param>, defs: seq<ParamDef>, variants: seq<Variant>, family: Option<Family>, intent: Intent, size: string -> real)
    requires BothSent(result, defs) && intent.maxMode.Some?
    ensures Get(Repair(result, defs, variants, family, intent, size).0, ContextDef(defs).value.id)
        == Get(result, ContextDef(defs).value.id)
      <==> !ExcludesItself(result, defs, variants, family, size)
  {
    var ctxId, fastId := ContextDef(defs).value.id, FastDef(defs).value.id;
    if variants != [] || ctxId != fastId {
      RepairKeepsTheRest(result, defs, variants, family, intent, size, ctxId);
    } else {
      GetSet(result, Param(fastId, "false"), ctxId);
    }
  }

  /** If only fast was asked for and the pair had to change, the context is the largest that goes with it. */
  lemma ContextIsLargestCompatible(
    result: seq<Param>, defs: seq<ParamDef>, variants: seq<Variant>, family: Option<Family>, intent: Intent, size: string -> real,
    other: string)
    requires BothSent(result, defs) && variants != [] && !KeepsContext(intent)
    requires Repair(result, defs, variants, family, intent, size).0 != result
    requires PairOccurs(
      variants, ContextDef(defs).value.id, other, FastDef(defs).value.id, Get(result, FastDef(defs).value.id).value)
    ensures Get(Repair(result, defs, variants, family, intent, size).0, ContextDef(defs).value.id).Some?
    ensures size(other) <= size(Get(Repair(result, defs, variants, family, intent, size).0, ContextDef(defs).value.id).value)
  {
    var ctx, fastId := ContextDef(defs).value, FastDef(defs).value.id;
    var fastVal := Get(result, fastId).value;
    LargestContextPairs(variants, ctx.id, fastId, fastVal, size);
    var context := LargestContext(variants, ctx.id, fastId, fastVal, size);
    GetSet(result, Param(ctx.id, context.value), ctx.id);
  }

  /** Without variants and only fast asked for, the repair leaves the top context exactly if the second one differs from it. */
  lemma FamilyRepair(
    result: seq<Param>, defs: seq<ParamDef>, family: Family, intent: Intent, size: string -> real)
    requires BothSent(result, defs) && !KeepsContext(intent) && family.maxContextExcludesFast
    requires ContextDef(defs).value.id != FastDef(defs).value.id && Get(result, FastDef(defs).value.id) == Some("true")
    requires Get(result, ContextDef(defs).value.id) == Some(MaxContext(ContextDef(defs).value, size))
    ensures
      var sorted := Sort(Larger(size), Values(ContextDef(defs).value));
      Get(Repair(result, defs, [], Some(family), intent, size).0, ContextDef(defs).value.id)
        != Some(MaxContext(ContextDef(defs).value, size))
      <==> |sorted| > 1 && sorted[1] != sorted[0]
  {
    var ctx := ContextDef(defs).value;
    var fixed := ContextFor([], ctx, FastDef(defs).value.id, "true", size);
    if fixed.Some? { GetSet(result, Param(ctx.id, fixed.value), ctx.id); }
  }

  // ---- the whole resolution -----------------------------------------------------------------------------------

  predicate HasSemantic(intent: Intent) { intent.reasoningEffort.Some? || intent.maxMode.Some? || intent.fast.Some? }

  function CatalogDefs(catalog: Option<Catalog>): seq<ParamDef> { if catalog.Some? then catalog.value.parameters else [] }

  function CatalogVariants(catalog: Option<Catalog>): seq<Variant> { if catalog.Some? then catalog.value.variants else [] }

  /** The family stands in where the catalogue has no definitions. */
  function UsedFamily(catalog: Option<Catalog>, intent: Intent, family: Option<Family>): Option<Family> {
    if CatalogDefs(catalog) == [] && HasSemantic(intent) then family else None
  }

  function UsedDefs(catalog: Option<Catalog>, intent: Intent, family: Option<Family>): seq<ParamDef> {
    if CatalogDefs(catalog) == [] && HasSemantic(intent) then (if family.Some? then family.value.defs else [])
    else CatalogDefs(catalog)
  }

  function DefaultParams(variants: seq<Variant>): seq<Param> {
    if variants == [] then [] else if variants[0].isDefault then variants[0].params else DefaultParams(variants[1..])
  }

  /** The default variant without the dimensions nobody spoke about. */
  predicate Copied(p: Param, intent: Intent) {
    !(intent.fast.None? && FastName(p.id)) && !(intent.maxMode.None? && MaxModeName(p.id))
  }

  function Baseline(params: seq<Param>, intent: Intent): seq<Param> {
    if params == [] then []
    else
      var n := |params| - 1;
      if Copied(params[n], intent) then SetParam(Baseline(params[..n], intent), params[n]) else Baseline(params[..n], intent)
  }

  method CopyBaseline(params: seq<Param>, intent: Intent) returns (result: seq<Param>)
    ensures result == Baseline(params, intent)
  {
    result := [];
    var i := 0;
    while i < |params|
      invariant 0 <= i <= |params| && result == Baseline(params[..i], intent)
    {
      assert params[..i + 1][..i] == params[..i];
      if !(intent.fast.None? && FastName(params[i].id)) && !(intent.maxMode.None? && MaxModeName(params[i].id)) {
        result := SetParam(result, params[i]);
      }
      i := i + 1;
    }
    assert params[..i] == params;
  }

  function WithReasoning(ps: seq<Param>, defs: seq<ParamDef>, intent: Intent, o: Oracles): (seq<Param>, seq<Drop>) {
    if intent.reasoningEffort.None? then (ps, [])
    else
      var (next, applied) := ApplyReasoning(ps, defs, intent.reasoningEffort.value, o);
      (next, if applied then [] else [DroppedReasoning])
  }

  /** Switching off what does not exist loses nothing. */
  function WithMaxMode(ps: seq<Param>, defs: seq<ParamDef>, intent: Intent, o: Oracles): (seq<Param>, seq<Drop>) {
    if intent.maxMode.None? then (ps, [])
    else
      var (next, applied) := ApplyMaxMode(ps, defs, intent.maxMode.value, o.size);
      (next, if !applied && intent.maxMode.value then [DroppedMaxMode] else [])
  }

  function WithFast(ps: seq<Param>, defs: seq<ParamDef>, intent: Intent): (seq<Param>, seq<Drop>) {
    if intent.fast.None? then (ps, [])
    else
      var (next, applied) := ApplyFast(ps, defs, intent.fast.value);
      (next, if !applied && intent.fast.value then [DroppedFast] else [])
  }

  /** After the three intents, before the repair. */
  function Asked(base: seq<Param>, defs: seq<ParamDef>, intent: Intent, o: Oracles): (seq<Param>, seq<Drop>) {
    var (a, x) := WithReasoning(base, defs, intent, o);
    var (b, y) := WithMaxMode(a, defs, intent, o);
    var (c, z) := WithFast(b, defs, intent);
    (c, x + y + z)
  }

  method ApplyIntents(base: seq<Param>, defs: seq<ParamDef>, intent: Intent, o: Oracles)
    returns (result: seq<Param>, dropped: seq<Drop>)
    ensures result == Asked(base, defs, intent, o).0 && dropped == Asked(base, defs, intent, o).1
  {
    result, dropped := base, [];
    if intent.reasoningEffort.Some? {
      var (next, applied) := ApplyReasoning(result, defs, intent.reasoningEffort.value, o);
      result := next;
      if !applied { dropped := dropped + [DroppedReasoning]; }
    }
    assert result == WithReasoning(base, defs, intent, o).0 && dropped == WithReasoning(base, defs, intent, o).1;
    ghost var (a, x) := (result, dropped);
    if intent.maxMode.Some? {
      var (next, applied) := ApplyMaxMode(result, defs, intent.maxMode.value, o.size);
      result := next;
      if !applied && intent.maxMode.value { dropped := dropped + [DroppedMaxMode]; }
    }
    assert result == WithMaxMode(a, defs, intent, o).0 && dropped == x + WithMaxMode(a, defs, intent, o).1;
    ghost var (b, xy) := (result, dropped);
    if intent.fast.Some? {
      var (next, applied) := ApplyFast(result, defs, intent.fast.value);
      result := next;
      if !applied && intent.fast.value { dropped := dropped + [DroppedFast]; }
    }
    assert result == WithFast(b, defs, intent).0 && dropped == xy + WithFast(b, defs, intent).1;
  }

  function Resolve(catalog: Option<Catalog>, intent: Intent, family: Option<Family>, o: Oracles): Resolved {
    if !HasSemantic(intent) && intent.params.GetOr([]) == [] then Resolved([], [], false)
    else
      var defs := UsedDefs(catalog, intent, family);
      var fam := UsedFamily(catalog, intent, family);
      var base := Baseline(DefaultParams(CatalogVariants(catalog)), intent);
      var (asked, lost) := Asked(base, defs, intent, o);
      var (repaired, dropped) := Repair(asked, defs, CatalogVariants(catalog), fam, intent, o.size);
      Resolved(
        SetAll(repaired, intent.params.GetOr([])), lost + dropped,
        CatalogDefs(catalog) == [] && HasSemantic(intent) && defs != [])
  }

  /** Explicit parameters win over everything derived. */
  lemma ExplicitParamsWin(catalog: Option<Catalog>, intent: Intent, family: Option<Family>, o: Oracles, id: string)
    requires LastValue(intent.params.GetOr([]), id).Some?
    ensures Get(Resolve(catalog, intent, family, o).params, id) == LastValue(intent.params.GetOr([]), id)
  {
    var defs := UsedDefs(catalog, intent, family);
    var base := Baseline(DefaultParams(CatalogVariants(catalog)), intent);
    var repaired := Repair(
      Asked(base, defs, intent, o).0, defs, CatalogVariants(catalog), UsedFamily(catalog, intent, family), intent, o.size).0;
    LastWins(repaired, intent.params.GetOr([]), id);
  }

  /** What would be sent before the repair. */
  function BeforeRepair(catalog: Option<Catalog>, intent: Intent, family: Option<Family>, o: Oracles): seq<Param> {
    Asked(Baseline(DefaultParams(CatalogVariants(catalog)), intent), UsedDefs(catalog, intent, family), intent, o).0
  }

  /** Variants, an intent but no explicit parameters, and a context and a fast value to be sent. */
  predicate PairWasRepaired(catalog: Option<Catalog>, intent: Intent, family: Option<Family>, o: Oracles) {
    && HasSemantic(intent) && intent.params.GetOr([]) == [] && CatalogVariants(catalog) != []
    && BothSent(BeforeRepair(catalog, intent, family, o), UsedDefs(catalog, intent, family))
  }

  /** Both are sent, and they occur together in some variant exactly if the kept one has a partner at all. */
  ghost predicate SendsLegalPair(catalog: Option<Catalog>, intent: Intent, family: Option<Family>, o: Oracles, sent: seq<Param>)
    requires PairWasRepaired(catalog, intent, family, o)
  {
    var defs, variants := UsedDefs(catalog, intent, family), CatalogVariants(catalog);
    var ctxId, fastId := ContextDef(defs).value.id, FastDef(defs).value.id;
    var before := BeforeRepair(catalog, intent, family, o);
    && Get(sent, ctxId).Some? && Get(sent, fastId).Some?
    && (PairOccurs(variants, ctxId, Get(sent, ctxId).value, fastId, Get(sent, fastId).value)
        <==> HasPartner(variants, ctxId, Get(before, ctxId).value, fastId, Get(before, fastId).value, intent))
  }

  /** With variants and no explicit parameters, the pair that is sent is legal. */
  lemma SentPairOccurs(catalog: Catalog, intent: Intent, family: Option<Family>, o: Oracles)
    requires PairWasRepaired(Some(catalog), intent, family, o)
    ensures SendsLegalPair(Some(catalog), intent, family, o, Resolve(Some(catalog), intent, family, o).params)
  {
    RepairedPairOccurs(
      BeforeRepair(Some(catalog), intent, family, o), UsedDefs(Some(catalog), intent, family), catalog.variants,
      UsedFamily(Some(catalog), intent, family), intent, o.size);
  }

  lemma ResolutionHolds(catalog: Option<Catalog>, intent: Intent, family: Option<Family>, o: Oracles)
    ensures forall id | LastValue(intent.params.GetOr([]), id).Some? ::
      Get(Resolve(catalog, intent, family, o).params, id) == LastValue(intent.params.GetOr([]), id)
    ensures PairWasRepaired(catalog, intent, family, o) ==>
      SendsLegalPair(catalog, intent, family, o, Resolve(catalog, intent, family, o).params)
  {
    forall id | LastValue(intent.params.GetOr([]), id).Some?
      ensures Get(Resolve(catalog, intent, family, o).params, id) == LastValue(intent.params.GetOr([]), id)
    {
      ExplicitParamsWin(catalog, intent, family, o, id);
    }
    if PairWasRepaired(catalog, intent, family, o) { SentPairOccurs(catalog.value, intent, family, o); }
  }

  /** `resolveModelParams`: explicit parameters win, and a context and a fast value are only sent together if some variant has them. */
  method ResolveModelParams(catalog: Option<Catalog>, intent: Intent, family: Option<Family>, o: Oracles) returns (r: Resolved)
    ensures r == Resolve(catalog, intent, family, o)
    ensures forall id | LastValue(intent.params.GetOr([]), id).Some? ::
      Get(r.params, id) == LastValue(intent.params.GetOr([]), id)
    ensures PairWasRepaired(catalog, intent, family, o) ==> SendsLegalPair(catalog, intent, family, o, r.params)
  {
    ResolutionHolds(catalog, intent, family, o);
    var hasSemantic := intent.reasoningEffort.Some? || intent.maxMode.Some? || intent.fast.Some?;
    if !hasSemantic && intent.params.GetOr([]) == [] { return Resolved([], [], false); }
    var defs := if catalog.Some? then catalog.value.parameters else [];
    var variants := if catalog.Some? then catalog.value.variants else [];
    var fam: Option<Family> := None;
    var usedFallback := false;
    if defs == [] && hasSemantic {
      fam := family;
      defs := if family.Some? then family.value.defs else [];
      usedFallback := defs != [];
    }
    var base := CopyBaseline(DefaultParams(variants), intent);
    var result, lost := ApplyIntents(base, defs, intent, o);
    var dropped;
    result, dropped := ResolveContextFastConflict(result, defs, variants, fam, intent, o.size);
    result := SetParams(result, intent.params.GetOr([]));
    r := Resolved(result, lost + dropped, usedFallback);
  }

  /** The fast intent leaves other parameters alone. */
  lemma FastLeaves(ps: seq<Param>, defs: seq<ParamDef>, intent: Intent, id: string)
    requires FastDef(defs).Some? ==> FastDef(defs).value.id != id
    ensures Get(WithFast(ps, defs, intent).0, id) == Get(ps, id)
  {
    if intent.fast.Some? && FastDef(defs).Some? {
      GetSet(ps, Param(FastDef(defs).value.id, BooleanValue(FastDef(defs).value, intent.fast.value)), id);
    }
  }

  lemma MaxModeAsked(base: seq<Param>, defs: seq<ParamDef>, intent: Intent, o: Oracles)
    requires intent.maxMode == Some(true) && MaxModeTarget(defs).Some?
    requires !IsBoolean(MaxModeTarget(defs).value) && Values(MaxModeTarget(defs).value) != []
    requires FastDef(defs).Some? ==> FastDef(defs).value.id != MaxModeTarget(defs).value.id
    ensures
      var sorted := Sort(Smaller(o.size), Values(MaxModeTarget(defs).value));
      sorted != [] && Get(Asked(base, defs, intent, o).0, MaxModeTarget(defs).value.id) == Some(sorted[|sorted| - 1])
  {
    var target := MaxModeTarget(defs).value;
    LastIsLargest(o.size, Values(target));
    var sorted := Sort(Smaller(o.size), Values(target));
    var a := WithReasoning(base, defs, intent, o).0;
    var b := SetParam(a, Param(target.id, sorted[|sorted| - 1]));
    assert ApplyMaxMode(a, defs, true, o.size).0 == b;
    GetSet(a, Param(target.id, sorted[|sorted| - 1]), target.id);
    FastLeaves(b, defs, intent, target.id);
  }

  /** Max Mode asked for, the context that is sent is a largest one there is. */
  lemma MaxModeSendsTheLargest(catalog: Option<Catalog>, intent: Intent, family: Option<Family>, o: Oracles, v: string)
    requires intent.maxMode == Some(true) && intent.params.GetOr([]) == []
    requires
      var defs := UsedDefs(catalog, intent, family);
      && MaxModeTarget(defs).Some? && !IsBoolean(MaxModeTarget(defs).value)
      && v in Values(MaxModeTarget(defs).value)
      && (FastDef(defs).Some? ==> FastDef(defs).value.id != MaxModeTarget(defs).value.id)
    ensures
      var target := MaxModeTarget(UsedDefs(catalog, intent, family)).value;
      var sent := Get(Resolve(catalog, intent, family, o).params, target.id);
      sent.Some? && sent.value in Values(target) && o.size(v) <= o.size(sent.value)
  {
    var defs := UsedDefs(catalog, intent, family);
    var target := MaxModeTarget(defs).value;
    var base := Baseline(DefaultParams(CatalogVariants(catalog)), intent);
    LastIsLargest(o.size, Values(target));
    MaxModeAsked(base, defs, intent, o);
    var asked := Asked(base, defs, intent, o).0;
    if BothSent(asked, defs) {
      RepairKeepsTheRest(asked, defs, CatalogVariants(catalog), UsedFamily(catalog, intent, family), intent, o.size, target.id);
    }
  }
}
