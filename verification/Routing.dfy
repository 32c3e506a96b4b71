/** Model scopes of src/routing.ts: aliases, fail-closed deny rules, and the intersection of two scopes. */
module Routing {
  import opened Prelude
  import opened Text

  /** A model id no request is meant to carry: it stands for an allow list that admits nothing. */
  const NO_MODEL_SENTINEL := "\U{0000}none"

  datatype Scope = Scope(allowed: seq<string>, excluded: seq<string>)

  /** All known names of a requested model, normalized; `confirmed` says the list is complete. */
  datatype Identity = Identity(requested: string, names: seq<string>, confirmed: bool)

  predicate Blank(s: string) { Trim(s) == "" }

  // ---- lists of names --------------------------------------------------------------------------------

  predicate HasKey(list: seq<string>, key: string) {
    exists e :: e in list && Normalize(e) == key
  }

  /** Trimmed, without blanks, the first of each spelling kept. */
  function Deduped(values: seq<string>, kept: seq<string>): seq<string>
    decreases |values|
  {
    if values == [] then kept
    else
      var trimmed := Trim(values[0]);
      if trimmed == "" || HasKey(kept, Lower(trimmed)) then Deduped(values[1..], kept)
      else Deduped(values[1..], kept + [trimmed])
  }

  function KeysOf(list: seq<string>): set<string> { set e | e in list :: Normalize(e) }

  lemma HasKeyIsListed(list: seq<string>, key: string)
    ensures HasKey(list, key) <==> key in KeysOf(list)
  {
  }

  lemma KeysSnoc(kept: seq<string>, trimmed: string)
    requires Trimmed(trimmed)
    ensures KeysOf(kept + [trimmed]) == KeysOf(kept) + {Lower(trimmed)}
  {
    TrimOfTrimmed(trimmed);
    assert Normalize(trimmed) == Lower(trimmed) && trimmed in kept + [trimmed];
    forall key ensures key in KeysOf(kept + [trimmed]) <==> key in KeysOf(kept) || key == Lower(trimmed) {
      if key in KeysOf(kept) {
        var e :| e in kept && Normalize(e) == key;
        assert e in kept + [trimmed];
      }
    }
  }

  lemma DedupedStep(values: seq<string>, i: nat, kept: seq<string>)
    requires i < |values|
    ensures Deduped(values[i..], kept) ==
      var trimmed := Trim(values[i]);
      Deduped(values[i + 1..], if trimmed == "" || HasKey(kept, Lower(trimmed)) then kept else kept + [trimmed])
  {
    assert values[i..][1..] == values[i + 1..];
  }

  /** `dedupe`: one pass with a set of the keys seen. */
  method Dedupe(values: seq<string>) returns (result: seq<string>)
    ensures result == Deduped(values, [])
  {
    result := [];
    var seen: set<string> := {};
    var i := 0;
    while i < |values|
      invariant 0 <= i <= |values|
      invariant Deduped(values[i..], result) == Deduped(values, [])
      invariant seen == KeysOf(result)
    {
      DedupedStep(values, i, result);
      var trimmed := Trim(values[i]);
      var _, _ := TrimSplits(values[i]);
      HasKeyIsListed(result, Lower(trimmed));
      if trimmed != "" && Lower(trimmed) !in seen {
        KeysSnoc(result, trimmed);
        seen := seen + {Lower(trimmed)};
        result := result + [trimmed];
      }
      i := i + 1;
    }
    assert values[i..] == [];
  }

  /** Deduplication keeps exactly the keys of the non-blank entries. */
  lemma {:induction false} DedupedKeys(values: seq<string>, kept: seq<string>, key: string)
    requires key != "" && forall e | e in kept :: !Blank(e)
    ensures HasKey(Deduped(values, kept), key) <==> HasKey(values, key) || HasKey(kept, key)
    ensures forall e | e in Deduped(values, kept) :: !Blank(e)
    decreases |values|
  {
    if values != [] {
      var v := values[0];
      var trimmed := Trim(v);
      NormalizeIdempotent(v);
      var _, _ := TrimSplits(v);
      TrimOfTrimmed(trimmed);
      assert forall e :: e in values <==> e == v || e in values[1..];
      assert HasKey(values, key) <==> Normalize(v) == key || HasKey(values[1..], key);
      if trimmed == "" || HasKey(kept, Lower(trimmed)) {
        DedupedKeys(values[1..], kept, key);
      } else {
        var next := kept + [trimmed];
        assert forall e :: e in next <==> e in kept || e == trimmed;
        assert HasKey(next, key) <==> HasKey(kept, key) || Normalize(trimmed) == key;
        DedupedKeys(values[1..], next, key);
      }
    }
  }

  lemma {:induction false} DedupedEmpty(values: seq<string>, kept: seq<string>)
    requires forall e | e in kept :: !Blank(e)
    ensures Deduped(values, kept) == [] <==> kept == [] && forall e | e in values :: Blank(e)
    ensures |Deduped(values, kept)| >= |kept|
    decreases |values|
  {
    if values != [] {
      var trimmed := Trim(values[0]);
      var _, _ := TrimSplits(values[0]);
      TrimOfTrimmed(trimmed);
      assert forall e :: e in values <==> e == values[0] || e in values[1..];
      if trimmed == "" || HasKey(kept, Lower(trimmed)) {
        if trimmed != "" { assert kept != []; }
        DedupedEmpty(values[1..], kept);
      } else {
        DedupedEmpty(values[1..], kept + [trimmed]);
        if trimmed != "" && !HasKey(kept, Lower(trimmed)) { assert values[0] in values && !Blank(values[0]); }
      }
    }
  }

  // ---- identities ---------------------------------------------------------------------------------------

  const ALIAS_GROUPS: seq<seq<string>> :=
    [["composer-2.5", "composer-latest", "composer", "composer-2-5", "composer-2.5-sdk"],
     ["composer-2.5-fast", "composer-2-5-fast"]]

  /** The built-in alias group of a normalized name; empty if it has none. */
  function StaticAliases(name: string): seq<string> {
    if name in ALIAS_GROUPS[0] then ALIAS_GROUPS[0] else if name in ALIAS_GROUPS[1] then ALIAS_GROUPS[1] else []
  }

  function AddAll(names: seq<string>, more: seq<string>): (r: seq<string>)
    ensures forall n :: n in r <==> n in names || n in more
    decreases |more|
  {
    if more == [] then names
    else
      var r := AddAll(if more[0] in names then names else names + [more[0]], more[1..]);
      assert forall n :: n in more <==> n == more[0] || n in more[1..];
      r
  }

  function AddName(names: seq<string>, value: string): seq<string> {
    var name := Normalize(value);
    if name == "" then names else AddAll(AddAll(names, [name]), StaticAliases(name))
  }

  function AddNames(names: seq<string>, values: seq<string>): seq<string>
    decreases |values|
  {
    if values == [] then names else AddNames(AddName(names, values[0]), values[1..])
  }

  /** The identity of a request, its catalogue entry ("" if it has none) and the aliases of that. */
  function IdentityFor(requested: string, entryId: string, aliases: seq<string>, confirmed: bool): Identity {
    Identity(Normalize(requested), AddNames([], [requested, entryId] + aliases), confirmed)
  }

  /** `modelIdentity`: the request, the catalogue entry and its aliases, each with its static group. */
  method ModelIdentity(requested: string, entryId: string, aliases: seq<string>, confirmed: bool) returns (id: Identity)
    ensures id == IdentityFor(requested, entryId, aliases, confirmed) && "" !in id.names
    ensures forall n :: n in id.names <==> exists v :: v in [requested, entryId] + aliases && Named(v, n)
  {
    var values := [requested, entryId] + aliases;
    var names: seq<string> := [];
    var i := 0;
    while i < |values|
      invariant 0 <= i <= |values| && AddNames(names, values[i..]) == AddNames([], values)
    {
      assert values[i..][1..] == values[i + 1..];
      names := AddName(names, values[i]);
      i := i + 1;
    }
    assert values[i..] == [];
    id := Identity(Normalize(requested), names, confirmed);
    AddNamesListed([], values);
  }

  lemma StaticAliasesNonEmpty(name: string)
    ensures "" !in StaticAliases(name)
  {
  }

  lemma AddNameListed(names: seq<string>, value: string, n: string)
    ensures n in AddName(names, value) <==> n in names || Named(value, n)
    ensures Named(value, n) ==> n != ""
  {
    NormalizeIdempotent(value);
    StaticAliasesNonEmpty(Normalize(value));
  }

  /** The names are the non-blank normalized values and their alias groups; none is empty. */
  lemma {:induction false} AddNamesListed(names: seq<string>, values: seq<string>)
    requires "" !in names
    ensures "" !in AddNames(names, values)
    ensures forall n :: n in AddNames(names, values) <==> n in names || exists v :: v in values && Named(v, n)
    decreases |values|
  {
    if values != [] {
      var next := AddName(names, values[0]);
      AddNameListed(names, values[0], "");
      AddNamesListed(next, values[1..]);
      forall n ensures n in AddNames(names, values) <==> n in names || exists v :: v in values && Named(v, n) {
        AddNameListed(names, values[0], n);
        ExistsHead(values, n);
      }
    }
  }

  lemma ExistsHead(values: seq<string>, n: string)
    requires values != []
    ensures (exists v :: v in values && Named(v, n)) <==> Named(values[0], n) || exists v :: v in values[1..] && Named(v, n)
  {
    assert forall v :: v in values <==> v == values[0] || v in values[1..];
  }

  predicate Named(value: string, name: string) {
    !Blank(value) && (name == Normalize(value) || name in StaticAliases(Normalize(value)))
  }

  // ---- scopes ---------------------------------------------------------------------------------------------

  function Allowed(scope: Option<Scope>): seq<string> { if scope.Some? then scope.value.allowed else [] }

  function Excluded(scope: Option<Scope>): seq<string> { if scope.Some? then scope.value.excluded else [] }

  /** One of the model's names is on the list. */
  predicate Names(id: Identity, list: seq<string>) {
    exists n :: n in id.names && n != "" && HasKey(list, n)
  }

  predicate ListsName(id: Identity, list: seq<string>) {
    exists n :: n in id.names && HasKey(list, n)
  }

  /** `identityAllowed`. */
  predicate IdentityAllowed(id: Identity, scope: Option<Scope>) {
    !Names(id, Excluded(scope)) && (Allowed(scope) == [] || ListsName(id, Allowed(scope)))
  }

  /** `denyRuleUnverifiable`: an incomplete identity cannot be checked against a deny list. */
  predicate DenyRuleUnverifiable(id: Identity, scope: Option<Scope>) {
    !id.confirmed && Excluded(scope) != []
  }

  /** What admission tests: on the scope's lists, and not with a deny rule left unevaluated. */
  predicate Admits(id: Identity, scope: Option<Scope>) {
    IdentityAllowed(id, scope) && !DenyRuleUnverifiable(id, scope)
  }

  function KeepShared(left: seq<string>, right: seq<string>, id: Identity): seq<string> {
    if left == [] then []
    else
      var key := Normalize(left[0]);
      var kept := HasKey(right, key) || (ListsName(id, right) && key in id.names);
      (if kept then [left[0]] else []) + KeepShared(left[1..], right, id)
  }

  /** `intersectScopes` for a known identity. */
  function IntersectScopes(a: Option<Scope>, b: Option<Scope>, id: Identity): Scope {
    var excluded := Deduped(Excluded(a) + Excluded(b), []);
    var left := Deduped(Allowed(a), []);
    var right := Deduped(Allowed(b), []);
    if left == [] then Scope(right, excluded)
    else if right == [] then Scope(left, excluded)
    else
      var shared := KeepShared(left, right, id);
      Scope(if shared == [] then [NO_MODEL_SENTINEL] else shared, excluded)
  }

  // ---- the intersection law ----------------------------------------------------------------------------------

  predicate BlankOnly(list: seq<string>) {
    list != [] && forall e | e in list :: Blank(e)
  }

  predicate HasEntry(list: seq<string>) {
    exists e :: e in list && !Blank(e)
  }

  predicate ShareKey(a: seq<string>, b: seq<string>) {
    exists e :: e in a && !Blank(e) && HasKey(b, Normalize(e))
  }

  /**
   When the intersection admits exactly what both sides admit.  Two families fail: an allow list of
   blanks only, which admits nothing by itself but counts as absent in the intersection, and a model
   named like the sentinel, which the empty intersection of two allow lists lets in.
   */
  predicate LawApplies(a: Option<Scope>, b: Option<Scope>, id: Identity) {
    var x, y := Allowed(a), Allowed(b);
    || Names(id, Excluded(a)) || Names(id, Excluded(b))
    || (if BlankOnly(x) || BlankOnly(y)
        then (HasEntry(x) && !Names(id, x)) || (HasEntry(y) && !Names(id, y))
        else x == [] || y == [] || NO_MODEL_SENTINEL !in id.names || ShareKey(x, y) || (Names(id, x) && Names(id, y)))
  }

  lemma DedupedNames(id: Identity, list: seq<string>)
    requires "" !in id.names
    ensures ListsName(id, Deduped(list, [])) <==> Names(id, list)
    ensures ListsName(id, list) <==> Names(id, list)
  {
    forall n | n in id.names ensures HasKey(Deduped(list, []), n) <==> HasKey(list, n) {
      DedupedKeys(list, [], n);
    }
  }

  lemma ExcludedUnion(id: Identity, x: seq<string>, y: seq<string>)
    requires "" !in id.names
    ensures Names(id, Deduped(x + y, [])) <==> Names(id, x) || Names(id, y)
  {
    forall n | n in id.names ensures HasKey(Deduped(x + y, []), n) <==> HasKey(x, n) || HasKey(y, n) {
      DedupedKeys(x + y, [], n);
      assert forall e :: e in x + y <==> e in x || e in y;
    }
  }

  lemma {:induction false} KeepSharedListed(left: seq<string>, right: seq<string>, id: Identity)
    ensures forall e :: e in KeepShared(left, right, id) <==>
      e in left && (HasKey(right, Normalize(e)) || (ListsName(id, right) && Normalize(e) in id.names))
  {
    if left != [] {
      KeepSharedListed(left[1..], right, id);
      assert forall e :: e in left <==> e == left[0] || e in left[1..];
    }
  }

  /** Of two allow lists, the shared part names the model exactly when both do. */
  lemma SharedNames(left: seq<string>, right: seq<string>, id: Identity)
    ensures ListsName(id, KeepShared(left, right, id)) <==> ListsName(id, left) && ListsName(id, right)
  {
    var shared := KeepShared(left, right, id);
    KeepSharedListed(left, right, id);
    if ListsName(id, shared) {
      var n :| n in id.names && HasKey(shared, n);
      var e :| e in shared && Normalize(e) == n;
      assert HasKey(left, n);
      assert HasKey(right, n) || ListsName(id, right);
    }
    if ListsName(id, left) && ListsName(id, right) {
      var n :| n in id.names && HasKey(left, n);
      var e :| e in left && Normalize(e) == n;
      assert e in shared && HasKey(shared, n);
    }
  }

  lemma SharedKeys(x: seq<string>, y: seq<string>, id: Identity)
    requires "" !in id.names
    ensures
      var shared := KeepShared(Deduped(x, []), Deduped(y, []), id);
      shared != [] <==> ShareKey(x, y) || (Names(id, x) && Names(id, y))
  {
    var left, right := Deduped(x, []), Deduped(y, []);
    var shared := KeepShared(left, right, id);
    KeepSharedListed(left, right, id);
    SharedNames(left, right, id);
    DedupedNames(id, x);
    DedupedNames(id, y);
    DedupedEmpty(x, []);
    if shared != [] {
      var e := shared[0];
      assert e in left;
      DedupedKeys(x, [], "x");
      NormalizeIdempotent(e);
      if HasKey(right, Normalize(e)) {
        DedupedKeys(x, [], Normalize(e));
        DedupedKeys(y, [], Normalize(e));
        assert HasKey(left, Normalize(e));
        var e0 :| e0 in x && Normalize(e0) == Normalize(e);
        NormalizeIdempotent(e0);
        assert ShareKey(x, y);
      } else {
        assert HasKey(left, Normalize(e));
        assert ListsName(id, left);
      }
    }
    if ShareKey(x, y) {
      var e :| e in x && !Blank(e) && HasKey(y, Normalize(e));
      NormalizeIdempotent(e);
      assert HasKey(x, Normalize(e));
      DedupedKeys(x, [], Normalize(e));
      DedupedKeys(y, [], Normalize(e));
      var f :| f in left && Normalize(f) == Normalize(e);
      assert f in shared;
    }
    if Names(id, x) && Names(id, y) {
      var n :| n in id.names && HasKey(shared, n);
    }
  }

  lemma SentinelIsItsKey()
    ensures Normalize(NO_MODEL_SENTINEL) == NO_MODEL_SENTINEL
  {
    TrimOfTrimmed(NO_MODEL_SENTINEL);
    var low := Lower(NO_MODEL_SENTINEL);
    assert low == NO_MODEL_SENTINEL;
  }

  /** What the allow list of the intersection lets in. */
  predicate AllowedSide(id: Identity, allowed: seq<string>) { allowed == [] || ListsName(id, allowed) }

  lemma AllowedSides(x: seq<string>, id: Identity)
    requires "" !in id.names
    ensures AllowedSide(id, x) <==> x == [] || Names(id, x)
    ensures Deduped(x, []) == [] <==> x == [] || BlankOnly(x)
    ensures BlankOnly(x) ==> !Names(id, x) && !HasEntry(x)
    ensures x != [] && !BlankOnly(x) ==> HasEntry(x)
    ensures AllowedSide(id, Deduped(x, [])) <==> x == [] || BlankOnly(x) || Names(id, x)
  {
    DedupedNames(id, x);
    DedupedEmpty(x, []);
  }

  /** With entries on both sides. */
  lemma SharedSide(x: seq<string>, y: seq<string>, id: Identity)
    requires "" !in id.names && HasEntry(x) && HasEntry(y)
    ensures
      var shared := KeepShared(Deduped(x, []), Deduped(y, []), id);
      AllowedSide(id, if shared == [] then [NO_MODEL_SENTINEL] else shared) <==>
        if ShareKey(x, y) || (Names(id, x) && Names(id, y)) then Names(id, x) && Names(id, y)
        else NO_MODEL_SENTINEL in id.names
  {
    SharedKeys(x, y, id);
    SharedNames(Deduped(x, []), Deduped(y, []), id);
    DedupedNames(id, x);
    DedupedNames(id, y);
    SentinelIsItsKey();
    assert HasKey([NO_MODEL_SENTINEL], NO_MODEL_SENTINEL);
    assert ListsName(id, [NO_MODEL_SENTINEL]) <==> NO_MODEL_SENTINEL in id.names;
  }

  /** Exactly when `intersectScopes` is an intersection. */
  lemma IntersectionLaw(a: Option<Scope>, b: Option<Scope>, id: Identity)
    requires "" !in id.names
    ensures
      (IdentityAllowed(id, Some(IntersectScopes(a, b, id))) <==> IdentityAllowed(id, a) && IdentityAllowed(id, b))
      <==> LawApplies(a, b, id)
  {
    var x, y := Allowed(a), Allowed(b);
    ExcludedUnion(id, Excluded(a), Excluded(b));
    AllowedSides(x, id);
    AllowedSides(y, id);
    if HasEntry(x) && HasEntry(y) { SharedSide(x, y, id); }
  }

  lemma NotBlankOnly(list: seq<string>)
    requires forall e | e in list :: !Blank(e)
    ensures !BlankOnly(list)
  {
    if list != [] { assert list[0] in list; }
  }

  /** On lists without blank entries, and for a model not named like the sentinel, it always is. */
  lemma IntersectionIsExact(a: Option<Scope>, b: Option<Scope>, id: Identity)
    requires "" !in id.names && NO_MODEL_SENTINEL !in id.names
    requires forall e | e in Allowed(a) || e in Allowed(b) :: !Blank(e)
    ensures IdentityAllowed(id, Some(IntersectScopes(a, b, id))) <==> IdentityAllowed(id, a) && IdentityAllowed(id, b)
  {
    IntersectionLaw(a, b, id);
    NotBlankOnly(Allowed(a));
    NotBlankOnly(Allowed(b));
  }

  /** The first failing family has a member: an allow list of one blank admits nothing alone, and everything intersected. */
  lemma BlankListWidens()
    ensures
      var blank := Some(Scope([" "], []));
      var m := Identity("m", ["m"], true);
      && !IdentityAllowed(m, blank) && IdentityAllowed(m, Some(IntersectScopes(blank, None, m)))
  {
    var m := Identity("m", ["m"], true);
    var blank := Some(Scope([" "], []));
    BlankIsAllSpace(" ");
    assert BlankOnly([" "]) && !HasEntry([" "]) && !HasEntry([]);
    AllowedSides([" "], m);
    IntersectionLaw(blank, None, m);
  }

  lemma SingleNames(id: Identity, name: string, entry: string)
    requires id.names == [name] && Trimmed(entry) && Lower(entry) == entry && entry != ""
    ensures Names(id, [entry]) <==> name == entry
    ensures !BlankOnly([entry]) && HasKey([entry], entry)
  {
    TrimOfTrimmed(entry);
    assert Normalize(entry) == entry && entry in [entry];
  }

  /** And the second: two lists without a shared entry that both refuse the model let it in together, if it is named like the sentinel. */
  lemma SentinelWidens(x: seq<string>, y: seq<string>, id: Identity)
    requires "" !in id.names && NO_MODEL_SENTINEL in id.names && !Names(id, x) && !Names(id, y)
    requires HasEntry(x) && HasEntry(y) && !ShareKey(x, y)
    ensures !IdentityAllowed(id, Some(Scope(x, []))) && !IdentityAllowed(id, Some(Scope(y, [])))
    ensures IdentityAllowed(id, Some(IntersectScopes(Some(Scope(x, [])), Some(Scope(y, [])), id)))
  {
    AllowedSides(x, id);
    AllowedSides(y, id);
    SharedSide(x, y, id);
    ExcludedUnion(id, [], []);
  }

  lemma NoSharedEntry(a: string, b: string)
    requires a != b && Trimmed(a) && Trimmed(b) && Lower(a) == a && Lower(b) == b
    ensures !ShareKey([a], [b])
  {
    TrimOfTrimmed(a);
    TrimOfTrimmed(b);
  }

  lemma EntryListed(a: string)
    requires a != "" && Trimmed(a)
    ensures HasEntry([a])
  {
    TrimOfTrimmed(a);
    assert a in [a];
  }

  lemma SentinelExample()
    ensures
      var s := Identity(NO_MODEL_SENTINEL, [NO_MODEL_SENTINEL], true);
      HasEntry(["a"]) && HasEntry(["b"]) && !ShareKey(["a"], ["b"]) && !Names(s, ["a"]) && !Names(s, ["b"])
  {
    var s := Identity(NO_MODEL_SENTINEL, [NO_MODEL_SENTINEL], true);
    SingleNames(s, NO_MODEL_SENTINEL, "a");
    SingleNames(s, NO_MODEL_SENTINEL, "b");
    NoSharedEntry("a", "b");
    EntryListed("a");
    EntryListed("b");
  }

  // ---- missing aliases never open a door --------------------------------------------------------------------

  /** An admitted identity stays admitted however many more names turn up, unless it was complete. */
  lemma AdmissionSurvivesMoreNames(id: Identity, more: Identity, scope: Option<Scope>)
    requires Admits(id, scope) && !id.confirmed && (forall n | n in id.names :: n in more.names)
    ensures IdentityAllowed(more, scope)
  {
    if Allowed(scope) != [] {
      var n :| n in id.names && HasKey(Allowed(scope), n);
      assert n in more.names;
    }
    forall n | n in more.names ensures !HasKey(Excluded(scope), n) {}
  }
}
