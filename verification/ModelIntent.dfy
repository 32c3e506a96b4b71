/** Merging intents: `mergeIntents` of src/model-params.ts. */
module ModelIntent {
  import opened Prelude

  datatype Param = Param(id: string, value: string)

  datatype Mode = Agent | Plan

  datatype Intent = Intent(
    reasoningEffort: Option<string>, maxMode: Option<bool>, fast: Option<bool>, params: Option<seq<Param>>, mode: Option<Mode>)

  const NO_INTENT := Intent(None, None, None, None, None)

  // ---- an insertion-ordered map of parameters ----------------------------------------------------------

  /** `Map.set`: a known id keeps its place. */
  function SetParam(ps: seq<Param>, p: Param): (r: seq<Param>)
    ensures |ps| <= |r|
  {
    if ps == [] then [p]
    else if ps[0].id == p.id then [p] + ps[1..]
    else [ps[0]] + SetParam(ps[1..], p)
  }

  function SetAll(ps: seq<Param>, more: seq<Param>): seq<Param> {
    if more == [] then ps else SetParam(SetAll(ps, more[..|more| - 1]), more[|more| - 1])
  }

  function Get(ps: seq<Param>, id: string): Option<string> {
    if ps == [] then None else if ps[0].id == id then Some(ps[0].value) else Get(ps[1..], id)
  }

  predicate DistinctIds(ps: seq<Param>) {
    forall i, j | 0 <= i < j < |ps| :: ps[i].id != ps[j].id
  }

  predicate Has(ps: seq<Param>, id: string) { exists i :: 0 <= i < |ps| && ps[i].id == id }

  lemma {:induction false} SetParamShape(ps: seq<Param>, p: Param)
    ensures forall id :: Has(SetParam(ps, p), id) <==> Has(ps, id) || id == p.id
    ensures DistinctIds(ps) ==> DistinctIds(SetParam(ps, p))
  {
    if ps == [] {
      assert SetParam(ps, p)[0] == p;
    } else {
      var rest := ps[1..];
      var r := SetParam(ps, p);
      HasHead(ps);
      HasHead(r);
      if ps[0].id == p.id {
        assert r[1..] == rest;
      } else {
        SetParamShape(rest, p);
        assert r[1..] == SetParam(rest, p);
        if DistinctIds(ps) {
          assert DistinctIds(rest);
          assert !Has(rest, ps[0].id);
          forall j | 0 <= j < |SetParam(rest, p)| ensures SetParam(rest, p)[j].id != ps[0].id {
            assert Has(SetParam(rest, p), SetParam(rest, p)[j].id);
          }
        }
      }
    }
  }

  lemma HasHead(ps: seq<Param>)
    requires ps != []
    ensures forall id :: Has(ps, id) <==> ps[0].id == id || Has(ps[1..], id)
  {
    forall id ensures Has(ps, id) <==> ps[0].id == id || Has(ps[1..], id) {
      if Has(ps, id) {
        var i :| 0 <= i < |ps| && ps[i].id == id;
        if i > 0 { assert ps[1..][i - 1].id == id; }
      }
      if Has(ps[1..], id) {
        var i :| 0 <= i < |ps[1..]| && ps[1..][i].id == id;
        assert ps[i + 1].id == id;
      }
    }
  }

  lemma {:induction false} SetAllShape(ps: seq<Param>, more: seq<Param>)
    ensures forall id :: Has(SetAll(ps, more), id) <==> Has(ps, id) || Has(more, id)
    ensures DistinctIds(ps) ==> DistinctIds(SetAll(ps, more))
  {
    if more != [] {
      var n := |more| - 1;
      SetAllShape(ps, more[..n]);
      SetParamShape(SetAll(ps, more[..n]), more[n]);
      forall id ensures Has(more, id) <==> Has(more[..n], id) || more[n].id == id {
        if Has(more, id) {
          var i :| 0 <= i < |more| && more[i].id == id;
          if i < n { assert more[..n][i].id == id; }
        }
        if Has(more[..n], id) {
          var i :| 0 <= i < n && more[..n][i].id == id;
          assert more[i].id == id;
        }
      }
    }
  }

  /** Setting changes one value. */
  lemma {:induction false} GetSet(ps: seq<Param>, p: Param, id: string)
    ensures Get(SetParam(ps, p), id) == if id == p.id then Some(p.value) else Get(ps, id)
  {
    if ps != [] && ps[0].id != p.id {
      GetSet(ps[1..], p, id);
      assert SetParam(ps, p)[1..] == SetParam(ps[1..], p);
    }
  }

  /** The value of the last setting, or what was there before. */
  function LastValue(more: seq<Param>, id: string): Option<string> {
    if more == [] then None
    else if more[|more| - 1].id == id then Some(more[|more| - 1].value)
    else LastValue(more[..|more| - 1], id)
  }

  /** The last setting of an id wins. */
  lemma {:induction false} LastWins(ps: seq<Param>, more: seq<Param>, id: string)
    ensures Get(SetAll(ps, more), id) == if LastValue(more, id).Some? then LastValue(more, id) else Get(ps, id)
  {
    if more != [] {
      var n := |more| - 1;
      LastWins(ps, more[..n], id);
      GetSet(SetAll(ps, more[..n]), more[n], id);
    }
  }

  // ---- setting what was merged before -------------------------------------------------------------------

  /** Setting the same id twice is setting it once. */
  lemma {:induction false} SetTwice(ps: seq<Param>, p: Param, q: Param)
    requires p.id == q.id
    ensures SetParam(SetParam(ps, p), q) == SetParam(ps, q)
  {
    if ps != [] && ps[0].id != p.id {
      SetTwice(ps[1..], p, q);
      assert SetParam(ps, p)[1..] == SetParam(ps[1..], p);
    }
  }

  /** Once an id has its place, setting it commutes with setting others. */
  lemma {:induction false} SetCommutes(ps: seq<Param>, p: Param, q: Param)
    requires p.id != q.id && Has(ps, p.id)
    ensures SetParam(SetParam(ps, q), p) == SetParam(SetParam(ps, p), q)
  {
    HasHead(ps);
    if ps[0].id == p.id {
      assert SetParam(ps, p)[1..] == ps[1..];
      assert SetParam(ps, q)[1..] == SetParam(ps[1..], q);
    } else if ps[0].id == q.id {
      assert SetParam(ps, q)[1..] == ps[1..];
      assert SetParam(ps, p)[1..] == SetParam(ps[1..], p);
    } else {
      SetCommutes(ps[1..], p, q);
      assert SetParam(ps, q)[1..] == SetParam(ps[1..], q);
      assert SetParam(ps, p)[1..] == SetParam(ps[1..], p);
    }
  }

  lemma {:induction false} SetAllCommutes(ps: seq<Param>, more: seq<Param>, p: Param)
    requires Has(ps, p.id) && !Has(more, p.id)
    ensures SetParam(SetAll(ps, more), p) == SetAll(SetParam(ps, p), more)
  {
    if more != [] {
      var n := |more| - 1;
      assert more[n].id != p.id;
      forall i | 0 <= i < n ensures more[..n][i].id != p.id { assert more[i].id != p.id; }
      SetAllCommutes(ps, more[..n], p);
      SetAllShape(ps, more[..n]);
      SetCommutes(SetAll(ps, more[..n]), p, more[n]);
    }
  }

  lemma {:induction false} SetAllAppend(ps: seq<Param>, xs: seq<Param>, ys: seq<Param>)
    ensures SetAll(ps, xs + ys) == SetAll(SetAll(ps, xs), ys)
  {
    if ys == [] {
      assert xs + ys == xs;
    } else {
      var n := |ys| - 1;
      assert (xs + ys)[..|xs + ys| - 1] == xs + ys[..n] && (xs + ys)[|xs + ys| - 1] == ys[n];
      SetAllAppend(ps, xs, ys[..n]);
    }
  }

  /** Where a known id sits. */
  lemma {:induction false} SplitAt(ds: seq<Param>, p: Param) returns (xs: seq<Param>, prior: Param, ys: seq<Param>)
    requires DistinctIds(ds) && Has(ds, p.id)
    ensures ds == xs + [prior] + ys && prior.id == p.id && !Has(ys, p.id) && SetParam(ds, p) == xs + [p] + ys
  {
    HasHead(ds);
    if ds[0].id == p.id {
      xs, prior, ys := [], ds[0], ds[1..];
      assert ds == [ds[0]] + ds[1..];
      forall i | 0 <= i < |ys| ensures ys[i].id != p.id { assert ds[i + 1].id != ds[0].id; }
    } else {
      var xs0;
      xs0, prior, ys := SplitAt(ds[1..], p);
      xs := [ds[0]] + xs0;
      assert ds == [ds[0]] + ds[1..];
    }
  }

  lemma {:induction false} AppendNew(ds: seq<Param>, p: Param)
    requires !Has(ds, p.id)
    ensures SetParam(ds, p) == ds + [p]
  {
    if ds != [] {
      HasHead(ds);
      AppendNew(ds[1..], p);
      assert ds == [ds[0]] + ds[1..];
    }
  }

  /** Copying a merged list after one more setting is copying it and then setting. */
  lemma CopyThenSet(ps: seq<Param>, ds: seq<Param>, p: Param)
    requires DistinctIds(ds)
    ensures SetAll(ps, SetParam(ds, p)) == SetParam(SetAll(ps, ds), p)
  {
    if Has(ds, p.id) {
      var xs, prior, ys := SplitAt(ds, p);
      var base := SetAll(ps, xs);
      SetAllAppend(ps, xs + [p], ys);
      SetAllAppend(ps, xs, [p]);
      SetAllAppend(ps, xs + [prior], ys);
      SetAllAppend(ps, xs, [prior]);
      SetOne(base, p);
      SetOne(base, prior);
      SetParamShape(base, prior);
      SetAllCommutes(SetParam(base, prior), ys, p);
      SetTwice(base, prior, p);
    } else {
      AppendNew(ds, p);
      SetAllAppend(ps, ds, [p]);
      SetOne(SetAll(ps, ds), p);
    }
  }

  lemma SetOne(ps: seq<Param>, p: Param)
    ensures SetAll(ps, [p]) == SetParam(ps, p)
  {
    assert [p][..0] == [];
  }

  /** Copying what settings amount to has the effect of the settings. */
  lemma {:induction false} CopyMerged(ps: seq<Param>, more: seq<Param>)
    ensures SetAll(ps, SetAll([], more)) == SetAll(ps, more)
  {
    if more != [] {
      var n := |more| - 1;
      CopyMerged(ps, more[..n]);
      SetAllShape([], more[..n]);
      CopyThenSet(ps, SetAll([], more[..n]), more[n]);
    }
  }

  // ---- merging ----------------------------------------------------------------------------------------------

  function Later<T>(a: Option<T>, b: Option<T>): Option<T> { if b.Some? then b else a }

  /** The loop variables: the merged fields, and the parameters so far. */
  function MergeStep(merged: Intent, intent: Intent): Intent {
    Intent(
      Later(merged.reasoningEffort, intent.reasoningEffort), Later(merged.maxMode, intent.maxMode),
      Later(merged.fast, intent.fast), Some(SetAll(merged.params.GetOr([]), intent.params.GetOr([]))),
      Later(merged.mode, intent.mode))
  }

  /** An absent list and an empty one are one. */
  function Tidy(i: Intent): Intent { if i.params == Some([]) then i.(params := None) else i }

  function Merged(intents: seq<Intent>): Intent {
    if intents == [] then NO_INTENT.(params := Some([]))
    else MergeStep(Merged(intents[..|intents| - 1]), intents[|intents| - 1])
  }

  function Merge(intents: seq<Intent>): Intent { Tidy(Merged(intents)) }

  /** `mergeIntents`; absent intents are skipped. */
  method MergeIntents(intents: seq<Option<Intent>>) returns (merged: Intent)
    ensures merged == Merge(Present(intents))
  {
    merged := NO_INTENT;
    var params: seq<Param> := [];
    var i := 0;
    while i < |intents|
      invariant 0 <= i <= |intents| && merged.params == None
      invariant merged.(params := Some(params)) == Merged(Present(intents[..i]))
    {
      PresentSnoc(intents, i);
      if intents[i].Some? {
        var intent := intents[i].value;
        ghost var before := Present(intents[..i]);
        assert (before + [intent])[..|before|] == before;
        if intent.reasoningEffort.Some? { merged := merged.(reasoningEffort := intent.reasoningEffort); }
        if intent.maxMode.Some? { merged := merged.(maxMode := intent.maxMode); }
        if intent.fast.Some? { merged := merged.(fast := intent.fast); }
        if intent.mode.Some? { merged := merged.(mode := intent.mode); }
        params := SetParams(params, intent.params.GetOr([]));
      } else {
        assert Present(intents[..i + 1]) == Present(intents[..i]);
      }
      i := i + 1;
    }
    assert intents[..i] == intents;
    if params != [] { merged := merged.(params := Some(params)); }
  }

  method SetParams(ps: seq<Param>, more: seq<Param>) returns (r: seq<Param>)
    ensures r == SetAll(ps, more)
  {
    r := ps;
    var i := 0;
    while i < |more|
      invariant 0 <= i <= |more| && r == SetAll(ps, more[..i])
    {
      assert more[..i + 1][..i] == more[..i];
      r := SetParam(r, more[i]);
      i := i + 1;
    }
    assert more[..i] == more;
  }

  function Present(intents: seq<Option<Intent>>): seq<Intent> {
    if intents == [] then []
    else
      Present(intents[..|intents| - 1]) + (if intents[|intents| - 1].Some? then [intents[|intents| - 1].value] else [])
  }

  lemma PresentSnoc(intents: seq<Option<Intent>>, i: nat)
    requires i < |intents|
    ensures Present(intents[..i + 1]) == Present(intents[..i]) + (if intents[i].Some? then [intents[i].value] else [])
  {
    assert intents[..i + 1][..i] == intents[..i];
  }

  /** All settings of all intents, in order. */
  function Settings(intents: seq<Intent>): seq<Param> {
    if intents == [] then [] else Settings(intents[..|intents| - 1]) + intents[|intents| - 1].params.GetOr([])
  }

  lemma {:induction false} MergedParams(intents: seq<Intent>)
    ensures Merged(intents).params == Some(SetAll([], Settings(intents)))
  {
    if intents != [] {
      var n := |intents| - 1;
      MergedParams(intents[..n]);
      SetAllAppend([], Settings(intents[..n]), intents[n].params.GetOr([]));
    }
  }

  lemma {:induction false} SettingsAppend(xs: seq<Intent>, ys: seq<Intent>)
    ensures Settings(xs + ys) == Settings(xs) + Settings(ys)
  {
    if ys == [] {
      assert xs + ys == xs;
    } else {
      var n := |ys| - 1;
      assert (xs + ys)[..|xs + ys| - 1] == xs + ys[..n] && (xs + ys)[|xs + ys| - 1] == ys[n];
      SettingsAppend(xs, ys[..n]);
    }
  }

  /** The fields other than the parameters. */
  function Fields(i: Intent): Intent { i.(params := None) }

  lemma {:induction false} FieldsAppend(xs: seq<Intent>, ys: seq<Intent>)
    ensures Fields(Merged(xs + ys)) == Fields(MergeStep(Merged(xs), Merged(ys)))
  {
    if ys == [] {
      assert xs + ys == xs;
    } else {
      var n := |ys| - 1;
      assert (xs + ys)[..|xs + ys| - 1] == xs + ys[..n] && (xs + ys)[|xs + ys| - 1] == ys[n];
      FieldsAppend(xs, ys[..n]);
    }
  }

  lemma MergedTwo(a: Intent, b: Intent)
    ensures Merged([a, b]) == MergeStep(MergeStep(NO_INTENT.(params := Some([])), a), b)
  {
    assert [a][..0] == [] && Merged([a]) == MergeStep(Merged([]), a);
    assert [a, b][..1] == [a] && Merged([a, b]) == MergeStep(Merged([a]), b);
  }

  lemma GroupedParams(xs: seq<Intent>, ys: seq<Intent>)
    ensures Merged([Merge(xs), Merge(ys)]).params == Merged(xs + ys).params
  {
    var left, right := SetAll([], Settings(xs)), SetAll([], Settings(ys));
    MergedParams(xs);
    MergedParams(ys);
    MergedParams(xs + ys);
    MergedTwo(Merge(xs), Merge(ys));
    assert Merge(xs).params.GetOr([]) == left && Merge(ys).params.GetOr([]) == right;
    CopyMerged([], Settings(xs));
    CopyMerged(left, Settings(ys));
    SettingsAppend(xs, ys);
    SetAllAppend([], Settings(xs), Settings(ys));
  }

  lemma GroupedFields(xs: seq<Intent>, ys: seq<Intent>)
    ensures Fields(Merged([Merge(xs), Merge(ys)])) == Fields(Merged(xs + ys))
  {
    MergedTwo(Merge(xs), Merge(ys));
    FieldsAppend(xs, ys);
  }

  /** Merging in groups is merging at once: values, and the order of the parameters. */
  lemma MergeIsAssociative(xs: seq<Intent>, ys: seq<Intent>)
    ensures Merge([Merge(xs), Merge(ys)]) == Merge(xs + ys)
  {
    GroupedParams(xs, ys);
    GroupedFields(xs, ys);
    var a, b := Merged([Merge(xs), Merge(ys)]), Merged(xs + ys);
    assert a == Fields(a).(params := a.params) && b == Fields(b).(params := b.params);
  }
}
