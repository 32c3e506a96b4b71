/** Responses that repeat calls of earlier responses: when their ids stay distinct. */
module KeptCallIds {
  import opened Prelude
  import opened Text
  import opened ToolCallIds
  import opened CallIds

  lemma {:induction false} GivenAreDistinct(used: set<string>, calls: seq<ToolCall>, o: Oracles)
    ensures Distinct(Given(used, calls, o)) && forall s | s in Given(used, calls, o) :: s !in used
    decreases |calls|
  {
    if calls != [] { GivenAreDistinct(used + {Renamed(BaseSuffix(calls[0], o), used)}, calls[1..], o); }
  }

  /** What is kept or new does not depend on the suffixes of other calls. */
  lemma {:induction false} KeptAlike(r: Resolver, q: Resolver, calls: seq<ToolCall>)
    requires forall c | c in calls :: (c.ref in r.cache <==> c.ref in q.cache)
    requires forall c | c in calls && c.ref in r.cache :: r.cache[c.ref] == q.cache[c.ref]
    ensures Kept(r, calls) == Kept(q, calls) && New(r, calls) == New(q, calls)
  {
    if calls != [] { KeptAlike(r, q, calls[1..]); }
  }

  lemma RestAlike(r: Resolver, calls: seq<ToolCall>, o: Oracles)
    requires DistinctRefs(calls) && calls != []
    ensures Kept(Resolve(r, calls[0], o).1, calls[1..]) == Kept(r, calls[1..])
    ensures New(Resolve(r, calls[0], o).1, calls[1..]) == New(r, calls[1..])
    ensures DistinctRefs(calls[1..])
  {
    forall c | c in calls[1..] ensures c.ref != calls[0].ref {
      var i :| 0 <= i < |calls[1..]| && calls[1..][i] == c;
      assert calls[0].ref != calls[i + 1].ref;
    }
    KeptAlike(r, Resolve(r, calls[0], o).1, calls[1..]);
  }

  lemma HeadFirst(s: string, rest: seq<string>)
    ensures multiset([s] + rest) == multiset{s} + multiset(rest)
  {
  }

  /** A new call is given its suffix before the ones that follow. */
  lemma GivenFirst(r: Resolver, calls: seq<ToolCall>, o: Oracles)
    requires calls != [] && calls[0].ref !in r.cache
    ensures
      var (s, next) := Resolve(r, calls[0], o);
      Given(r.used, New(r, calls), o) == [s] + Given(next.used, New(r, calls[1..]), o)
  {
    assert ([calls[0]] + New(r, calls[1..]))[1..] == New(r, calls[1..]);
  }

  lemma AddToLeft(s: string, rest: seq<string>, kept: seq<string>, given: seq<string>)
    requires MergeOf(rest, kept, given)
    ensures MergeOf([s] + rest, [s] + kept, given)
  {
    HeadFirst(s, rest);
    HeadFirst(s, kept);
  }

  lemma AddToRight(s: string, rest: seq<string>, kept: seq<string>, given: seq<string>)
    requires MergeOf(rest, kept, given)
    ensures MergeOf([s] + rest, kept, [s] + given)
  {
    HeadFirst(s, rest);
    HeadFirst(s, given);
  }

  lemma KeptStep(r: Resolver, calls: seq<ToolCall>, o: Oracles)
    requires calls != [] && calls[0].ref in r.cache
    requires MergeOf(ResolveAll(r, calls[1..], o).0, Kept(r, calls[1..]), Given(r.used, New(r, calls[1..]), o))
    ensures MergeOf(ResolveAll(r, calls, o).0, Kept(r, calls), Given(r.used, New(r, calls), o))
  {
    var s, rest := r.cache[calls[0].ref], calls[1..];
    assert ResolveAll(r, calls, o).0 == [s] + ResolveAll(r, rest, o).0;
    assert Kept(r, calls) == [s] + Kept(r, rest);
    assert New(r, calls) == New(r, rest);
    AddToLeft(s, ResolveAll(r, rest, o).0, Kept(r, rest), Given(r.used, New(r, rest), o));
  }

  lemma NewStep(r: Resolver, calls: seq<ToolCall>, o: Oracles, s: string, next: Resolver)
    requires calls != [] && calls[0].ref !in r.cache && (s, next) == Resolve(r, calls[0], o)
    requires MergeOf(ResolveAll(next, calls[1..], o).0, Kept(r, calls[1..]), Given(next.used, New(r, calls[1..]), o))
    ensures MergeOf(ResolveAll(r, calls, o).0, Kept(r, calls), Given(r.used, New(r, calls), o))
  {
    var rest := calls[1..];
    assert ResolveAll(r, calls, o).0 == [s] + ResolveAll(next, rest, o).0;
    assert Kept(r, calls) == Kept(r, rest);
    GivenFirst(r, calls, o);
    AddToRight(s, ResolveAll(next, rest, o).0, Kept(r, rest), Given(next.used, New(r, rest), o));
  }

  /** The suffixes of a response are the kept ones and the given ones, no more and no less. */
  lemma {:induction false} ResolveAllMerges(r: Resolver, calls: seq<ToolCall>, o: Oracles)
    requires DistinctRefs(calls)
    ensures MergeOf(ResolveAll(r, calls, o).0, Kept(r, calls), Given(r.used, New(r, calls), o))
    decreases |calls|
  {
    if calls != [] {
      var (s, next) := Resolve(r, calls[0], o);
      RestAlike(r, calls, o);
      ResolveAllMerges(next, calls[1..], o);
      if calls[0].ref in r.cache { KeptStep(r, calls, o); } else { NewStep(r, calls, o, s, next); }
    }
  }

  lemma {:induction false} DistinctMeansOnce(ss: seq<string>)
    ensures Distinct(ss) <==> forall s :: multiset(ss)[s] <= 1
  {
    if ss != [] {
      var rest, last := ss[..|ss| - 1], ss[|ss| - 1];
      assert ss == rest + [last];
      DistinctMeansOnce(rest);
      if Distinct(ss) {
        assert last !in rest;
      } else if Distinct(rest) {
        assert last in rest;
        assert multiset(ss)[last] >= 2;
      } else {
        var s :| multiset(rest)[s] > 1;
        assert multiset(ss)[s] > 1;
      }
    }
  }

  lemma MergeIsDistinct(ss: seq<string>, kept: seq<string>, given: seq<string>)
    requires MergeOf(ss, kept, given) && Distinct(given)
    ensures Distinct(ss) <==> NoClash(kept, given)
  {
    DistinctMeansOnce(ss);
    DistinctMeansOnce(kept);
    DistinctMeansOnce(given);
    assert forall s :: multiset(ss)[s] == multiset(kept)[s] + multiset(given)[s];
    assert forall s | s in kept && s in given :: multiset(kept)[s] >= 1 && multiset(given)[s] >= 1;
    assert forall s | multiset(kept)[s] >= 1 && multiset(given)[s] >= 1 :: s in kept && s in given;
  }

  /**
   The calls of one response get distinct suffixes exactly if the suffixes kept from earlier responses differ
   from each other and none of them is given to a new call.
   */
  lemma DistinctExactlyWhen(r: Resolver, calls: seq<ToolCall>, o: Oracles)
    requires DistinctRefs(calls)
    ensures Distinct(ResolveAll(r, calls, o).0) <==> NoClash(Kept(r, calls), Given(r.used, New(r, calls), o))
  {
    ResolveAllMerges(r, calls, o);
    GivenAreDistinct(r.used, New(r, calls), o);
    MergeIsDistinct(ResolveAll(r, calls, o).0, Kept(r, calls), Given(r.used, New(r, calls), o));
  }

  lemma PlainBase(call: ToolCall, o: Oracles)
    requires Trimmed(call.id) && (forall i | 0 <= i < |call.id| :: !IsNewline(call.id[i]))
    requires !HasControl(call.id) && 0 < |call.id| <= MAX_CLIENT_ID && StripCall(call.id) != ""
    ensures BaseSuffix(call, o) == StripCall(call.id)
  {
    TrimOfTrimmed(call.id);
    OneLine(call.id);
    assert FirstPart(call.id) == call.id;
  }

  /** The suffixes two calls are given without a set, in a new response. */
  function BothAlone(first: ToolCall, second: ToolCall, o: Oracles): Resolver {
    ResolveAlone(ResolveAlone(Resolver(map[], {}), first, o).1, second, o).1
  }

  lemma AloneKeepsBases(first: ToolCall, second: ToolCall, o: Oracles)
    requires first.ref != second.ref
    ensures BothAlone(first, second, o).used == {}
    ensures Kept(BothAlone(first, second, o), [first, second]) == [BaseSuffix(first, o), BaseSuffix(second, o)]
    ensures New(BothAlone(first, second, o), [first, second]) == []
  {
    var r := BothAlone(first, second, o);
    assert first.ref in r.cache && second.ref in r.cache;
    assert [first, second][1..] == [second] && [second][1..] == [];
    assert Kept(r, [second]) == [BaseSuffix(second, o)] && New(r, [second]) == [];
  }

  /**
   Two calls the runner remembered before the response streams them get distinct ids exactly if their bases differ:
   the set of the response comes too late for them.
   */
  lemma RememberedCallsAreDistinctExactlyWhen(first: ToolCall, second: ToolCall, o: Oracles)
    requires first.ref != second.ref
    ensures Distinct(ResolveAll(BothAlone(first, second, o), [first, second], o).0)
      <==> BaseSuffix(first, o) != BaseSuffix(second, o)
  {
    var r := BothAlone(first, second, o);
    AloneKeepsBases(first, second, o);
    DistinctExactlyWhen(r, [first, second], o);
    assert Given(r.used, [], o) == [];
    var kept := Kept(r, [first, second]);
    assert kept[0] == BaseSuffix(first, o) && kept[1] == BaseSuffix(second, o);
  }

  /** So `x` and `call_x` share an id, and so do two calls of one id. */
  lemma KeptCallCanClash(x: string, o: Oracles)
    requires Trimmed(x) && (forall i | 0 <= i < |x| :: !IsNewline(x[i]))
    requires !HasControl(x) && 0 < |x| <= MAX_CLIENT_ID - 5 && StripCall(x) == x
    ensures
      var first, second := ToolCall(1, x, "f", "{}"), ToolCall(2, "call_" + x, "g", "{}");
      !Distinct(ResolveAll(BothAlone(first, second, o), [first, second], o).0)
  {
    var first, second := ToolCall(1, x, "f", "{}"), ToolCall(2, "call_" + x, "g", "{}");
    PlainBase(first, o);
    CallForm(x);
    PlainBase(second, o);
    RememberedCallsAreDistinctExactlyWhen(first, second, o);
  }

  lemma CallForm(x: string)
    requires Trimmed(x) && (forall i | 0 <= i < |x| :: !IsNewline(x[i])) && !HasControl(x) && x != ""
    ensures
      var y := "call_" + x;
      Trimmed(y) && (forall i | 0 <= i < |y| :: !IsNewline(y[i])) && !HasControl(y) && StripCall(y) == x
  {
    var y := "call_" + x;
    assert y[..5] == "call_" && y[5..] == x && y[|y| - 1] == x[|x| - 1];
    forall i | 0 <= i < |y| ensures !IsControl(y[i]) && !IsNewline(y[i]) {
      if i >= 5 { assert y[i] == x[i - 5]; }
    }
  }
}
