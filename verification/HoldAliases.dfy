/** The aliases a session slot keeps for its pending calls: what they lead to, and when they are complete. */
module HoldAliases {
  import opened Prelude
  import opened ToolCallIds
  import opened SessionHub

  /** `registerHold` remembers this alias for the execute id. */
  predicate FormOf(e: string, alias: string) {
    alias != "" && alias != e && (alias == ResponsesCallId(e) || alias in Tokens(e))
  }

  /** Every form of a pending id leads to a pending id. */
  ghost predicate Complete(pending: seq<string>, aliases: seq<Alias>) {
    forall p, a | p in pending && FormOf(p, a) :: LeadsTo(pending, aliases, a)
  }

  predicate LeadsTo(pending: seq<string>, aliases: seq<Alias>, alias: string) {
    LookupAlias(aliases, alias).Some? && LookupAlias(aliases, alias).value in pending
  }

  /** Another pending id has a form whose alias was overwritten by `x`. */
  ghost predicate OwnsFormOfAnother(pending: seq<string>, aliases: seq<Alias>, x: string) {
    exists p, a :: p in pending && p != x && FormOf(p, a) && LookupAlias(aliases, a) == Some(x)
  }

  lemma {:induction false} LookupOfSet(aliases: seq<Alias>, alias: string, execute: string, b: string)
    ensures LookupAlias(SetAlias(aliases, alias, execute), b)
      == if b == alias then Some(execute) else LookupAlias(aliases, b)
  {
    if aliases != [] && aliases[0].alias != alias {
      LookupOfSet(aliases[1..], alias, execute, b);
      assert ([aliases[0]] + SetAlias(aliases[1..], alias, execute))[1..] == SetAlias(aliases[1..], alias, execute);
    }
  }

  lemma LookupOfRemember(aliases: seq<Alias>, execute: string, alias: string, b: string)
    ensures LookupAlias(Remember(aliases, execute, alias), b)
      == if b == alias && b != "" && b != execute then Some(execute) else LookupAlias(aliases, b)
  {
    LookupOfSet(aliases, alias, execute, b);
  }

  lemma {:induction false} LookupOfRememberAll(aliases: seq<Alias>, execute: string, tokens: seq<string>, b: string)
    ensures LookupAlias(RememberAll(aliases, execute, tokens), b)
      == if b in tokens && b != "" && b != execute then Some(execute) else LookupAlias(aliases, b)
    decreases |tokens|
  {
    if tokens != [] {
      LookupOfRemember(aliases, execute, tokens[0], b);
      LookupOfRememberAll(Remember(aliases, execute, tokens[0]), execute, tokens[1..], b);
    }
  }

  /** The keys of a map. */
  predicate OneEach(aliases: seq<Alias>) {
    forall i, j | 0 <= i < j < |aliases| :: aliases[i].alias != aliases[j].alias
  }

  lemma {:induction false} ListedIsLookedUp(aliases: seq<Alias>, i: nat)
    requires OneEach(aliases) && i < |aliases|
    ensures LookupAlias(aliases, aliases[i].alias) == Some(aliases[i].execute)
  {
    if i > 0 { ListedIsLookedUp(aliases[1..], i - 1); }
  }

  lemma {:induction false} SetKeepsOneEach(aliases: seq<Alias>, alias: string, execute: string)
    requires OneEach(aliases)
    ensures OneEach(SetAlias(aliases, alias, execute))
    ensures forall a | a in SetAlias(aliases, alias, execute) :: a.alias == alias || exists b :: b in aliases && b.alias == a.alias
  {
    if aliases != [] && aliases[0].alias != alias {
      var rest := SetAlias(aliases[1..], alias, execute);
      SetKeepsOneEach(aliases[1..], alias, execute);
      forall j | 0 <= j < |rest| ensures rest[j].alias != aliases[0].alias {
        assert rest[j] in rest;
        if rest[j].alias != alias {
          var b :| b in aliases[1..] && b.alias == rest[j].alias;
          var k :| 0 <= k < |aliases[1..]| && aliases[1..][k] == b;
          assert aliases[k + 1] == b;
        }
      }
    }
  }

  lemma {:induction false} RememberAllKeepsOneEach(aliases: seq<Alias>, execute: string, tokens: seq<string>)
    requires OneEach(aliases)
    ensures OneEach(RememberAll(aliases, execute, tokens))
    decreases |tokens|
  {
    if tokens != [] {
      SetKeepsOneEach(aliases, tokens[0], execute);
      RememberAllKeepsOneEach(Remember(aliases, execute, tokens[0]), execute, tokens[1..]);
    }
  }

  lemma AliasedKeepsOneEach(aliases: seq<Alias>, execute: string)
    requires OneEach(aliases)
    ensures OneEach(Aliased(aliases, execute))
  {
    SetKeepsOneEach(aliases, ResponsesCallId(execute), execute);
    RememberAllKeepsOneEach(Remember(aliases, execute, ResponsesCallId(execute)), execute, Tokens(execute));
  }

  /** Registering leads every form of the id to it, whoever had it before, and changes no other alias. */
  lemma AliasesAfterRegistering(aliases: seq<Alias>, execute: string, b: string)
    ensures LookupAlias(Aliased(aliases, execute), b)
      == if FormOf(execute, b) then Some(execute) else LookupAlias(aliases, b)
  {
    LookupOfRemember(aliases, execute, ResponsesCallId(execute), b);
    LookupOfRememberAll(Remember(aliases, execute, ResponsesCallId(execute)), execute, Tokens(execute), b);
  }

  /** Registering keeps the aliases complete. */
  lemma RegisteringCompletes(pending: seq<string>, after: seq<string>, aliases: seq<Alias>, execute: string)
    requires Complete(pending, aliases) && forall p :: p in after <==> p in pending || p == execute
    ensures Complete(after, Aliased(aliases, execute))
  {
    forall p, a | p in after && FormOf(p, a) ensures LeadsTo(after, Aliased(aliases, execute), a) {
      AliasesAfterRegistering(aliases, execute, a);
      if !FormOf(execute, a) { assert LeadsTo(pending, aliases, a); }
    }
  }

  /** Settling a call keeps them complete exactly if no form of another pending call leads to it. */
  lemma SettlingCompletesExactlyWhen(pending: seq<string>, after: seq<string>, aliases: seq<Alias>, x: string)
    requires Complete(pending, aliases) && forall p :: p in after <==> p in pending && p != x
    ensures Complete(after, aliases) <==> !OwnsFormOfAnother(pending, aliases, x)
  {
    if Complete(after, aliases) {
      forall p, a | p in pending && p != x && FormOf(p, a) ensures LookupAlias(aliases, a) != Some(x) {
        assert LeadsTo(after, aliases, a);
      }
    } else {
      var p, a :| p in after && FormOf(p, a) && !LeadsTo(after, aliases, a);
      assert LeadsTo(pending, aliases, a);
      assert p in pending && p != x && FormOf(p, a) && LookupAlias(aliases, a) == Some(x);
    }
  }

  // ---- which call answers -------------------------------------------------------------------------------

  /** The first pending id that matches. */
  ghost predicate FirstToMatch(pending: seq<string>, e: string, shown: string) {
    exists i :: 0 <= i < |pending| && pending[i] == e && Matches(e, shown)
      && forall j | 0 <= j < i :: !Matches(pending[j], shown)
  }

  predicate AliasMeets(pending: seq<string>, a: Alias, shown: string) {
    a.execute in pending && Overlap(a.alias, shown)
  }

  /** The first alias of a pending id that overlaps leads to `e`. */
  ghost predicate FirstToReach(pending: seq<string>, aliases: seq<Alias>, e: string, shown: string) {
    exists i :: 0 <= i < |aliases| && aliases[i].execute == e && AliasMeets(pending, aliases[i], shown)
      && forall j | 0 <= j < i :: !AliasMeets(pending, aliases[j], shown)
  }

  /**
   `e` answers to the shown id: it is that id; or no pending id is, and the alias with that name leads to `e`;
   or to no pending id (the empty one does not count), and `e` is the first pending id to match; or none matches, and the first alias of a
   pending id to overlap the shown id is one of `e`.
   */
  ghost predicate Answers(pending: seq<string>, aliases: seq<Alias>, e: string, shown: string) {
    shown == e
    || (shown !in pending
        && if LeadsTo(pending, aliases, shown) && LookupAlias(aliases, shown) != Some("") then LookupAlias(aliases, shown) == Some(e)
           else if exists p :: p in pending && Matches(p, shown) then FirstToMatch(pending, e, shown)
           else FirstToReach(pending, aliases, e, shown))
  }

  /** Some pending id matches, or some alias of a pending id overlaps. */
  ghost predicate Findable(pending: seq<string>, aliases: seq<Alias>, shown: string) {
    (exists p :: p in pending && Matches(p, shown)) || exists a :: a in aliases && AliasMeets(pending, a, shown)
  }

  lemma {:induction false} FirstMatchAt(pending: seq<string>, shown: string) returns (i: nat)
    requires FirstMatch(pending, shown).Some?
    ensures i < |pending| && pending[i] == FirstMatch(pending, shown).value
    ensures FirstMatch(pending[..i], shown).None?
  {
    if Matches(pending[0], shown) {
      i := 0;
    } else {
      var k := FirstMatchAt(pending[1..], shown);
      i := k + 1;
      assert pending[..i][1..] == pending[1..][..k];
    }
  }

  lemma {:induction false} FirstMatchBehind(pending: seq<string>, i: nat, shown: string)
    requires i <= |pending| && forall j | 0 <= j < i :: !Matches(pending[j], shown)
    ensures FirstMatch(pending, shown) == FirstMatch(pending[i..], shown)
  {
    if i > 0 {
      FirstMatchBehind(pending, i - 1, shown);
      assert pending[i - 1..][0] == pending[i - 1] && pending[i - 1..][1..] == pending[i..];
    } else {
      assert pending[0..] == pending;
    }
  }

  lemma FirstMatchIsFirst(pending: seq<string>, e: string, shown: string)
    ensures FirstMatch(pending, shown) == Some(e) <==> FirstToMatch(pending, e, shown)
  {
    if FirstMatch(pending, shown) == Some(e) {
      var i := FirstMatchAt(pending, shown);
      assert forall j | 0 <= j < i :: pending[j] in pending[..i];
    }
    if FirstToMatch(pending, e, shown) {
      var i :| 0 <= i < |pending| && pending[i] == e && Matches(e, shown) && forall j | 0 <= j < i :: !Matches(pending[j], shown);
      FirstMatchBehind(pending, i, shown);
    }
  }

  lemma {:induction false} FirstAliasAt(pending: seq<string>, aliases: seq<Alias>, shown: string) returns (i: nat)
    requires FirstAliasMatch(pending, aliases, shown).Some?
    ensures i < |aliases| && aliases[i].execute == FirstAliasMatch(pending, aliases, shown).value
    ensures AliasMeets(pending, aliases[i], shown) && FirstAliasMatch(pending, aliases[..i], shown).None?
  {
    if AliasMeets(pending, aliases[0], shown) {
      i := 0;
    } else {
      var k := FirstAliasAt(pending, aliases[1..], shown);
      i := k + 1;
      assert aliases[..i][1..] == aliases[1..][..k];
    }
  }

  lemma {:induction false} NoAliasMeets(pending: seq<string>, aliases: seq<Alias>, shown: string, i: nat)
    requires FirstAliasMatch(pending, aliases, shown).None? && i < |aliases|
    ensures !AliasMeets(pending, aliases[i], shown)
  {
    if i > 0 { NoAliasMeets(pending, aliases[1..], shown, i - 1); }
  }

  lemma {:induction false} FirstAliasBehind(pending: seq<string>, aliases: seq<Alias>, i: nat, shown: string)
    requires i <= |aliases| && forall j | 0 <= j < i :: !AliasMeets(pending, aliases[j], shown)
    ensures FirstAliasMatch(pending, aliases, shown) == FirstAliasMatch(pending, aliases[i..], shown)
  {
    if i > 0 {
      FirstAliasBehind(pending, aliases, i - 1, shown);
      assert aliases[i - 1..][0] == aliases[i - 1] && aliases[i - 1..][1..] == aliases[i..];
    } else {
      assert aliases[0..] == aliases;
    }
  }

  lemma FirstAliasIsFirst(pending: seq<string>, aliases: seq<Alias>, e: string, shown: string)
    ensures FirstAliasMatch(pending, aliases, shown) == Some(e) <==> FirstToReach(pending, aliases, e, shown)
  {
    if FirstAliasMatch(pending, aliases, shown) == Some(e) {
      var i := FirstAliasAt(pending, aliases, shown);
      forall j | 0 <= j < i ensures !AliasMeets(pending, aliases[j], shown) {
        NoAliasMeets(pending, aliases[..i], shown, j);
      }
    }
    if FirstToReach(pending, aliases, e, shown) {
      var i :| 0 <= i < |aliases| && aliases[i].execute == e && AliasMeets(pending, aliases[i], shown)
        && forall j | 0 <= j < i :: !AliasMeets(pending, aliases[j], shown);
      FirstAliasBehind(pending, aliases, i, shown);
    }
  }

  /** This id, its Responses form or one of its tokens meets what the client sends. */
  ghost predicate Meets(q: string, shown: string) {
    Matches(q, shown) || exists a :: (a == ResponsesCallId(q) || a in Tokens(q)) && Overlap(a, shown)
  }
}
