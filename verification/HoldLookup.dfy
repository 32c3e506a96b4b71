/** The id shown for a hung call, sent back by the client: when it finds a call, and when it finds that very call. */
module HoldLookup {
  import opened Prelude
  import opened Text
  import opened ToolCallIds
  import opened SessionHub
  import opened HoldAliases

  // ---- any client id ------------------------------------------------------------------------------------

  /** A client id finds a pending call exactly if a pending id matches or an alias of one overlaps. */
  lemma FoundExactlyWhen(pending: seq<string>, aliases: seq<Alias>, shown: string)
    requires shown != ""
    ensures CanonicalHoldId(pending, aliases, shown).Some? <==> Findable(pending, aliases, shown)
  {
    if shown in pending {
      assert Matches(shown, shown);
    } else {
      var aliased := LookupAlias(aliases, shown);
      if aliased.Some? && aliased.value in pending {
        AliasIsListed(aliases, shown);
        assert AliasMeets(pending, Alias(shown, aliased.value), shown);
      }
      AliasFoundExactlyWhen(pending, aliases, shown);
    }
  }

  lemma AliasFoundExactlyWhen(pending: seq<string>, aliases: seq<Alias>, shown: string)
    ensures FirstAliasMatch(pending, aliases, shown).Some? <==> exists a :: a in aliases && AliasMeets(pending, a, shown)
  {
    if FirstAliasMatch(pending, aliases, shown).Some? {
      var i := FirstAliasAt(pending, aliases, shown);
      assert aliases[i] in aliases;
    } else {
      forall a | a in aliases ensures !AliasMeets(pending, a, shown) {
        var i :| 0 <= i < |aliases| && aliases[i] == a;
        NoAliasMeets(pending, aliases, shown, i);
      }
    }
  }

  /** It finds `e` exactly if `e` answers to it. */
  lemma FindsExactlyWhen(pending: seq<string>, aliases: seq<Alias>, e: string, shown: string)
    requires shown != "" && e in pending
    ensures CanonicalHoldId(pending, aliases, shown) == Some(e) <==> Answers(pending, aliases, e, shown)
  {
    FirstMatchIsFirst(pending, e, shown);
    FirstAliasIsFirst(pending, aliases, e, shown);
  }

  // ---- the shown id -------------------------------------------------------------------------------------

  /** The shown id is a token of the first line, or all of it. */
  lemma ShownMeetsFirstLine(e: string, digest: string -> string)
    requires Readable(e) && Trim(e) != ""
    ensures FirstPart(e) in Tokens(e) && Sanitize(e, digest) != "" && Overlap(FirstPart(e), Sanitize(e, digest))
  {
    var _, _ := TrimSplits(e);
    FirstPartOfTrimmed(Trim(e));
    FirstPartIsPart(e);
    var first, shown := FirstPart(e), Sanitize(e, digest);
    var p :| p in Parts(e) && Trim(p) == first;
    PartIsToken(e, p);
    if |first| > MAX_CLIENT_ID {
      assert shown == first[..MAX_CLIENT_ID] && shown in Parts(first);
      TrimOfLine(shown);
      PartIsToken(first, shown);
      PartIsToken(shown, shown);
    }
  }

  /** With complete aliases the shown id of a pending call finds a call, leading white space or not. */
  lemma ShownIdIsFound(pending: seq<string>, aliases: seq<Alias>, e: string, digest: string -> string)
    requires e in pending && Readable(e) && Complete(pending, aliases)
    ensures CanonicalHoldId(pending, aliases, Sanitize(e, digest)).Some?
  {
    if Trim(e) != "" {
      var first, shown := FirstPart(e), Sanitize(e, digest);
      ShownMeetsFirstLine(e, digest);
      if first == e {
        assert Matches(e, shown);
      } else {
        assert FormOf(e, first) && LeadsTo(pending, aliases, first);
        AliasIsListed(aliases, first);
        assert AliasMeets(pending, Alias(first, LookupAlias(aliases, first).value), shown);
      }
      FoundExactlyWhen(pending, aliases, shown);
    }
  }

  /** What is found meets the client id. */
  lemma FoundMeets(pending: seq<string>, aliases: seq<Alias>, shown: string)
    requires shown != "" && AliasesFromHolds(aliases) && CanonicalHoldId(pending, aliases, shown).Some?
    ensures Meets(CanonicalHoldId(pending, aliases, shown).value, shown)
  {
    var r := CanonicalHoldId(pending, aliases, shown).value;
    if shown in pending {
      assert Matches(shown, shown);
    } else if LookupAlias(aliases, shown) == Some(r) {
      AliasIsListed(aliases, shown);
      assert Overlap(shown, shown);
    } else if FirstMatch(pending, shown).None? {
      var i := FirstAliasAt(pending, aliases, shown);
      assert aliases[i] in aliases && Overlap(aliases[i].alias, shown);
    }
  }

  /**
   With complete aliases, the shown id of a readable pending call finds that very call if neither another pending
   id nor a form of one meets it: a condition on the ids alone.
   */
  lemma UnrivalledFindsItself(pending: seq<string>, aliases: seq<Alias>, e: string, digest: string -> string)
    requires e in pending && Readable(e) && Complete(pending, aliases) && AliasesFromHolds(aliases)
    requires forall q | q in pending && q != e :: !Meets(q, Sanitize(e, digest))
    ensures CanonicalHoldId(pending, aliases, Sanitize(e, digest)) == Some(e)
  {
    var shown := Sanitize(e, digest);
    ShownIdIsFound(pending, aliases, e, digest);
    FoundMeets(pending, aliases, shown);
  }

  // ---- long ids behind white space ----------------------------------------------------------------------

  predicate AllX(xs: string) { forall i | 0 <= i < |xs| :: xs[i] == 'x' }

  /** White space in front moves the 64-character cut of the tokens, but not that of the shown id. */
  lemma PaddedParts(pad: string, xs: string, p: string)
    requires pad in [" ", "  "] && AllX(xs) && |xs| == MAX_CLIENT_ID + 1 && p in Parts(pad + xs)
    ensures p == pad + xs || p == pad + xs[..MAX_CLIENT_ID - |pad|]
  {
    OneLine(pad + xs);
    assert (pad + xs)[..MAX_CLIENT_ID] == pad + xs[..MAX_CLIENT_ID - |pad|];
  }

  lemma PaddedTrim(pad: string, ys: string)
    requires pad in [" ", "  "] && AllX(ys)
    ensures Trim(pad + ys) == ys && StripCall(ys) == ys
  {
    TrimUnique(pad, ys, "");
    assert pad + ys + "" == pad + ys;
  }

  lemma PaddedTokens(pad: string, xs: string, t: string)
    requires pad in [" ", "  "] && AllX(xs) && |xs| == MAX_CLIENT_ID + 1 && t in Tokens(pad + xs)
    ensures t == xs || t == xs[..MAX_CLIENT_ID - |pad|]
  {
    var p := TokenSource(pad + xs, t);
    PaddedParts(pad, xs, p);
    PaddedTrim(pad, xs);
    PaddedTrim(pad, xs[..MAX_CLIENT_ID - |pad|]);
  }

  lemma PaddedShown(pad: string, xs: string, digest: string -> string)
    requires pad in [" ", "  "] && AllX(xs) && |xs| == MAX_CLIENT_ID + 1
    ensures Readable(pad + xs) && FirstPart(pad + xs) == xs
    ensures Sanitize(pad + xs, digest) == xs[..MAX_CLIENT_ID]
    ensures xs in Tokens(pad + xs) && ResponsesCallId(pad + xs) == "call_" + xs
  {
    PaddedTrim(pad, xs);
    OneLine(xs);
    TrimOfTrimmed(xs);
    PartIsToken(pad + xs, pad + xs);
  }

  lemma PlainTokens(ys: string, t: string)
    requires AllX(ys) && 0 < |ys| <= MAX_CLIENT_ID && t in Tokens(ys)
    ensures t == ys
  {
    var p := TokenSource(ys, t);
    OneLine(ys);
    PlainForm(ys);
    assert p == ys;
  }

  lemma PaddedSharesNothing(pad: string, xs: string)
    requires pad in [" ", "  "] && AllX(xs) && |xs| == MAX_CLIENT_ID + 1
    ensures !ShareToken(pad + xs, xs[..MAX_CLIENT_ID])
  {
    forall t | t in Tokens(pad + xs) ensures t !in Tokens(xs[..MAX_CLIENT_ID]) {
      PaddedTokens(pad, xs, t);
      assert |t| != |xs[..MAX_CLIENT_ID]|;
      if t in Tokens(xs[..MAX_CLIENT_ID]) { PlainTokens(xs[..MAX_CLIENT_ID], t); }
    }
  }

  /** The cut of one id can be another pending id, with which it shares no token: the other call answers. */
  lemma CutMeetsAnotherId(xs: string, aliases: seq<Alias>, digest: string -> string)
    requires AllX(xs) && |xs| == MAX_CLIENT_ID + 1
    ensures
      var e, other := " " + xs, xs[..MAX_CLIENT_ID];
      DisjointTokens([e, other]) && CanonicalHoldId([e, other], aliases, Sanitize(e, digest)) == Some(other)
  {
    PaddedShown(" ", xs, digest);
    PaddedSharesNothing(" ", xs);
  }

  lemma PaddedForms(pad: string, xs: string, a: string)
    requires pad in [" ", "  "] && AllX(xs) && |xs| == MAX_CLIENT_ID + 1
    ensures FormOf(pad + xs, a) ==> a == "call_" + xs || a == xs || a == xs[..MAX_CLIENT_ID - |pad|]
    ensures FormOf(pad + xs, xs) && FormOf(pad + xs, "call_" + xs)
  {
    PaddedShown(pad, xs, _ => "");
    assert (pad + xs)[0] == ' ' && xs[0] == 'x' && ("call_" + xs)[0] == 'c';
    if FormOf(pad + xs, a) && a in Tokens(pad + xs) { PaddedTokens(pad, xs, a); }
  }

  /** After the second of two ids with a common first line was registered, only the own cut still leads to the first. */
  lemma OwnAliasLeft(xs: string, a: Alias)
    requires AllX(xs) && |xs| == MAX_CLIENT_ID + 1
    requires a in Aliased(Aliased([], " " + xs), "  " + xs) && a.execute == " " + xs
    ensures a.alias == xs[..MAX_CLIENT_ID - 1]
  {
    var e, x := " " + xs, "  " + xs;
    var one := Aliased([], e);
    var both := Aliased(one, x);
    AliasedKeepsOneEach([], e);
    AliasedKeepsOneEach(one, x);
    var i :| 0 <= i < |both| && both[i] == a;
    ListedIsLookedUp(both, i);
    AliasesAfterRegistering([], e, a.alias);
    AliasesAfterRegistering(one, x, a.alias);
    assert |e| != |x|;
    PaddedForms(" ", xs, a.alias);
    PaddedForms("  ", xs, a.alias);
  }

  lemma AliasOverwritten(xs: string)
    requires AllX(xs) && |xs| == MAX_CLIENT_ID + 1
    ensures OwnsFormOfAnother([" " + xs, "  " + xs], Aliased(Aliased([], " " + xs), "  " + xs), "  " + xs)
  {
    var e, x := " " + xs, "  " + xs;
    PaddedForms(" ", xs, xs);
    PaddedForms("  ", xs, xs);
    AliasesAfterRegistering(Aliased([], e), x, xs);
    assert |e| != |x|;
    assert e in [e, x] && FormOf(e, xs) && LookupAlias(Aliased(Aliased([], e), x), xs) == Some(x);
  }

  lemma ShorterCutIsNotMet(xs: string, a: Alias, e: string)
    requires AllX(xs) && |xs| == MAX_CLIENT_ID + 1 && (a.execute == e ==> a.alias == xs[..MAX_CLIENT_ID - 1])
    ensures !AliasMeets([e], a, xs[..MAX_CLIENT_ID])
  {
    PlainShareNothing(xs[..MAX_CLIENT_ID - 1], xs[..MAX_CLIENT_ID]);
  }

  lemma NothingMet(e: string, aliases: seq<Alias>, shown: string)
    requires shown != "" && !Matches(e, shown) && forall a | a in aliases :: !AliasMeets([e], a, shown)
    ensures CanonicalHoldId([e], aliases, shown) == None
  {
    FoundExactlyWhen([e], aliases, shown);
  }

  /** If only shorter cuts lead to the id, its shown id finds nothing. */
  lemma ShorterCutsFindNothing(xs: string, aliases: seq<Alias>, e: string)
    requires AllX(xs) && |xs| == MAX_CLIENT_ID + 1 && e == " " + xs
    requires forall a | a in aliases && a.execute == e :: a.alias == xs[..MAX_CLIENT_ID - 1]
    ensures CanonicalHoldId([e], aliases, xs[..MAX_CLIENT_ID]) == None
  {
    var cut := xs[..MAX_CLIENT_ID];
    NothingElseMatches(xs, e, cut);
    forall a | a in aliases ensures !AliasMeets([e], a, cut) { ShorterCutIsNotMet(xs, a, e); }
    NothingMet(e, aliases, cut);
  }

  /**
   Once a call that overwrote the alias of the first line is settled, the aliases are no longer complete, and the
   shown id of the call that is left finds nothing.
   */
  lemma SettledOwnerLosesTheHold(xs: string, digest: string -> string)
    requires AllX(xs) && |xs| == MAX_CLIENT_ID + 1
    ensures
      var e, x := " " + xs, "  " + xs;
      var aliases := Aliased(Aliased([], e), x);
      OwnsFormOfAnother([e, x], aliases, x) && CanonicalHoldId([e], aliases, Sanitize(e, digest)) == None
  {
    var e := " " + xs;
    var aliases := Aliased(Aliased([], e), "  " + xs);
    PaddedShown(" ", xs, digest);
    AliasOverwritten(xs);
    forall a | a in aliases && a.execute == e ensures a.alias == xs[..MAX_CLIENT_ID - 1] { OwnAliasLeft(xs, a); }
    ShorterCutsFindNothing(xs, aliases, e);
  }

  lemma NoMatch(e: string, c: string)
    requires c != ResponsesCallId(e) && e != ResponsesCallId(c) && e != c && !ShareToken(e, c)
    ensures !Matches(e, c)
  {
  }

  lemma NothingElseMatches(xs: string, e: string, cut: string)
    requires AllX(xs) && |xs| == MAX_CLIENT_ID + 1 && e == " " + xs && cut == xs[..MAX_CLIENT_ID]
    ensures !Matches(e, cut)
  {
    PaddedShown(" ", xs, _ => "");
    PaddedSharesNothing(" ", xs);
    PlainForm(cut);
    assert e[0] == ' ' && cut[0] == 'x' && ("call_" + cut)[0] == 'c' && ("call_" + xs)[0] == 'c';
    NoMatch(e, cut);
  }

  lemma PlainForm(ys: string)
    requires AllX(ys) && ys != ""
    ensures Trim(ys) == ys && StripCall(ys) == ys && ResponsesCallId(ys) == "call_" + ys
  {
    TrimOfTrimmed(ys);
  }

  lemma PlainShareNothing(ys: string, zs: string)
    requires AllX(ys) && AllX(zs) && 0 < |ys| < |zs| <= MAX_CLIENT_ID
    ensures !Overlap(ys, zs)
  {
    forall t | t in Tokens(ys) ensures t !in Tokens(zs) {
      PlainTokens(ys, t);
      assert |t| != |zs|;
      if t in Tokens(zs) { PlainTokens(zs, t); }
    }
  }
}
