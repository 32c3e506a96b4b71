/** Tool-call ids: what the client is shown, and how an id it sends back finds the hung execute. */
module ToolCallIds {
  import opened Prelude
  import opened Text

  const MAX_CLIENT_ID := 64

  predicate IsControl(c: char) {
    c <= '\U{001F}' || '\U{007F}' <= c <= '\U{009F}'
  }

  predicate HasControl(s: string) {
    exists i :: 0 <= i < |s| && IsControl(s[i])
  }

  function RemoveControl(s: string): string {
    if s == "" then "" else (if IsControl(s[0]) then "" else [s[0]]) + RemoveControl(s[1..])
  }

  /** The first line of the trimmed id, itself trimmed. */
  function FirstPart(raw: string): string {
    Trim(Lines(Trim(raw))[0])
  }

  /** `sanitizeClientToolCallId`; `digest` is the hexadecimal SHA-256 cut to 24 characters. */
  function Sanitize(raw: string, digest: string -> string): string {
    var text := Trim(raw);
    if text == "" then raw
    else
      var first := FirstPart(raw);
      if first == "" then "call_" + digest(text)
      else if |first| <= MAX_CLIENT_ID && !HasControl(first) then first
      else if HasControl(first) then
        var cleaned := RemoveControl(first);
        if cleaned != "" && |cleaned| <= MAX_CLIENT_ID then cleaned else "call_" + digest(text)
      else first[..MAX_CLIENT_ID]
  }

  function StripCall(s: string): string {
    if |s| >= 5 && s[..5] == "call_" then s[5..] else s
  }

  function ResponsesCallId(id: string): string {
    var suffix := StripCall(Trim(id));
    if suffix == "" then id else "call_" + suffix
  }

  // ---- tokens -----------------------------------------------------------------------------------

  /** The pieces of an id that are compared: the whole, its lines, and the truncation of a long one. */
  function Parts(id: string): seq<string> {
    [id] + Lines(id) + (if |id| > MAX_CLIENT_ID then [id[..MAX_CLIENT_ID]] else [])
  }

  function AddNew(out: seq<string>, token: string): (r: seq<string>)
    ensures forall t :: t in r <==> t in out || (t == token && token != "")
  {
    if token == "" || token in out then out else out + [token]
  }

  /** The tokens of the given pieces, in the insertion order of the source's set. */
  function PartTokens(parts: seq<string>, out: seq<string>): (r: seq<string>)
    ensures forall t :: t in r <==> t in out || exists p :: p in parts && IsTokenOf(p, t)
    decreases |parts|
  {
    if parts == [] then out
    else
      var trimmed := Trim(parts[0]);
      var next := if trimmed == "" then out else AddNew(AddNew(out, trimmed), StripCall(trimmed));
      var r := PartTokens(parts[1..], next);
      assert forall t :: t in next <==> t in out || IsTokenOf(parts[0], t);
      assert forall p :: p in parts <==> p == parts[0] || p in parts[1..];
      assert forall t :: t in r <==> t in next || exists p :: p in parts[1..] && IsTokenOf(p, t);
      r
  }

  predicate IsTokenOf(part: string, t: string) {
    Trim(part) != "" && t != "" && (t == Trim(part) || t == StripCall(Trim(part)))
  }

  function Tokens(id: string): seq<string> {
    PartTokens(Parts(id), [])
  }

  /** `toolCallIdTokens` fills its set piece by piece. */
  method ToolCallIdTokens(id: string) returns (out: seq<string>)
    ensures out == Tokens(id)
  {
    out := [];
    var parts := Parts(id);
    var i := 0;
    while i < |parts|
      invariant 0 <= i <= |parts| && PartTokens(parts[i..], out) == Tokens(id)
    {
      assert parts[i..][1..] == parts[i + 1..];
      var trimmed := Trim(parts[i]);
      if trimmed != "" {
        out := AddNew(out, trimmed);
        out := AddNew(out, StripCall(trimmed));
      }
      i := i + 1;
    }
    assert parts[i..] == [];
  }

  predicate ShareToken(left: string, right: string) {
    exists t :: t in Tokens(left) && t in Tokens(right)
  }

  /** `toolCallIdsOverlap`. */
  predicate Overlap(left: string, right: string) {
    left != "" && right != "" && (left == right || ShareToken(left, right))
  }

  lemma PartIsToken(id: string, part: string)
    requires part in Parts(id) && Trim(part) != ""
    ensures Trim(part) in Tokens(id)
    ensures StripCall(Trim(part)) != "" ==> StripCall(Trim(part)) in Tokens(id)
  {
    assert IsTokenOf(part, Trim(part));
  }

  // ---- finding the pending execute ----------------------------------------------------------------

  datatype Alias = Alias(alias: string, execute: string)

  function LookupAlias(aliases: seq<Alias>, id: string): Option<string> {
    if aliases == [] then None
    else if aliases[0].alias == id then Some(aliases[0].execute)
    else LookupAlias(aliases[1..], id)
  }

  predicate Matches(pendingId: string, clientId: string) {
    clientId == ResponsesCallId(pendingId) || pendingId == ResponsesCallId(clientId) || Overlap(pendingId, clientId)
  }

  function FirstMatch(pending: seq<string>, clientId: string): (r: Option<string>)
    ensures r.Some? ==> r.value in pending && Matches(r.value, clientId)
    ensures r.None? ==> forall p | p in pending :: !Matches(p, clientId)
  {
    if pending == [] then None
    else if Matches(pending[0], clientId) then Some(pending[0])
    else FirstMatch(pending[1..], clientId)
  }

  function FirstAliasMatch(pending: seq<string>, aliases: seq<Alias>, clientId: string): (r: Option<string>)
    ensures r.Some? ==> r.value in pending
  {
    if aliases == [] then None
    else if aliases[0].execute in pending && Overlap(aliases[0].alias, clientId) then Some(aliases[0].execute)
    else FirstAliasMatch(pending, aliases[1..], clientId)
  }

  /** `canonicalHoldId`; `pending` and `aliases` are in the insertion order of their maps. */
  function CanonicalHoldId(pending: seq<string>, aliases: seq<Alias>, clientId: string): (r: Option<string>)
    ensures r.Some? ==> r.value in pending
  {
    if clientId == "" then None
    else if clientId in pending then Some(clientId)
    else
      var aliased := LookupAlias(aliases, clientId);
      if aliased.Some? && aliased.value != "" && aliased.value in pending then aliased
      else
        var found := FirstMatch(pending, clientId);
        if found.Some? then found else FirstAliasMatch(pending, aliases, clientId)
  }

  /** The aliases `registerHold` remembers: the Responses form and the tokens of the execute id. */
  ghost predicate AliasesFromHolds(aliases: seq<Alias>) {
    forall a | a in aliases :: a.alias == ResponsesCallId(a.execute) || a.alias in Tokens(a.execute)
  }

  lemma {:induction false} AliasIsListed(aliases: seq<Alias>, id: string)
    requires LookupAlias(aliases, id).Some?
    ensures Alias(id, LookupAlias(aliases, id).value) in aliases
  {
    if aliases[0].alias != id { AliasIsListed(aliases[1..], id); }
  }

  // ---- the round trip ---------------------------------------------------------------------------------

  /** The ids whose visible form is a piece of them: their first line has no control character. */
  predicate Readable(e: string) { e != "" && !HasControl(FirstPart(e)) }

  /**
   The readable ids whose visible form is one of their own tokens: a first line that is cut to 64
   characters starts the id, so that the cut is where the tokens cut the id.
   */
  predicate CutIsOwnToken(e: string) {
    Readable(e) && (|FirstPart(e)| <= MAX_CLIENT_ID || !IsSpace(e[0]))
  }

  /** `shown` is a one-line cut of `e` whose trimmed form is a piece of `e`. */
  predicate CutOf(e: string, shown: string) {
    && |shown| <= MAX_CLIENT_ID && Trim(shown) != "" && !IsSpace(shown[0])
    && (forall i | 0 <= i < |shown| :: !IsNewline(shown[i]))
    && exists p :: p in Parts(e) && Trim(p) == Trim(shown)
  }

  /** A line that starts with a visible character loses only trailing white space. */
  lemma TrimOfLine(line: string)
    requires line != "" && !IsSpace(line[0])
    ensures Trim(line) != "" && Trimmed(Trim(line)) && |Trim(line)| <= |line| && line[..|Trim(line)|] == Trim(line)
  {
    TrimStartOf("", line);
    assert "" + line == line;
    var trail := TrimEndSplits(line);
    BlankIsAllSpace(line);
  }

  lemma FirstPartOfTrimmed(text: string)
    requires Trimmed(text) && text != ""
    ensures
      var first := Trim(FirstLine(text));
      first != "" && Trimmed(first) && first[0] == text[0] && |first| <= |text| && text[..|first|] == first
  {
    FirstLineSplits(text);
    var line := FirstLine(text);
    assert line[0] == text[0];
    TrimOfLine(line);
    assert text[..|line|][..|Trim(line)|] == text[..|Trim(line)|];
  }

  /** The first line of the trimmed id is, padded with white space, a line of the id. */
  lemma FirstLineIsLine(lead: string, text: string, trail: string) returns (i: nat)
    requires AllSpace(lead) && AllSpace(trail) && Trimmed(text) && text != ""
    ensures i < |Lines(lead + text + trail)| && Trim(Lines(lead + text + trail)[i]) == Trim(FirstLine(text))
  {
    assert lead + text + trail == lead + (text + trail);
    var pad;
    i, pad := LineAfterSpace(lead, text + trail);
    FirstLineOfPadded(text, trail);
    var after :| FirstLine(text + trail) == FirstLine(text) + after && AllSpace(after);
    assert pad + (FirstLine(text) + after) == pad + FirstLine(text) + after;
    TrimOfPadded(pad, FirstLine(text), after);
  }

  lemma FirstPartIsPart(e: string)
    requires Trim(e) != ""
    ensures exists p :: p in Parts(e) && Trim(p) == FirstPart(e)
  {
    var lead, trail := TrimSplits(e);
    var i := FirstLineIsLine(lead, Trim(e), trail);
    assert Lines(e)[i] in Parts(e);
  }

  /** The first part of an id that does not start with white space is a prefix of the id. */
  lemma FirstPartIsPrefix(e: string)
    requires e != "" && !IsSpace(e[0])
    ensures Trim(e) != "" && FirstPart(e) != "" && |FirstPart(e)| <= |e| && e[..|FirstPart(e)|] == FirstPart(e)
  {
    BlankIsAllSpace(e);
    TrimStartOf("", e);
    assert "" + e == e;
    var trail := TrimEndSplits(e);
    assert e == Trim(e) + trail;
    var _, _ := TrimSplits(e);
    FirstPartOfTrimmed(Trim(e));
  }

  lemma LongIdIsCut(e: string, digest: string -> string)
    requires CutIsOwnToken(e) && |FirstPart(e)| > MAX_CLIENT_ID
    ensures CutOf(e, Sanitize(e, digest))
  {
    FirstPartIsPrefix(e);
    var shown := Sanitize(e, digest);
    NoNewlineIn(FirstPart(e), shown);
    assert shown == e[..MAX_CLIENT_ID];
    assert e[..MAX_CLIENT_ID] in Parts(e);
    BlankIsAllSpace(shown);
  }

  lemma ShortIdIsCut(e: string, digest: string -> string)
    requires Trim(e) != "" && Trimmed(Trim(e)) && !HasControl(FirstPart(e)) && |FirstPart(e)| <= MAX_CLIENT_ID
    ensures CutOf(e, Sanitize(e, digest))
  {
    FirstPartOfTrimmed(Trim(e));
    var first := FirstPart(e);
    assert Sanitize(e, digest) == first;
    TrimOfTrimmed(first);
    NoNewlineIn(first, first);
    FirstPartIsPart(e);
  }

  lemma ShownIsCut(e: string, digest: string -> string)
    requires CutIsOwnToken(e) && Trim(e) != ""
    ensures CutOf(e, Sanitize(e, digest))
  {
    if |FirstPart(e)| <= MAX_CLIENT_ID {
      var _, _ := TrimSplits(e);
      ShortIdIsCut(e, digest);
    } else {
      LongIdIsCut(e, digest);
    }
  }

  lemma NoNewlineIn(first: string, shown: string)
    requires !HasControl(first) && |shown| <= |first| && shown == first[..|shown|]
    ensures forall i | 0 <= i < |shown| :: !IsNewline(shown[i])
  {
    forall i | 0 <= i < |shown| ensures !IsNewline(shown[i]) {
      assert shown[i] == first[i] && !IsControl(first[i]);
    }
  }

  /** White space after the text only pads its first line. */
  lemma {:induction false} FirstLineOfPadded(text: string, trail: string)
    requires AllSpace(trail)
    ensures exists pad :: FirstLine(text + trail) == FirstLine(text) + pad && AllSpace(pad)
  {
    if text == "" {
      FirstLineSplits(trail);
      assert text + trail == trail;
      assert FirstLine(trail) == "" + FirstLine(trail);
    } else if !IsNewline(text[0]) {
      assert (text + trail)[1..] == text[1..] + trail;
      FirstLineOfPadded(text[1..], trail);
      var pad :| FirstLine(text[1..] + trail) == FirstLine(text[1..]) + pad && AllSpace(pad);
      assert FirstLine(text + trail) == FirstLine(text) + pad;
    } else {
      assert FirstLine(text + trail) == FirstLine(text) + "";
    }
  }

  lemma CutHasOwnToken(e: string, c: string)
    requires CutOf(e, c)
    ensures Trim(c) in Tokens(c) && Trim(c) in Tokens(e)
    ensures StripCall(Trim(c)) != "" ==> StripCall(Trim(c)) in Tokens(e)
  {
    var p :| p in Parts(e) && Trim(p) == Trim(c);
    PartIsToken(e, p);
    PartIsToken(c, c);
  }

  /** A cut has one part: itself. */
  lemma CutIsItsPart(e: string, c: string, t: string)
    requires CutOf(e, c) && t in Tokens(c)
    ensures t != "" && (t == Trim(c) || t == StripCall(Trim(c)))
  {
    var q := TokenSource(c, t);
    OneLine(c);
    assert q == c;
  }

  /** The tokens of a cut are its trimmed form and that form without `call_`, and both belong to `e`. */
  lemma CutTokens(e: string, c: string)
    requires CutOf(e, c)
    ensures Trim(c) in Tokens(c) && Trim(c) in Tokens(e)
    ensures forall t | t in Tokens(c) :: t in Tokens(e) && (t == Trim(c) || t == StripCall(Trim(c)))
  {
    CutHasOwnToken(e, c);
    forall t | t in Tokens(c) ensures t in Tokens(e) && (t == Trim(c) || t == StripCall(Trim(c))) {
      CutIsItsPart(e, c, t);
    }
  }

  /** The Responses form of an id ends where the id ends, and strips back to the stripped id. */
  lemma ResponsesForm(x: string)
    requires Trim(x) != "" && StripCall(Trim(x)) != ""
    ensures
      var r := ResponsesCallId(x);
      Trimmed(r) && Trim(r) == r && StripCall(r) == StripCall(Trim(x)) && StripCall(Trim(x)) in Tokens(x) && StripCall(Trim(x)) in Tokens(r)
  {
    var _, _ := TrimSplits(x);
    var r := ResponsesCallId(x);
    assert r[|r| - 1] == Trim(x)[|Trim(x)| - 1];
    assert r[..5] == "call_";
    TrimOfTrimmed(r);
    PartIsToken(x, x);
    PartIsToken(r, r);
  }

  lemma ResponsesFormShares(x: string)
    requires x != ""
    ensures Overlap(x, ResponsesCallId(x)) && Overlap(ResponsesCallId(x), x)
  {
    if StripCall(Trim(x)) != "" {
      var _, _ := TrimSplits(x);
      ResponsesForm(x);
    }
  }

  lemma MatchOverlaps(pendingId: string, clientId: string)
    requires Matches(pendingId, clientId) && clientId != "" && pendingId != ""
    ensures Overlap(pendingId, clientId)
  {
    ResponsesFormShares(pendingId);
    ResponsesFormShares(clientId);
  }

  /**
   A client id without leading white space that overlaps a pending id finds a hold; with no other aliases than those
   of `registerHold`, one it overlaps.
   */
  lemma OverlapIsFound(pending: seq<string>, aliases: seq<Alias>, e: string, clientId: string)
    requires e in pending && "" !in pending && Overlap(e, clientId) && !IsSpace(clientId[0])
    ensures
      var r := CanonicalHoldId(pending, aliases, clientId);
      r.Some? && (AliasesFromHolds(aliases) ==> Overlap(r.value, clientId))
  {
    if clientId !in pending {
      var aliased := LookupAlias(aliases, clientId);
      if aliased.Some? && aliased.value != "" && aliased.value in pending {
        AliasIsListed(aliases, clientId);
        if AliasesFromHolds(aliases) { AliasOverlaps(aliased.value, clientId); }
      } else {
        var found := FirstMatch(pending, clientId);
        assert Matches(e, clientId);
        MatchOverlaps(found.value, clientId);
      }
    }
  }

  lemma AliasOverlaps(execute: string, alias: string)
    requires execute != "" && alias != "" && !IsSpace(alias[0])
    requires alias == ResponsesCallId(execute) || alias in Tokens(execute)
    ensures Overlap(execute, alias)
  {
    if alias == ResponsesCallId(execute) {
      ResponsesFormShares(execute);
    } else {
      TokensEndWell(execute, alias);
      TrimOfTrimmed(alias);
      PartIsToken(alias, alias);
    }
  }

  lemma TokenOfEndsWell(p: string, t: string)
    requires IsTokenOf(p, t)
    ensures t != "" && !IsSpace(t[|t| - 1])
  {
    TrimmedEnds(p);
  }

  /** A token never ends in white space. */
  lemma TokensEndWell(id: string, t: string)
    requires t in Tokens(id)
    ensures t != "" && !IsSpace(t[|t| - 1])
  {
    var p := TokenSource(id, t);
    TokenOfEndsWell(p, t);
  }

  lemma TokenSource(id: string, t: string) returns (p: string)
    requires t in Tokens(id)
    ensures p in Parts(id) && IsTokenOf(p, t)
  {
    p :| p in Parts(id) && IsTokenOf(p, t);
  }

  ghost predicate DisjointTokens(pending: seq<string>) {
    forall p, q | p in pending && q in pending && p != q :: !ShareToken(p, q)
  }

  /**
   The visible id, and its Responses form, find a pending hold whatever the aliases; with no other aliases than
   those of `registerHold`, one that shares a token with them.
   */
  lemma VisibleIdIsFound(pending: seq<string>, aliases: seq<Alias>, e: string, digest: string -> string)
    requires e in pending && "" !in pending && CutIsOwnToken(e) && Trim(e) != ""
    ensures
      var shown := Sanitize(e, digest);
      && Overlap(e, shown)
      && CanonicalHoldId(pending, aliases, shown).Some?
      && CanonicalHoldId(pending, aliases, ResponsesCallId(shown)).Some?
    ensures
      var shown := Sanitize(e, digest);
      AliasesFromHolds(aliases) ==>
        && Overlap(CanonicalHoldId(pending, aliases, shown).value, shown)
        && Overlap(CanonicalHoldId(pending, aliases, ResponsesCallId(shown)).value, ResponsesCallId(shown))
  {
    var shown := Sanitize(e, digest);
    ShownIsCut(e, digest);
    CutTokens(e, shown);
    OverlapIsFound(pending, aliases, e, shown);
    var form := ResponsesCallId(shown);
    if StripCall(Trim(shown)) != "" {
      ResponsesForm(shown);
      assert StripCall(Trim(shown)) in Tokens(e);
      OverlapIsFound(pending, aliases, e, form);
    }
  }

  /** With pairwise disjoint tokens the visible id leads back to exactly the execute it was made from. */
  lemma VisibleIdRoundTrip(pending: seq<string>, aliases: seq<Alias>, e: string, digest: string -> string)
    requires e in pending && "" !in pending && AliasesFromHolds(aliases) && CutIsOwnToken(e)
    requires DisjointTokens(pending)
    ensures CanonicalHoldId(pending, aliases, Sanitize(e, digest)) == Some(e)
  {
    if Trim(e) != "" {
      var shown := Sanitize(e, digest);
      ShownIsCut(e, digest);
      CutTokens(e, shown);
      VisibleIdIsFound(pending, aliases, e, digest);
      var r := CanonicalHoldId(pending, aliases, shown).value;
      if ShareToken(r, shown) {
        var t :| t in Tokens(r) && t in Tokens(shown);
        assert t in Tokens(e);
      } else {
        assert r == shown;
      }
      assert ShareToken(r, e);
    }
  }

  lemma {:induction false} OneLine(s: string)
    requires forall i | 0 <= i < |s| :: !IsNewline(s[i])
    ensures FirstLine(s) == s && Lines(s) == [s]
  {
    FirstLinePrefix(s, "");
    assert s + "" == s && FirstLine("") == "";
  }
}
