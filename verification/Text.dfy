/** The JavaScript string operations the gateway relies on: `trim`, lower-casing and splitting. */
module Text {

  /** White space and line terminators as `String.prototype.trim` removes them. */
  predicate IsSpace(c: char) {
    || '\U{0009}' <= c <= '\U{000D}'
    || c == ' ' || c == '\U{00A0}' || c == '\U{1680}'
    || '\U{2000}' <= c <= '\U{200A}'
    || c == '\U{2028}' || c == '\U{2029}' || c == '\U{202F}' || c == '\U{205F}' || c == '\U{3000}' || c == '\U{FEFF}'
  }

  function TrimStart(s: string): string {
    if s != "" && IsSpace(s[0]) then TrimStart(s[1..]) else s
  }

  function TrimEnd(s: string): string {
    if s != "" && IsSpace(s[|s| - 1]) then TrimEnd(s[..|s| - 1]) else s
  }

  function Trim(s: string): string {
    TrimEnd(TrimStart(s))
  }

  predicate AllSpace(s: string) {
    forall i | 0 <= i < |s| :: IsSpace(s[i])
  }

  /** Nothing to trim. */
  predicate Trimmed(s: string) {
    s != "" ==> !IsSpace(s[0]) && !IsSpace(s[|s| - 1])
  }

  lemma {:induction false} TrimStartSplits(s: string) returns (lead: string)
    ensures s == lead + TrimStart(s) && AllSpace(lead)
    ensures TrimStart(s) != "" ==> !IsSpace(TrimStart(s)[0])
  {
    if s != "" && IsSpace(s[0]) {
      var rest := TrimStartSplits(s[1..]);
      lead := [s[0]] + rest;
      assert s == [s[0]] + s[1..];
    } else {
      lead := "";
    }
  }

  lemma {:induction false} TrimEndSplits(s: string) returns (trail: string)
    ensures s == TrimEnd(s) + trail && AllSpace(trail)
    ensures TrimEnd(s) != "" ==> !IsSpace(TrimEnd(s)[|TrimEnd(s)| - 1])
  {
    if s != "" && IsSpace(s[|s| - 1]) {
      var rest := TrimEndSplits(s[..|s| - 1]);
      trail := rest + [s[|s| - 1]];
      assert s == s[..|s| - 1] + [s[|s| - 1]];
    } else {
      trail := "";
    }
  }

  /** What is cut off is white space, and what is left cannot be trimmed further. */
  lemma TrimSplits(s: string) returns (lead: string, trail: string)
    ensures s == lead + Trim(s) + trail && AllSpace(lead) && AllSpace(trail) && Trimmed(Trim(s))
  {
    lead := TrimStartSplits(s);
    trail := TrimEndSplits(TrimStart(s));
    assert TrimStart(s) == Trim(s) + trail;
    assert s == lead + (Trim(s) + trail);
  }

  lemma {:induction false} TrimStartOf(lead: string, core: string)
    requires AllSpace(lead) && (core != "" ==> !IsSpace(core[0]))
    ensures TrimStart(lead + core) == core
  {
    if lead != "" {
      assert (lead + core)[1..] == lead[1..] + core;
      TrimStartOf(lead[1..], core);
    } else {
      assert lead + core == core;
    }
  }

  lemma {:induction false} TrimEndOf(core: string, trail: string)
    requires AllSpace(trail) && (core != "" ==> !IsSpace(core[|core| - 1]))
    ensures TrimEnd(core + trail) == core
  {
    if trail != "" {
      var n := |trail| - 1;
      assert (core + trail)[..|core + trail| - 1] == core + trail[..n];
      assert (core + trail)[|core + trail| - 1] == trail[n];
      TrimEndOf(core, trail[..n]);
    } else {
      assert core + trail == core;
    }
  }

  /** The only trimmed core between white space is the trim. */
  lemma TrimUnique(lead: string, core: string, trail: string)
    requires AllSpace(lead) && AllSpace(trail) && Trimmed(core)
    ensures Trim(lead + core + trail) == core
  {
    if core == "" {
      assert lead + core + trail == (lead + trail) + "";
      TrimStartOf(lead + trail, "");
    } else {
      assert lead + core + trail == lead + (core + trail);
      TrimStartOf(lead, core + trail);
      TrimEndOf(core, trail);
    }
  }

  lemma TrimOfTrimmed(s: string)
    requires Trimmed(s)
    ensures Trim(s) == s
  {
    TrimUnique("", s, "");
    assert "" + s + "" == s;
  }

  /** Padding with white space does not change the trim. */
  lemma TrimOfPadded(lead: string, s: string, trail: string)
    requires AllSpace(lead) && AllSpace(trail)
    ensures Trim(lead + s + trail) == Trim(s)
  {
    var l, t := TrimSplits(s);
    assert lead + s + trail == (lead + l) + Trim(s) + (t + trail);
    TrimUnique(lead + l, Trim(s), t + trail);
  }

  lemma BlankIsAllSpace(s: string)
    ensures Trim(s) == "" <==> AllSpace(s)
  {
    var lead, trail := TrimSplits(s);
    if Trim(s) == "" { assert s == lead + trail; }
    if AllSpace(s) { TrimOfPadded(s, "", ""); assert s + "" + "" == s; }
  }

  lemma TrimmedEnds(s: string)
    requires Trim(s) != ""
    ensures !IsSpace(Trim(s)[0]) && !IsSpace(Trim(s)[|Trim(s)| - 1])
  {
    var _, _ := TrimSplits(s);
  }

  // ---- lower case (ASCII letters) ----------------------------------------------------------------

  function LowerChar(c: char): char {
    if 'A' <= c <= 'Z' then (c as int + 32) as char else c
  }

  function Lower(s: string): (r: string)
    ensures |r| == |s| && forall i | 0 <= i < |s| :: r[i] == LowerChar(s[i])
  {
    if s == "" then "" else [LowerChar(s[0])] + Lower(s[1..])
  }

  lemma LowerTrimmed(s: string)
    requires Trimmed(s)
    ensures Trimmed(Lower(s)) && Lower(Lower(s)) == Lower(s) && (Lower(s) == "" <==> s == "")
  {
  }

  /** `trim().toLowerCase()`: the form in which model names are compared. */
  function Normalize(s: string): string {
    Lower(Trim(s))
  }

  lemma NormalizeIdempotent(s: string)
    ensures Normalize(Normalize(s)) == Normalize(s) && Normalize(Trim(s)) == Normalize(s)
    ensures Normalize(s) == "" <==> Trim(s) == ""
  {
    var _, _ := TrimSplits(s);
    LowerTrimmed(Trim(s));
    TrimOfTrimmed(Lower(Trim(s)));
    TrimOfTrimmed(Trim(s));
  }

  // ---- lines ----------------------------------------------------------------------------------------

  predicate IsNewline(c: char) { c == '\r' || c == '\n' }

  function FirstLine(s: string): string {
    if s == "" || IsNewline(s[0]) then "" else [s[0]] + FirstLine(s[1..])
  }

  function SkipNewlines(s: string): string {
    if s != "" && IsNewline(s[0]) then SkipNewlines(s[1..]) else s
  }

  lemma {:induction false} FirstLineSplits(s: string)
    ensures |FirstLine(s)| <= |s| && s[..|FirstLine(s)|] == FirstLine(s)
    ensures forall c | c in FirstLine(s) :: !IsNewline(c)
    ensures |FirstLine(s)| < |s| ==> IsNewline(s[|FirstLine(s)|])
  {
    if s != "" && !IsNewline(s[0]) { FirstLineSplits(s[1..]); }
  }

  lemma {:induction false} SkipNewlinesShrinks(s: string)
    ensures |SkipNewlines(s)| <= |s|
    ensures s != "" && IsNewline(s[0]) ==> |SkipNewlines(s)| < |s|
  {
    if s != "" && IsNewline(s[0]) { SkipNewlinesShrinks(s[1..]); }
  }

  /** `split(/[\r\n]+/)`. */
  function Lines(s: string): (parts: seq<string>)
    ensures parts != [] && parts[0] == FirstLine(s)
    decreases |s|
  {
    var first := FirstLine(s);
    FirstLineSplits(s);
    if |first| == |s| then [s]
    else
      SkipNewlinesShrinks(s[|first|..]);
      [first] + Lines(SkipNewlines(s[|first|..]))
  }

  /** With only white space in front, some line holds the white space directly before `rest` and its first line. */
  lemma {:induction false} LineAfterSpace(lead: string, rest: string) returns (i: nat, pad: string)
    requires AllSpace(lead) && rest != "" && !IsSpace(rest[0])
    ensures i < |Lines(lead + rest)| && Lines(lead + rest)[i] == pad + FirstLine(rest) && AllSpace(pad)
    decreases |lead|
  {
    var s := lead + rest;
    if exists k :: 0 <= k < |lead| && IsNewline(lead[k]) {
      FirstLineOfLead(lead, rest);
      var first := FirstLine(s);
      var tail := lead[|first|..];
      assert s[|first|..] == tail + rest;
      SkipInLead(tail, rest);
      SkipNewlinesShrinks(tail);
      SkipNewlinesSuffix(tail);
      i, pad := LineAfterSpace(SkipNewlines(tail), rest);
      i := i + 1;
    } else {
      FirstLinePrefix(lead, rest);
      i, pad := 0, lead;
    }
  }

  lemma {:induction false} FirstLinePrefix(lead: string, rest: string)
    requires forall k | 0 <= k < |lead| :: !IsNewline(lead[k])
    ensures FirstLine(lead + rest) == lead + FirstLine(rest)
  {
    if lead == "" {
      assert lead + rest == rest;
    } else {
      assert (lead + rest)[1..] == lead[1..] + rest;
      FirstLinePrefix(lead[1..], rest);
    }
  }

  lemma {:induction false} FirstLineOfLead(lead: string, rest: string)
    requires exists k :: 0 <= k < |lead| && IsNewline(lead[k])
    ensures FirstLine(lead + rest) == FirstLine(lead) && |FirstLine(lead)| < |lead|
    ensures IsNewline(lead[|FirstLine(lead)|])
  {
    if !IsNewline(lead[0]) {
      assert (lead + rest)[1..] == lead[1..] + rest;
      var k :| 0 <= k < |lead| && IsNewline(lead[k]);
      assert IsNewline(lead[1..][k - 1]);
      FirstLineOfLead(lead[1..], rest);
    }
  }

  lemma {:induction false} SkipInLead(lead: string, rest: string)
    requires rest != "" && !IsNewline(rest[0])
    ensures SkipNewlines(lead + rest) == SkipNewlines(lead) + rest
  {
    if lead == "" {
      assert lead + rest == rest;
    } else {
      assert (lead + rest)[1..] == lead[1..] + rest;
      if IsNewline(lead[0]) { SkipInLead(lead[1..], rest); }
    }
  }

  lemma {:induction false} SkipNewlinesSuffix(s: string)
    ensures exists k :: 0 <= k <= |s| && SkipNewlines(s) == s[k..]
  {
    if s != "" && IsNewline(s[0]) {
      SkipNewlinesSuffix(s[1..]);
      var k :| 0 <= k <= |s[1..]| && SkipNewlines(s[1..]) == s[1..][k..];
      assert s[1..][k..] == s[k + 1..];
    } else {
      assert s == s[0..];
    }
  }
}
