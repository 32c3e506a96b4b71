/** The text form of model parameters: `formatModelParamsSpec` and `parseModelParamsSpec` of src/model-params.ts. */
module ModelParamSpec {
  import opened Prelude
  import opened Text
  import opened ModelIntent

  predicate IsSeparator(c: char) { c == ',' || c == ';' || c == '\n' }

  predicate NoSeparator(s: string) { forall i | 0 <= i < |s| :: !IsSeparator(s[i]) }

  /** `split(/[,;\n]/)`. */
  function Split(s: string): (r: seq<string>)
    ensures r != []
  {
    if s == "" then [""]
    else if IsSeparator(s[0]) then [""] + Split(s[1..])
    else
      var rest := Split(s[1..]);
      [[s[0]] + rest[0]] + rest[1..]
  }

  /** The first `=`, or the length. */
  function EqualsAt(s: string): (k: nat)
    ensures k <= |s| && (k < |s| ==> s[k] == '=') && forall i | 0 <= i < k :: s[i] != '='
  {
    if s == "" || s[0] == '=' then 0 else 1 + EqualsAt(s[1..])
  }

  /** One trimmed, non-empty piece. */
  function ParsePair(pair: string): Option<Param> {
    var eq := EqualsAt(pair);
    if eq == 0 || eq == |pair| then None
    else
      var id := Trim(pair[..eq]);
      if id == "" then None else Some(Param(id, Trim(pair[eq + 1..])))
  }

  function ParsePieces(pieces: seq<string>): seq<Param> {
    if pieces == [] then []
    else
      var pair := Trim(pieces[0]);
      (if pair != "" && ParsePair(pair).Some? then [ParsePair(pair).value] else []) + ParsePieces(pieces[1..])
  }

  predicate StartsBracket(s: string) { s != "" && s[0] == '[' }

  /** Text in brackets is left to `json`, the JSON reader with its normalization. */
  function Parse(text: string, json: string -> Option<seq<Param>>): Option<seq<Param>> {
    var trimmed := Trim(text);
    if trimmed == "" then None
    else if StartsBracket(trimmed) then json(trimmed)
    else
      var params := ParsePieces(Split(trimmed));
      if params != [] then Some(params) else None
  }

  function FormatOne(p: Param): string { p.id + "=" + p.value }

  function Format(ps: seq<Param>): string {
    if ps == [] then ""
    else if |ps| == 1 then FormatOne(ps[0])
    else FormatOne(ps[0]) + "," + Format(ps[1..])
  }

  // ---- which parameters survive --------------------------------------------------------------------------

  /** An id without equals sign, and no separator or outer space in either part. */
  predicate Clean(p: Param) {
    && p.id != "" && Trimmed(p.id) && NoSeparator(p.id) && (forall i | 0 <= i < |p.id| :: p.id[i] != '=')
    && Trimmed(p.value) && NoSeparator(p.value)
  }

  predicate AllClean(ps: seq<Param>) { forall p | p in ps :: Clean(p) }

  lemma {:induction false} SplitOne(s: string)
    requires NoSeparator(s)
    ensures Split(s) == [s]
  {
    if s != "" {
      SplitOne(s[1..]);
      assert [s[0]] + s[1..] == s;
    }
  }

  lemma {:induction false} SplitComma(x: string, y: string)
    requires NoSeparator(x)
    ensures Split(x + "," + y) == [x] + Split(y)
  {
    var s := x + "," + y;
    if x == "" {
      assert s[1..] == y;
    } else {
      assert s[1..] == x[1..] + "," + y;
      SplitComma(x[1..], y);
      assert [x[0]] + x[1..] == x;
      assert ([x[1..]] + Split(y))[1..] == Split(y);
    }
  }

  lemma {:induction false} SplitPieces(s: string)
    ensures forall piece | piece in Split(s) :: NoSeparator(piece)
  {
    if s != "" {
      SplitPieces(s[1..]);
      var rest := Split(s[1..]);
      assert rest[0] in rest;
      if !IsSeparator(s[0]) {
        assert NoSeparator([s[0]] + rest[0]);
        assert forall piece | piece in rest[1..] :: piece in rest;
      }
    }
  }

  lemma EqualsAfter(id: string, value: string)
    requires forall i | 0 <= i < |id| :: id[i] != '='
    ensures EqualsAt(id + "=" + value) == |id|
  {
    var s := id + "=" + value;
    var k := EqualsAt(s);
    assert s[|id|] == '=';
    forall i | 0 <= i < |id| ensures s[i] != '=' { assert s[i] == id[i]; }
  }

  lemma FormatOneTrimmed(p: Param)
    requires Clean(p)
    ensures Trimmed(FormatOne(p)) && FormatOne(p) != "" && FormatOne(p)[0] == p.id[0] && NoSeparator(FormatOne(p))
  {
    var s := FormatOne(p);
    assert s[0] == p.id[0];
    assert s[|s| - 1] == if p.value == "" then '=' else p.value[|p.value| - 1];
    forall i | 0 <= i < |s| ensures !IsSeparator(s[i]) {
      assert s[i] == if i < |p.id| then p.id[i] else if i == |p.id| then '=' else p.value[i - |p.id| - 1];
    }
  }

  lemma ParseOne(p: Param)
    requires Clean(p)
    ensures ParsePair(FormatOne(p)) == Some(p)
  {
    var s := FormatOne(p);
    EqualsAfter(p.id, p.value);
    assert s[..|p.id|] == p.id && s[|p.id| + 1..] == p.value;
    TrimOfTrimmed(p.id);
    TrimOfTrimmed(p.value);
  }

  lemma {:induction false} FormatEnds(ps: seq<Param>)
    requires ps != [] && AllClean(ps)
    ensures Format(ps) != "" && Trimmed(Format(ps)) && ps[0].id != "" && Format(ps)[0] == ps[0].id[0]
  {
    assert ps[0] in ps;
    FormatOneTrimmed(ps[0]);
    if |ps| > 1 {
      assert forall p | p in ps[1..] :: p in ps;
      FormatEnds(ps[1..]);
      var s := Format(ps);
      assert s[|s| - 1] == Format(ps[1..])[|Format(ps[1..])| - 1];
    }
  }

  lemma PiecesCons(piece: string, rest: seq<string>, p: Param)
    requires Clean(p) && piece == FormatOne(p)
    ensures ParsePieces([piece] + rest) == [p] + ParsePieces(rest)
  {
    FormatOneTrimmed(p);
    TrimOfTrimmed(piece);
    ParseOne(p);
    assert ([piece] + rest)[1..] == rest;
  }

  lemma SplitFormat(ps: seq<Param>)
    requires ps != [] && AllClean(ps)
    ensures Split(Format(ps)) == [FormatOne(ps[0])] + (if |ps| == 1 then [] else Split(Format(ps[1..])))
  {
    assert ps[0] in ps;
    FormatOneTrimmed(ps[0]);
    if |ps| == 1 { SplitOne(FormatOne(ps[0])); } else { SplitComma(FormatOne(ps[0]), Format(ps[1..])); }
  }

  lemma {:induction false} PiecesOfFormat(ps: seq<Param>)
    requires ps != [] && AllClean(ps)
    ensures ParsePieces(Split(Format(ps))) == ps
  {
    assert ps[0] in ps && ps == [ps[0]] + ps[1..];
    SplitFormat(ps);
    if |ps| == 1 {
      PiecesCons(FormatOne(ps[0]), [], ps[0]);
    } else {
      assert forall q | q in ps[1..] :: q in ps;
      PiecesOfFormat(ps[1..]);
      PiecesCons(FormatOne(ps[0]), Split(Format(ps[1..])), ps[0]);
    }
  }

  lemma TrimKeepsNoSeparator(s: string)
    requires NoSeparator(s)
    ensures NoSeparator(Trim(s)) && Trimmed(Trim(s))
  {
    var lead, trail := TrimSplits(s);
    forall i | 0 <= i < |Trim(s)| ensures !IsSeparator(Trim(s)[i]) { assert Trim(s)[i] == s[|lead| + i]; }
  }

  lemma ParsedPairIsClean(pair: string)
    requires NoSeparator(pair) && ParsePair(pair).Some?
    ensures Clean(ParsePair(pair).value)
  {
    var eq := EqualsAt(pair);
    TrimKeepsNoSeparator(pair[..eq]);
    TrimKeepsNoSeparator(pair[eq + 1..]);
    var lead, trail := TrimSplits(pair[..eq]);
    forall i | 0 <= i < |Trim(pair[..eq])| ensures Trim(pair[..eq])[i] != '=' {
      assert Trim(pair[..eq])[i] == pair[|lead| + i];
    }
  }

  lemma {:induction false} ParsedIsClean(pieces: seq<string>)
    requires forall piece | piece in pieces :: NoSeparator(piece)
    ensures AllClean(ParsePieces(pieces))
  {
    if pieces != [] {
      assert pieces[0] in pieces;
      TrimKeepsNoSeparator(pieces[0]);
      if ParsePair(Trim(pieces[0])).Some? { ParsedPairIsClean(Trim(pieces[0])); }
      assert forall piece | piece in pieces[1..] :: piece in pieces;
      ParsedIsClean(pieces[1..]);
    }
  }

  /** Unless the text is taken for JSON, the list comes back exactly if it is not empty and every parameter is clean. */
  lemma RoundTrip(ps: seq<Param>, json: string -> Option<seq<Param>>)
    requires !StartsBracket(Trim(Format(ps)))
    ensures Parse(Format(ps), json) == Some(ps) <==> ps != [] && AllClean(ps)
  {
    var trimmed := Trim(Format(ps));
    if ps != [] && AllClean(ps) {
      FormatEnds(ps);
      TrimOfTrimmed(Format(ps));
      PiecesOfFormat(ps);
    }
    SplitPieces(trimmed);
    ParsedIsClean(Split(trimmed));
  }

  /** In particular for clean parameters whose first id does not start with a bracket. */
  lemma CleanRoundTrip(ps: seq<Param>, json: string -> Option<seq<Param>>)
    requires ps != [] && AllClean(ps) && !StartsBracket(ps[0].id)
    ensures Parse(Format(ps), json) == Some(ps)
  {
    FormatEnds(ps);
    TrimOfTrimmed(Format(ps));
    assert ps[0] in ps;
    RoundTrip(ps, json);
  }

  /** A leading bracket is taken for JSON: the outcome is whatever that reader makes of it. */
  lemma BracketGoesToJson(value: string, json: string -> Option<seq<Param>>)
    requires Trimmed(value)
    ensures Parse(Format([Param("[a", value)]), json) == json("[a=" + value)
  {
    var s := "[a=" + value;
    assert Format([Param("[a", value)]) == s;
    assert s[|s| - 1] == if value == "" then '=' else value[|value| - 1];
    TrimOfTrimmed(s);
  }
}
