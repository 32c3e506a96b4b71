/** `anthropicStream` of src/server.ts: a block grammar independent of the encoder, and the encoder. */
module AnthropicStream {
  import opened Prelude
  import opened CallIds
  import opened ResponsesWire
  import opened ToolCallIds

  datatype Visibility = Off | Omitted | Full

  datatype BlockKind = TextKind | ThinkingKind | ToolKind(id: string, name: string)

  datatype Part =
    | MessageStart
    | BlockStart(index: nat, kind: BlockKind)
    | TextDelta(index: nat, text: string)
    | ThinkingDelta(index: nat, text: string)
    | SignatureDelta(index: nat)
    | InputDelta(index: nat, json: string)
    | BlockStop(index: nat)
    | MessageDelta(toolUse: bool)
    | MessageStop
    | ErrorPart

  // ---- the grammar --------------------------------------------------------------------------------------

  /** A block as a client puts it together. */
  datatype Block = TextBlock(text: string) | ThinkingBlock(text: string) | ToolBlock(id: string, name: string, json: string)

  /** In a block: its kind, what came of it, and whether its closing part (signature, input) has come. */
  datatype Stream =
    | Silent
    | Outside(blocks: seq<Block>)
    | Within(blocks: seq<Block>, kind: BlockKind, text: string, sealed: bool)
    | Ending(blocks: seq<Block>, toolUse: bool)
    | Ended(blocks: seq<Block>, toolUse: bool)
    | Aborted
    | Malformed

  function Made(kind: BlockKind, text: string): Block {
    match kind
    case TextKind => TextBlock(text)
    case ThinkingKind => ThinkingBlock(text)
    case ToolKind(id, name) => ToolBlock(id, name, text)
  }

  predicate At(s: Stream, index: nat) { s.Within? && index == |s.blocks| }

  /** Blocks count from zero and do not overlap; thinking is signed once, at its end; a tool gets its input once. */
  function StreamStep(s: Stream, p: Part): Stream {
    match p
    case MessageStart => if s == Silent then Outside([]) else Malformed
    case BlockStart(index, kind) =>
      if s.Outside? && index == |s.blocks| then Within(s.blocks, kind, "", false) else Malformed
    case TextDelta(index, text) =>
      if At(s, index) && s.kind == TextKind && text != "" then s.(text := s.text + text) else Malformed
    case ThinkingDelta(index, text) =>
      if At(s, index) && s.kind == ThinkingKind && !s.sealed && text != "" then s.(text := s.text + text) else Malformed
    case SignatureDelta(index) =>
      if At(s, index) && s.kind == ThinkingKind && !s.sealed then s.(sealed := true) else Malformed
    case InputDelta(index, json) =>
      if At(s, index) && s.kind.ToolKind? && !s.sealed then s.(text := json, sealed := true) else Malformed
    case BlockStop(index) =>
      if At(s, index) && (s.kind == TextKind || s.sealed) then Outside(s.blocks + [Made(s.kind, s.text)]) else Malformed
    case MessageDelta(toolUse) => if s.Outside? then Ending(s.blocks, toolUse) else Malformed
    case MessageStop => if s.Ending? then Ended(s.blocks, s.toolUse) else Malformed
    case ErrorPart => if s.Ended? || s.Aborted? || s.Malformed? then Malformed else Aborted
  }

  function Read(parts: seq<Part>): Stream {
    if parts == [] then Silent else StreamStep(Read(parts[..|parts| - 1]), parts[|parts| - 1])
  }

  lemma ReadSnoc(parts: seq<Part>, p: Part)
    ensures Read(parts + [p]) == StreamStep(Read(parts), p)
  {
    assert (parts + [p])[..|parts|] == parts;
  }

  // ---- what the grammar means ---------------------------------------------------------------------------

  function Starts(parts: seq<Part>): nat {
    if parts == [] then 0 else Starts(parts[..|parts| - 1]) + (if parts[|parts| - 1].BlockStart? then 1 else 0)
  }

  function Stops(parts: seq<Part>): nat {
    if parts == [] then 0 else Stops(parts[..|parts| - 1]) + (if parts[|parts| - 1].BlockStop? then 1 else 0)
  }

  function BlocksOf(s: Stream): seq<Block> {
    if s.Outside? || s.Within? || s.Ending? || s.Ended? then s.blocks else []
  }

  lemma {:induction false} StartsAndStops(parts: seq<Part>)
    requires !Read(parts).Malformed? && !Read(parts).Aborted?
    ensures Stops(parts) == |BlocksOf(Read(parts))|
    ensures Starts(parts) == Stops(parts) + (if Read(parts).Within? then 1 else 0)
  {
    if parts != [] { StartsAndStops(parts[..|parts| - 1]); }
  }

  lemma {:induction false} PrefixReads(parts: seq<Part>, k: nat)
    requires k <= |parts| && !Read(parts).Malformed?
    ensures !Read(parts[..k]).Malformed? && (k < |parts| ==> !Read(parts[..k]).Aborted?)
    decreases |parts|
  {
    var n := |parts| - 1;
    if k < |parts| {
      PrefixReads(parts[..n], k);
      assert parts[..n][..k] == parts[..k];
      if k == n { assert parts[..k] == parts[..n]; }
    } else {
      assert parts[..k] == parts;
    }
  }

  lemma PrefixStep(parts: seq<Part>, k: nat)
    requires k < |parts| && !Read(parts).Malformed?
    ensures !Read(parts[..k]).Malformed? && !Read(parts[..k]).Aborted?
    ensures !StreamStep(Read(parts[..k]), parts[k]).Malformed?
  {
    PrefixReads(parts, k + 1);
    PrefixReads(parts, k);
    ReadSnoc(parts[..k], parts[k]);
    assert parts[..k + 1] == parts[..k] + [parts[k]];
  }

  /** The n-th block carries index n on its start, and a start comes only when every earlier block has stopped. */
  lemma IndicesCount(parts: seq<Part>, k: nat)
    requires k < |parts| && !Read(parts).Malformed? && parts[k].BlockStart?
    ensures parts[k].index == Starts(parts[..k]) == Stops(parts[..k])
  {
    PrefixStep(parts, k);
    StartsAndStops(parts[..k]);
  }

  /** Signatures since the last block started. */
  function Signatures(parts: seq<Part>): nat {
    if parts == [] then 0
    else
      match parts[|parts| - 1]
      case BlockStart(_, _) => 0
      case SignatureDelta(_) => Signatures(parts[..|parts| - 1]) + 1
      case _ => Signatures(parts[..|parts| - 1])
  }

  lemma {:induction false} SignaturesInside(parts: seq<Part>)
    requires Read(parts).Within?
    ensures Signatures(parts) == if Read(parts).kind == ThinkingKind && Read(parts).sealed then 1 else 0
  {
    if Read(parts[..|parts| - 1]).Within? { SignaturesInside(parts[..|parts| - 1]); }
  }

  /** Each block that stops has exactly one signature if it is a thinking block, and none otherwise. */
  lemma OneSignatureEach(parts: seq<Part>, k: nat)
    requires k < |parts| && !Read(parts).Malformed? && parts[k].BlockStop?
    ensures Read(parts[..k]).Within?
    ensures Signatures(parts[..k]) == if Read(parts[..k]).kind == ThinkingKind then 1 else 0
  {
    PrefixStep(parts, k);
    SignaturesInside(parts[..k]);
  }

  // ---- what the stream should carry ------------------------------------------------------------------------

  function ToolId(call: ToolCall, o: Oracles): string {
    var shown := Sanitize(call.id, o.digest);
    if shown != "" then shown else call.id
  }

  function Shown(visibility: Visibility, t: string): string { if visibility == Full then t else "" }

  /** One more event on the blocks: text and visible thinking join a neighbour of their kind. */
  function FeedBlocks(blocks: seq<Block>, e: StreamEvent, visibility: Visibility, o: Oracles): seq<Block> {
    var n := |blocks|;
    match e
    case TextEvent(t) =>
      if t == "" then blocks
      else if n > 0 && blocks[n - 1].TextBlock? then blocks[..n - 1] + [TextBlock(blocks[n - 1].text + t)]
      else blocks + [TextBlock(t)]
    case ThinkingEvent(t) =>
      if t == "" || visibility == Off then blocks
      else if n > 0 && blocks[n - 1].ThinkingBlock? then
        blocks[..n - 1] + [ThinkingBlock(blocks[n - 1].text + Shown(visibility, t))]
      else blocks + [ThinkingBlock(Shown(visibility, t))]
    case CallEvent(call) => blocks + [ToolBlock(ToolId(call, o), call.name, call.arguments)]
    case DoneEvent(_) => blocks
  }

  function Blocks(events: seq<StreamEvent>, visibility: Visibility, o: Oracles): seq<Block> {
    if events == [] then []
    else FeedBlocks(Blocks(events[..|events| - 1], visibility, o), events[|events| - 1], visibility, o)
  }

  /** The calls the stop reason looks at: a result replaces what was seen before. */
  function CallsAfter(calls: seq<ToolCall>, e: StreamEvent): seq<ToolCall> {
    match e
    case CallEvent(call) => calls + [call]
    case DoneEvent(result) => result.toolCalls
    case _ => calls
  }

  function FinalCalls(events: seq<StreamEvent>): seq<ToolCall> {
    if events == [] then [] else CallsAfter(FinalCalls(events[..|events| - 1]), events[|events| - 1])
  }

  function BlockText(blocks: seq<Block>): string {
    if blocks == [] then ""
    else BlockText(blocks[..|blocks| - 1]) + (if blocks[|blocks| - 1].TextBlock? then blocks[|blocks| - 1].text else "")
  }

  lemma BlockTextSnoc(blocks: seq<Block>, b: Block)
    ensures BlockText(blocks + [b]) == BlockText(blocks) + (if b.TextBlock? then b.text else "")
  {
    assert (blocks + [b])[..|blocks|] == blocks;
  }

  /** The last block is replaced by one of its kind with more text. */
  lemma JoinLast(init: seq<Block>, last: Block, b: Block, t: string)
    requires last.TextBlock? == b.TextBlock? && (b.TextBlock? ==> b.text == last.text + t)
    ensures BlockText(init + [b]) == BlockText(init + [last]) + (if b.TextBlock? then t else "")
  {
    BlockTextSnoc(init, b);
    BlockTextSnoc(init, last);
    if b.TextBlock? { Associate(BlockText(init), last.text, t); }
  }

  lemma FeedTextBlock(blocks: seq<Block>, t: string, visibility: Visibility, o: Oracles)
    ensures BlockText(FeedBlocks(blocks, TextEvent(t), visibility, o)) == BlockText(blocks) + t
  {
    var n := |blocks|;
    if n > 0 && blocks[n - 1].TextBlock? {
      assert blocks == blocks[..n - 1] + [blocks[n - 1]];
      JoinLast(blocks[..n - 1], blocks[n - 1], TextBlock(blocks[n - 1].text + t), t);
    } else {
      BlockTextSnoc(blocks, TextBlock(t));
    }
  }

  lemma FeedThinkingBlock(blocks: seq<Block>, t: string, visibility: Visibility, o: Oracles)
    ensures BlockText(FeedBlocks(blocks, ThinkingEvent(t), visibility, o)) == BlockText(blocks)
  {
    var n := |blocks|;
    if n > 0 && blocks[n - 1].ThinkingBlock? {
      assert blocks == blocks[..n - 1] + [blocks[n - 1]];
      JoinLast(blocks[..n - 1], blocks[n - 1], ThinkingBlock(blocks[n - 1].text + Shown(visibility, t)), "");
    } else {
      BlockTextSnoc(blocks, ThinkingBlock(Shown(visibility, t)));
    }
  }

  lemma FeedKeepsText(blocks: seq<Block>, e: StreamEvent, visibility: Visibility, o: Oracles)
    ensures BlockText(FeedBlocks(blocks, e, visibility, o)) == BlockText(blocks) + (if e.TextEvent? then e.text else "")
  {
    match e
    case TextEvent(t) => FeedTextBlock(blocks, t, visibility, o);
    case ThinkingEvent(t) => FeedThinkingBlock(blocks, t, visibility, o);
    case CallEvent(call) => BlockTextSnoc(blocks, ToolBlock(ToolId(call, o), call.name, call.arguments));
    case DoneEvent(_) =>
  }

  /** The text of the text blocks is the text of the text events. */
  lemma {:induction false} TextIsKept(events: seq<StreamEvent>, visibility: Visibility, o: Oracles)
    ensures BlockText(Blocks(events, visibility, o)) == EventText(events)
  {
    if events != [] {
      var n := |events| - 1;
      TextIsKept(events[..n], visibility, o);
      FeedKeepsText(Blocks(events[..n], visibility, o), events[n], visibility, o);
    }
  }

  /** Off shows no thinking block, and omitted none with text. */
  lemma {:induction false} ThinkingIsHidden(events: seq<StreamEvent>, visibility: Visibility, o: Oracles)
    ensures visibility == Off ==> forall b | b in Blocks(events, visibility, o) :: !b.ThinkingBlock?
    ensures visibility == Omitted ==> forall b | b in Blocks(events, visibility, o) :: b.ThinkingBlock? ==> b.text == ""
  {
    if events != [] {
      var n := |events| - 1;
      var before := Blocks(events[..n], visibility, o);
      ThinkingIsHidden(events[..n], visibility, o);
      if before != [] { assert before[|before| - 1] in before; }
      assert forall b | b in before[..if |before| > 0 then |before| - 1 else 0] :: b in before;
    }
  }

  // ---- the encoder -----------------------------------------------------------------------------------------

  datatype Enc = Enc(parts: seq<Part>, blocks: seq<Block>, nextIndex: nat, openIndex: nat, openKind: Option<BlockKind>, openText: string)

  /** No part the visibility forbids. */
  predicate Discreet(parts: seq<Part>, visibility: Visibility) {
    && (visibility == Off ==> forall p | p in parts :: !(p.BlockStart? && p.kind == ThinkingKind))
    && (visibility != Full ==> forall p | p in parts :: !p.ThinkingDelta?)
  }

  predicate Good(e: Enc, visibility: Visibility) {
    && Discreet(e.parts, visibility)
    && (e.openKind.None? ==> Read(e.parts) == Outside(e.blocks) && e.nextIndex == |e.blocks|)
    && (e.openKind.Some? ==>
          && !e.openKind.value.ToolKind? && e.openIndex == |e.blocks| && e.nextIndex == |e.blocks| + 1
          && Read(e.parts) == Within(e.blocks, e.openKind.value, e.openText, false))
  }

  function OpenBlocks(e: Enc): seq<Block> {
    e.blocks + (if e.openKind.Some? then [Made(e.openKind.value, e.openText)] else [])
  }

  /** Between blocks, the last one is a tool. */
  predicate EndsOpenOrTool(e: Enc) {
    e.openKind.Some? || e.blocks == [] || e.blocks[|e.blocks| - 1].ToolBlock?
  }

  method Emit(e: Enc, part: Part, visibility: Visibility) returns (r: Enc)
    requires Discreet(e.parts, visibility)
    requires !(visibility == Off && part.BlockStart? && part.kind == ThinkingKind)
    requires !(visibility != Full && part.ThinkingDelta?)
    ensures Discreet(r.parts, visibility) && r == e.(parts := r.parts) && Read(r.parts) == StreamStep(Read(e.parts), part)
  {
    ReadSnoc(e.parts, part);
    r := e.(parts := e.parts + [part]);
  }

  /** `closeOpenBlock`: thinking is signed before it stops. */
  method CloseOpenBlock(e: Enc, visibility: Visibility) returns (r: Enc)
    requires Good(e, visibility)
    ensures Good(r, visibility) && r.openKind.None? && r.blocks == OpenBlocks(e) && (e.openKind.None? ==> r == e)
  {
    r := e;
    if e.openKind.None? { return; }
    if e.openKind.value == ThinkingKind { r := Emit(r, SignatureDelta(e.openIndex), visibility); }
    r := Emit(r, BlockStop(e.openIndex), visibility);
    r := r.(openKind := None, blocks := r.blocks + [Made(e.openKind.value, e.openText)]);
  }

  method OpenBlock(e: Enc, kind: BlockKind, visibility: Visibility) returns (r: Enc)
    requires Good(e, visibility) && e.openKind.None? && !kind.ToolKind? && !(kind == ThinkingKind && visibility == Off)
    ensures Good(r, visibility) && r.openKind == Some(kind) && r.openText == "" && r.blocks == e.blocks
  {
    r := e.(openIndex := e.nextIndex, nextIndex := e.nextIndex + 1);
    r := Emit(r, BlockStart(r.openIndex, kind), visibility);
    r := r.(openKind := Some(kind), openText := "");
  }

  /** A non-empty increment of text or visible thinking. */
  method StreamText(e: Enc, kind: BlockKind, t: string, visibility: Visibility) returns (r: Enc)
    requires Good(e, visibility) && EndsOpenOrTool(e) && t != "" && !kind.ToolKind? && !(kind == ThinkingKind && visibility == Off)
    ensures Good(r, visibility) && EndsOpenOrTool(r)
    ensures
      var shown := if kind == ThinkingKind then Shown(visibility, t) else t;
      OpenBlocks(r) ==
        if e.openKind == Some(kind) then e.blocks + [Made(kind, e.openText + shown)] else OpenBlocks(e) + [Made(kind, shown)]
  {
    r := e;
    if r.openKind != Some(kind) {
      r := CloseOpenBlock(r, visibility);
      r := OpenBlock(r, kind, visibility);
    }
    var shown := if kind == ThinkingKind then Shown(visibility, t) else t;
    if kind == TextKind {
      r := Emit(r, TextDelta(r.openIndex, t), visibility);
    } else if visibility == Full {
      r := Emit(r, ThinkingDelta(r.openIndex, t), visibility);
    }
    assert "" + shown == shown && r.openText + "" == r.openText;
    r := r.(openText := r.openText + shown);
  }

  method EmitTool(e: Enc, call: ToolCall, visibility: Visibility, o: Oracles) returns (r: Enc)
    requires Good(e, visibility) && e.openKind.None?
    ensures Good(r, visibility) && r.openKind.None?
    ensures r.blocks == e.blocks + [ToolBlock(ToolId(call, o), call.name, call.arguments)]
  {
    var index := e.nextIndex;
    r := e.(nextIndex := e.nextIndex + 1);
    r := Emit(r, BlockStart(index, ToolKind(ToolId(call, o), call.name)), visibility);
    r := Emit(r, InputDelta(index, call.arguments), visibility);
    r := Emit(r, BlockStop(index), visibility);
    r := r.(blocks := r.blocks + [ToolBlock(ToolId(call, o), call.name, call.arguments)]);
  }

  lemma FeedOpen(e: Enc, kind: BlockKind, t: string, visibility: Visibility, event: StreamEvent, o: Oracles)
    requires EndsOpenOrTool(e) && t != "" && !kind.ToolKind? && (e.openKind.Some? ==> !e.openKind.value.ToolKind?)
    requires !(kind == ThinkingKind && visibility == Off)
    requires event == if kind == TextKind then TextEvent(t) else ThinkingEvent(t)
    ensures
      var shown := if kind == ThinkingKind then Shown(visibility, t) else t;
      FeedBlocks(OpenBlocks(e), event, visibility, o) ==
        if e.openKind == Some(kind) then e.blocks + [Made(kind, e.openText + shown)] else OpenBlocks(e) + [Made(kind, shown)]
  {
    if e.openKind.Some? {
      assert OpenBlocks(e)[..|OpenBlocks(e)| - 1] == e.blocks;
    } else {
      assert OpenBlocks(e) == e.blocks;
    }
  }

  method OneEvent(e: Enc, event: StreamEvent, calls: seq<ToolCall>, visibility: Visibility, o: Oracles)
    returns (r: Enc, next: seq<ToolCall>)
    requires Good(e, visibility) && EndsOpenOrTool(e)
    ensures Good(r, visibility) && EndsOpenOrTool(r)
    ensures OpenBlocks(r) == FeedBlocks(OpenBlocks(e), event, visibility, o) && next == CallsAfter(calls, event)
  {
    r, next := e, calls;
    match event
    case ThinkingEvent(t) =>
      if t != "" && visibility != Off {
        FeedOpen(e, ThinkingKind, t, visibility, event, o);
        r := StreamText(r, ThinkingKind, t, visibility);
      }
    case TextEvent(t) =>
      if t != "" {
        FeedOpen(e, TextKind, t, visibility, event, o);
        r := StreamText(r, TextKind, t, visibility);
      }
    case CallEvent(call) =>
      r := CloseOpenBlock(r, visibility);
      next := next + [call];
      r := EmitTool(r, call, visibility, o);
    case DoneEvent(result) => next := result.toolCalls;
  }

  /**
   The stream: blocks of the grammar with the expected contents, the stop reason of the final calls; a failure
   of the source ends it with an error, or, with nobody listening, where it is.
   */
  method StreamMessage(events: seq<StreamEvent>, failed: bool, reported: bool, visibility: Visibility, o: Oracles)
    returns (parts: seq<Part>)
    ensures Discreet(parts, visibility)
    ensures !failed ==> Read(parts) == Ended(Blocks(events, visibility, o), FinalCalls(events) != [])
    ensures failed && reported ==> Read(parts) == Aborted
    ensures failed && !reported ==> Read(parts).Outside? || Read(parts).Within?
  {
    var e := Begin(visibility);
    var calls;
    e, calls := StreamEvents(e, events, visibility, o);
    if failed { parts := Fail(e, reported, visibility); } else { parts := Finish(e, calls != [], visibility); }
  }

  method Begin(visibility: Visibility) returns (e: Enc)
    ensures Good(e, visibility) && e.openKind.None? && e.blocks == []
  {
    e := Emit(Enc([], [], 0, 0, None, ""), MessageStart, visibility);
  }

  method Finish(e: Enc, toolUse: bool, visibility: Visibility) returns (parts: seq<Part>)
    requires Good(e, visibility)
    ensures Discreet(parts, visibility) && Read(parts) == Ended(OpenBlocks(e), toolUse)
  {
    var r := CloseOpenBlock(e, visibility);
    r := Emit(r, MessageDelta(toolUse), visibility);
    r := Emit(r, MessageStop, visibility);
    parts := r.parts;
  }

  /** The error ends the stream without closing what is open, and without a stop. */
  method Fail(e: Enc, reported: bool, visibility: Visibility) returns (parts: seq<Part>)
    requires Good(e, visibility)
    ensures Discreet(parts, visibility)
    ensures Read(parts) == if reported then Aborted else Read(e.parts)
    ensures !reported ==> Read(parts).Outside? || Read(parts).Within?
  {
    var r := e;
    if reported { r := Emit(r, ErrorPart, visibility); }
    parts := r.parts;
  }

  method StreamEvents(e: Enc, events: seq<StreamEvent>, visibility: Visibility, o: Oracles)
    returns (r: Enc, calls: seq<ToolCall>)
    requires Good(e, visibility) && e.openKind.None? && e.blocks == []
    ensures Good(r, visibility) && OpenBlocks(r) == Blocks(events, visibility, o) && calls == FinalCalls(events)
  {
    r, calls := e, [];
    var i := 0;
    while i < |events|
      invariant 0 <= i <= |events| && Good(r, visibility) && EndsOpenOrTool(r)
      invariant OpenBlocks(r) == Blocks(events[..i], visibility, o) && calls == FinalCalls(events[..i])
    {
      BlocksSnoc(events, i, visibility, o);
      r, calls := OneEvent(r, events[i], calls, visibility, o);
      i := i + 1;
    }
    assert events[..i] == events;
  }

  lemma BlocksSnoc(events: seq<StreamEvent>, i: nat, visibility: Visibility, o: Oracles)
    requires i < |events|
    ensures Blocks(events[..i + 1], visibility, o) == FeedBlocks(Blocks(events[..i], visibility, o), events[i], visibility, o)
    ensures FinalCalls(events[..i + 1]) == CallsAfter(FinalCalls(events[..i]), events[i])
  {
    assert events[..i + 1][..i] == events[..i];
  }
}
