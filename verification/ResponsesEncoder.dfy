/** `responsesStream` of src/server.ts and `responseOutputItems` of src/protocol.ts. */
module ResponsesEncoder {
  import opened Prelude
  import opened CallIds
  import opened ResponsesWire
  import opened ResponsesState

  method Emit(e: Enc, body: Body) returns (r: Enc)
    requires Counted(e)
    ensures Counted(r) && r == e.(frames := r.frames, sequence := r.sequence)
    ensures Wires(r.frames) == WireStep(Wires(e.frames), body)
  {
    WiresSnoc(e.frames, Frame(body, e.sequence));
    r := e.(frames := e.frames + [Frame(body, e.sequence)], sequence := e.sequence + 1);
  }

  /** `closeOpenItem`. */
  method CloseOpenItem(e: Enc) returns (r: Enc)
    requires Good(e)
    ensures Good(r) && r.open.None? && OpenContents(r) == OpenContents(e)
    ensures r.resolver == e.resolver && (e.open.None? ==> r == e)
  {
    r := e;
    if e.open.None? { return; }
    var op := e.open.value;
    var item := ItemFor(op.kind, op.id, op.text);
    r := Emit(r, TextDone(op.index, op.kind, op.id, "", op.text));
    r := Emit(r, PartDone(op.index, op.kind, op.id, op.text));
    r := Emit(r, ItemDone(op.index, item));
    ContentsSnoc(e.items, item);
    r := r.(items := r.items + [item], open := None);
  }

  /** A message or reasoning item starts. */
  method OpenItem(e: Enc, kind: Kind, suffix: string) returns (r: Enc)
    requires Good(e) && e.open.None? && kind != CallKind
    ensures Good(r) && r.open.Some? && r.open.value.kind == kind && r.open.value.text == ""
    ensures r.items == e.items && r.resolver == e.resolver
  {
    var index := e.nextOutputIndex;
    var id := CounterId(kind, suffix, e.itemCounter);
    r := e.(nextOutputIndex := e.nextOutputIndex + 1, itemCounter := e.itemCounter + 1);
    r := Emit(r, ItemAdded(index, kind, id, ""));
    r := Emit(r, PartAdded(index, kind, id));
    r := r.(open := Some(Open(kind, index, id, "")));
  }

  method EmitDelta(e: Enc, text: string) returns (r: Enc)
    requires Good(e) && e.open.Some?
    ensures Good(r) && r.open == Some(e.open.value.(text := e.open.value.text + text))
    ensures r.items == e.items && r.resolver == e.resolver
  {
    var op := e.open.value;
    r := Emit(e, Delta(op.index, op.kind, op.id, text));
    r := r.(open := Some(op.(text := op.text + text)));
  }

  /** An increment of text or thinking: a new item unless one of its kind is open. */
  method StreamText(e: Enc, kind: Kind, suffix: string, text: string) returns (r: Enc)
    requires Good(e) && kind != CallKind && EndsOpenOrCalled(e)
    ensures Good(r) && EndsOpenOrCalled(r) && r.resolver == e.resolver
    ensures OpenContents(r) ==
      if e.open.Some? && e.open.value.kind == kind
      then Contents(e.items) + [ContentFor(kind, e.open.value.text + text)]
      else OpenContents(e) + [ContentFor(kind, text)]
  {
    r := e;
    if e.open.None? || e.open.value.kind != kind {
      r := CloseOpenItem(r);
      r := OpenItem(r, kind, suffix);
    }
    r := EmitDelta(r, text);
    assert "" + text == text;
  }

  /** The whole life cycle of a function call. */
  method EmitCall(e: Enc, call: ToolCall, o: Oracles) returns (r: Enc)
    requires Good(e) && e.open.None?
    ensures Good(r) && r.open.None?
    ensures r.items == e.items + [CallItem(Resolve(e.resolver, call, o).0, call.name, call.arguments)]
    ensures r.resolver == Resolve(e.resolver, call, o).1
  {
    var suffix, next := ResponseCallIds(e.resolver, call, true, o);
    r := EmitCallItem(e.(resolver := next), suffix, call);
  }

  method EmitCallItem(e: Enc, suffix: string, call: ToolCall) returns (r: Enc)
    requires Good(e) && e.open.None?
    ensures Good(r) && r.open.None? && r.resolver == e.resolver
    ensures r.items == e.items + [CallItem(suffix, call.name, call.arguments)]
  {
    var index := e.nextOutputIndex;
    var id := ItemId(suffix);
    CallItemId(suffix);
    r := e.(nextOutputIndex := e.nextOutputIndex + 1);
    var item := CallItem(suffix, call.name, call.arguments);
    assert "" + call.arguments == call.arguments;
    r := Emit(r, ItemAdded(index, CallKind, id, call.name));
    r := Emit(r, Delta(index, CallKind, id, call.arguments));
    r := Emit(r, TextDone(index, CallKind, id, call.name, call.arguments));
    r := Emit(r, ItemDone(index, item));
    r := r.(items := r.items + [item]);
  }

  /** A whole item of the fallback; an empty message has no delta. */
  method EmitWhole(e: Enc, kind: Kind, suffix: string, text: string) returns (r: Enc)
    requires Good(e) && e.open.None? && kind != CallKind
    ensures Good(r) && r.open.None? && r.resolver == e.resolver
    ensures Contents(r.items) == Contents(e.items) + [ContentFor(kind, text)]
  {
    r := OpenItem(e, kind, suffix);
    if text != "" { r := EmitDelta(r, text); }
    assert "" + text == text;
    r := CloseOpenItem(r);
  }

  /** The calls of a result, one after the other. */
  method EmitCalls(e: Enc, calls: seq<ToolCall>, o: Oracles) returns (r: Enc)
    requires Good(e) && e.open.None?
    ensures Good(r) && r.open.None? && |ResolveAll(e.resolver, calls, o).0| == |calls|
    ensures Contents(r.items) == Contents(e.items) + CallContents(calls, ResolveAll(e.resolver, calls, o).0)
  {
    r := e;
    ResolveAllLength(e.resolver, calls, o);
    ghost var suffixes := ResolveAll(e.resolver, calls, o).0;
    var i := 0;
    while i < |calls|
      invariant 0 <= i <= |calls| && Good(r) && r.open.None?
      invariant ResolveAll(r.resolver, calls[i..], o).0 == suffixes[i..]
      invariant Contents(r.items) == Contents(e.items) + CallContents(calls[..i], suffixes[..i])
    {
      ghost var was := r;
      SuffixAt(r.resolver, calls, suffixes, i, o);
      r := EmitCall(r, calls[i], o);
      ContentsSnoc(was.items, CallItem(suffixes[i], calls[i].name, calls[i].arguments));
      CallContentsSnoc(calls, suffixes, i);
      i := i + 1;
    }
    assert calls[..i] == calls && suffixes[..i] == suffixes;
  }

  /** Without any increment, the result is sent as whole items. */
  method EmitResult(e: Enc, result: RunResult, suffix: string, o: Oracles) returns (r: Enc)
    requires Good(e) && e.open.None? && e.items == []
    ensures Good(r) && r.open.None? && Contents(r.items) == ResultContents(result, e.resolver, o)
  {
    r := EmitProse(e, result, suffix);
    r := EmitCalls(r, result.toolCalls, o);
  }

  /** Reasoning and message of a result. */
  method EmitProse(e: Enc, result: RunResult, suffix: string) returns (r: Enc)
    requires Good(e) && e.open.None? && e.items == []
    ensures Good(r) && r.open.None? && r.resolver == e.resolver && Contents(r.items) == ProseContents(result)
  {
    r := e;
    if result.reasoning.Some? && result.reasoning.value != "" {
      r := EmitWhole(r, ReasoningKind, suffix, result.reasoning.value);
    }
    if result.text != "" || result.toolCalls == [] { r := EmitWhole(r, MessageKind, suffix, result.text); }
  }

  /** The increments, one event at a time. */
  method StreamEvents(e: Enc, events: seq<StreamEvent>, suffix: string, o: Oracles) returns (r: Enc, result: RunResult)
    requires Good(e) && e.open.None? && e.items == []
    ensures Good(r) && EndsOpenOrCalled(r) && result == FinalResult(events)
    ensures Fed(OpenContents(r), r.resolver) == FeedAll(e.resolver, events, o)
  {
    r, result := e, RunResult("", [], None);
    var i := 0;
    while i < |events|
      invariant 0 <= i <= |events| && Good(r) && EndsOpenOrCalled(r) && result == FinalResult(events[..i])
      invariant Fed(OpenContents(r), r.resolver) == FeedAll(e.resolver, events[..i], o)
    {
      assert events[..i + 1][..i] == events[..i];
      r, result := OneEvent(r, events[i], result, suffix, o);
      i := i + 1;
    }
    assert events[..i] == events;
  }

  method OneEvent(e: Enc, event: StreamEvent, result: RunResult, suffix: string, o: Oracles) returns (r: Enc, next: RunResult)
    requires Good(e) && EndsOpenOrCalled(e)
    ensures Good(r) && EndsOpenOrCalled(r)
    ensures next == if event.DoneEvent? then event.result else result
    ensures Fed(OpenContents(r), r.resolver) == Feed(Fed(OpenContents(e), e.resolver), event, o)
  {
    r, next := e, result;
    match event
    case ThinkingEvent(t) =>
      if t != "" {
        FeedIncrement(Fed(OpenContents(e), e.resolver), e, t, ReasoningKind, event, o);
        r := StreamText(r, ReasoningKind, suffix, t);
      }
    case TextEvent(t) =>
      if t != "" {
        FeedIncrement(Fed(OpenContents(e), e.resolver), e, t, MessageKind, event, o);
        r := StreamText(r, MessageKind, suffix, t);
      }
    case CallEvent(call) =>
      r := CloseOpenItem(r);
      ghost var closed := r;
      r := EmitCall(r, call, o);
      ContentsSnoc(closed.items, CallItem(Resolve(closed.resolver, call, o).0, call.name, call.arguments));
    case DoneEvent(final) => next := final;
  }

  /** `event: error`, if the client still listens. */
  method Fail(e: Enc, reported: bool) returns (frames: seq<Frame>)
    requires Counted(e) && !Wires(e.frames).Bad? && !Wires(e.frames).Failed? && !Wires(e.frames).Complete?
    ensures Sequenced(frames) && Wires(frames) == if reported then Failed else Wires(e.frames)
  {
    var r := e;
    if reported { r := Emit(r, StreamError); }
    frames := r.frames;
  }

  /**
   The stream: numbered from one without gaps, of the grammar, and when it completes, with the expected
   contents; a failure ends it with an error frame, or, with nobody listening, where it is.
   */
  method ResponsesStream(
    events: seq<StreamEvent>, ending: Ending, suffix: string, resolver: Resolver, o: Oracles)
    returns (frames: seq<Frame>, items: seq<Item>)
    ensures Sequenced(frames)
    ensures ending == Finishes ==> Wires(frames) == Complete(items) && Contents(items) == Expected(resolver, events, o)
    ensures ending != Finishes && ending.reported ==> Wires(frames) == Failed
    ensures ending != Finishes && !ending.reported ==> Wires(frames).Between? || Wires(frames).Inside?
  {
    var e := Begin(resolver);
    items := [];
    var result;
    e, result := StreamEvents(e, events, suffix, o);
    if ending.SourceFails? {
      frames := Fail(e, ending.reported);
      return;
    }
    e := Drain(e, result, suffix, o, resolver, events);
    if ending.SaveFails? {
      frames := Fail(e, ending.reported);
      return;
    }
    items := e.items;
    e := Emit(e, ResponseCompleted(items));
    frames := e.frames;
  }

  method Begin(resolver: Resolver) returns (e: Enc)
    ensures Good(e) && e.open.None? && e.items == [] && e.resolver == resolver
  {
    e := Emit(Enc([], 1, [], 0, 0, None, resolver), ResponseCreated);
    e := Emit(e, ResponseInProgress);
  }

  /** Close what is open, and without any item send the result. */
  method Drain(
    e: Enc, result: RunResult, suffix: string, o: Oracles, ghost resolver: Resolver, ghost events: seq<StreamEvent>)
    returns (r: Enc)
    requires Good(e) && Fed(OpenContents(e), e.resolver) == FeedAll(resolver, events, o) && result == FinalResult(events)
    ensures Good(r) && r.open.None? && r.items != [] && Contents(r.items) == Expected(resolver, events, o)
  {
    r := CloseOpenItem(e);
    assert OpenContents(r) == Contents(r.items);
    if r.items == [] { r := EmitResult(r, result, suffix, o); }
    ExpectedContents(resolver, events, o);
  }

  /** `responseOutputItems`: the items of a response that is not streamed. */
  method ResponseOutputItems(id: string, result: RunResult, cache: map<nat, string>, o: Oracles) returns (items: seq<Item>)
    ensures Contents(items) == ResultContents(result, Resolver(cache, {}), o)
  {
    items := [];
    if result.reasoning.Some? && result.reasoning.value != "" {
      items := items + [ReasoningItem("rs_" + id, result.reasoning.value)];
    }
    var toolItems := ToolItems(result.toolCalls, Resolver(cache, {}), o);
    if toolItems == [] || result.text != "" { items := items + [MessageItem("msg_" + id, result.text)]; }
    ContentsConcat(items, toolItems);
    items := items + toolItems;
  }

  method ToolItems(calls: seq<ToolCall>, resolver: Resolver, o: Oracles) returns (items: seq<Item>)
    ensures |items| == |calls| == |ResolveAll(resolver, calls, o).0|
    ensures Contents(items) == CallContents(calls, ResolveAll(resolver, calls, o).0)
  {
    ResolveAllLength(resolver, calls, o);
    ghost var suffixes := ResolveAll(resolver, calls, o).0;
    items := [];
    var r := resolver;
    var i := 0;
    while i < |calls|
      invariant 0 <= i <= |calls| == |suffixes| && |items| == i
      invariant ResolveAll(r, calls[i..], o).0 == suffixes[i..]
      invariant Contents(items) == CallContents(calls[..i], suffixes[..i])
    {
      SuffixAt(r, calls, suffixes, i, o);
      var suffix, next := ResponseCallIds(r, calls[i], true, o);
      ContentsSnoc(items, CallItem(suffix, calls[i].name, calls[i].arguments));
      CallContentsSnoc(calls, suffixes, i);
      items := items + [CallItem(suffix, calls[i].name, calls[i].arguments)];
      r := next;
      i := i + 1;
    }
    assert calls[..i] == calls && suffixes[..i] == suffixes;
  }
}
