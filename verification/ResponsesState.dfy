/** The state of the Responses encoder between two frames, and what it has to do with the grammar. */
module ResponsesState {
  import opened Prelude
  import opened Decimal
  import opened CallIds
  import opened ResponsesWire

  datatype Open = Open(kind: Kind, index: nat, id: string, text: string)

  /** The variables of the generator. */
  datatype Enc = Enc(
    frames: seq<Frame>, sequence: nat, items: seq<Item>, nextOutputIndex: nat, itemCounter: nat, open: Option<Open>,
    resolver: Resolver)

  /** How the source of events, and the saving of the response, end; `reported` says the client still listens. */
  datatype Ending = Finishes | SourceFails(reported: bool) | SaveFails(reported: bool)

  function CounterId(kind: Kind, suffix: string, counter: nat): string {
    (if kind == ReasoningKind then "rs_" else "msg_") + suffix + "_" + Digits(counter)
  }

  function ItemFor(kind: Kind, id: string, text: string): Item
    requires kind != CallKind
  {
    if kind == MessageKind then MessageItem(id, text) else ReasoningItem(id, text)
  }

  function ContentFor(kind: Kind, text: string): Content
    requires kind != CallKind
  {
    if kind == MessageKind then Said(text) else Thought(text)
  }

  predicate Counted(e: Enc) { Sequenced(e.frames) && e.sequence == |e.frames| + 1 }

  predicate Good(e: Enc) {
    Counted(e) && match e.open
      case None => e.nextOutputIndex == |e.items| && Wires(e.frames) == Between(e.items)
      case Some(op) =>
        && op.kind != CallKind && op.index == |e.items| && e.nextOutputIndex == |e.items| + 1
        && Wires(e.frames) == Inside(e.items, op.kind, op.id, "", Streaming, op.text)
  }

  /** Items done, and the one being streamed. */
  function OpenContents(e: Enc): seq<Content>
    requires e.open.Some? ==> e.open.value.kind != CallKind
  {
    Contents(e.items) + (if e.open.Some? then [ContentFor(e.open.value.kind, e.open.value.text)] else [])
  }

  lemma ContentsSnoc(items: seq<Item>, item: Item)
    ensures Contents(items + [item]) == Contents(items) + [ContentOf(item)]
  {
  }

  /** Between items, the last one is a call. */
  predicate EndsOpenOrCalled(e: Enc) {
    e.open.Some? || e.items == [] || e.items[|e.items| - 1].CallItem?
  }

  lemma CallItemId(suffix: string)
    ensures |ItemId(suffix)| >= 3 && ItemId(suffix)[3..] == suffix
  {
  }

  lemma FeedIncrement(f: Fed, e: Enc, t: string, kind: Kind, event: StreamEvent, o: Oracles)
    requires kind != CallKind && (e.open.Some? ==> e.open.value.kind != CallKind) && EndsOpenOrCalled(e)
    requires f.contents == OpenContents(e) && t != ""
    requires event == if kind == MessageKind then TextEvent(t) else ThinkingEvent(t)
    ensures Feed(f, event, o).resolver == f.resolver
    ensures Feed(f, event, o).contents ==
      if e.open.Some? && e.open.value.kind == kind
      then Contents(e.items) + [ContentFor(kind, e.open.value.text + t)]
      else OpenContents(e) + [ContentFor(kind, t)]
  {
    if e.open.Some? {
      assert f.contents[..|f.contents| - 1] == Contents(e.items);
    } else {
      assert f.contents == Contents(e.items);
    }
  }

  /** The next suffix, and what is left. */
  lemma SuffixAt(r: Resolver, calls: seq<ToolCall>, suffixes: seq<string>, i: nat, o: Oracles)
    requires i < |calls| == |suffixes| && ResolveAll(r, calls[i..], o).0 == suffixes[i..]
    ensures Resolve(r, calls[i], o).0 == suffixes[i]
    ensures ResolveAll(Resolve(r, calls[i], o).1, calls[i + 1..], o).0 == suffixes[i + 1..]
  {
    ResolveHead(r, calls[i..], o);
    assert calls[i..][1..] == calls[i + 1..];
    assert suffixes[i..][0] == suffixes[i] && suffixes[i..][1..] == suffixes[i + 1..];
  }

  lemma CallContentsSnoc(calls: seq<ToolCall>, suffixes: seq<string>, i: nat)
    requires i < |calls| == |suffixes|
    ensures CallContents(calls[..i + 1], suffixes[..i + 1])
      == CallContents(calls[..i], suffixes[..i]) + [Called(suffixes[i], calls[i].name, calls[i].arguments)]
  {
  }

  lemma ResolveHead(r: Resolver, calls: seq<ToolCall>, o: Oracles)
    requires calls != []
    ensures ResolveAll(r, calls, o).0 == [Resolve(r, calls[0], o).0] + ResolveAll(Resolve(r, calls[0], o).1, calls[1..], o).0
  {
  }

  lemma ExpectedNonEmpty(r: Resolver, events: seq<StreamEvent>, o: Oracles)
    ensures Expected(r, events, o) != []
  {
  }

  lemma ExpectedContents(r: Resolver, events: seq<StreamEvent>, o: Oracles)
    ensures
      var fed := FeedAll(r, events, o);
      Expected(r, events, o) == if fed.contents != [] then fed.contents else ResultContents(FinalResult(events), fed.resolver, o)
    ensures Expected(r, events, o) != []
  {
    ExpectedNonEmpty(r, events, o);
  }

  lemma ContentsConcat(xs: seq<Item>, ys: seq<Item>)
    ensures Contents(xs + ys) == Contents(xs) + Contents(ys)
  {
  }
}
