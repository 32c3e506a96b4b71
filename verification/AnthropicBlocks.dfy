/** Which events of an Anthropic stream become blocks, and what of the final result does not. */
module AnthropicBlocks {
  import opened Prelude
  import opened CallIds
  import opened ResponsesWire
  import opened AnthropicStream

  /** The event shows something. */
  predicate Shows(e: StreamEvent, visibility: Visibility) {
    match e
    case TextEvent(t) => t != ""
    case ThinkingEvent(t) => t != "" && visibility != Off
    case CallEvent(_) => true
    case DoneEvent(_) => false
  }

  function StreamedCalls(events: seq<StreamEvent>): seq<ToolCall> {
    if events == [] then []
    else
      var e := events[|events| - 1];
      StreamedCalls(events[..|events| - 1]) + (if e.CallEvent? then [e.call] else [])
  }

  function ToolBlockOf(call: ToolCall, o: Oracles): Block { ToolBlock(ToolId(call, o), call.name, call.arguments) }

  function ToolBlocks(blocks: seq<Block>): seq<Block> {
    if blocks == [] then []
    else
      var b := blocks[|blocks| - 1];
      ToolBlocks(blocks[..|blocks| - 1]) + (if b.ToolBlock? then [b] else [])
  }

  function ToolBlocksOf(calls: seq<ToolCall>, o: Oracles): seq<Block> {
    if calls == [] then [] else ToolBlocksOf(calls[..|calls| - 1], o) + [ToolBlockOf(calls[|calls| - 1], o)]
  }

  lemma ToolBlocksSnoc(blocks: seq<Block>, b: Block)
    ensures ToolBlocks(blocks + [b]) == ToolBlocks(blocks) + (if b.ToolBlock? then [b] else [])
  {
    assert (blocks + [b])[..|blocks|] == blocks;
  }

  lemma FeedsTools(blocks: seq<Block>, e: StreamEvent, visibility: Visibility, o: Oracles)
    ensures ToolBlocks(FeedBlocks(blocks, e, visibility, o))
      == ToolBlocks(blocks) + (if e.CallEvent? then [ToolBlockOf(e.call, o)] else [])
    ensures FeedBlocks(blocks, e, visibility, o) == [] <==> blocks == [] && !Shows(e, visibility)
  {
    var fed := FeedBlocks(blocks, e, visibility, o);
    if |fed| > |blocks| {
      assert fed == blocks + [fed[|blocks|]];
      ToolBlocksSnoc(blocks, fed[|blocks|]);
    } else if fed != blocks {
      var n := |blocks| - 1;
      assert blocks == blocks[..n] + [blocks[n]] && fed == blocks[..n] + [fed[n]];
      ToolBlocksSnoc(blocks[..n], blocks[n]);
      ToolBlocksSnoc(blocks[..n], fed[n]);
    }
  }

  /** The tool blocks are those of the streamed calls, in order, and nothing of the result. */
  lemma {:induction false} ToolBlocksAreStreamedCalls(events: seq<StreamEvent>, visibility: Visibility, o: Oracles)
    ensures ToolBlocks(Blocks(events, visibility, o)) == ToolBlocksOf(StreamedCalls(events), o)
  {
    if events != [] {
      var n := |events| - 1;
      ToolBlocksAreStreamedCalls(events[..n], visibility, o);
      FeedsTools(Blocks(events[..n], visibility, o), events[n], visibility, o);
      var before := StreamedCalls(events[..n]);
      if events[n].CallEvent? {
        assert (before + [events[n].call])[..|before|] == before;
      } else {
        assert StreamedCalls(events) == before;
      }
    }
  }

  lemma {:induction false} SomeToolBlock(blocks: seq<Block>)
    ensures ToolBlocks(blocks) == [] <==> forall b | b in blocks :: !b.ToolBlock?
  {
    if blocks != [] {
      var n := |blocks| - 1;
      SomeToolBlock(blocks[..n]);
      assert blocks == blocks[..n] + [blocks[n]];
    }
  }

  /** A stream has no block exactly if no event shows anything, whatever the results say. */
  lemma {:induction false} NoBlockExactlyWhen(events: seq<StreamEvent>, visibility: Visibility, o: Oracles)
    ensures Blocks(events, visibility, o) == [] <==> forall e | e in events :: !Shows(e, visibility)
  {
    if events != [] {
      var n := |events| - 1;
      NoBlockExactlyWhen(events[..n], visibility, o);
      FeedsTools(Blocks(events[..n], visibility, o), events[n], visibility, o);
      assert events == events[..n] + [events[n]];
    }
  }

  /** There is no tool block exactly if no call was streamed, whatever calls the results leave for the stop reason. */
  lemma ResultIsNotStreamed(events: seq<StreamEvent>, visibility: Visibility, o: Oracles)
    ensures (forall b | b in Blocks(events, visibility, o) :: !b.ToolBlock?) <==> StreamedCalls(events) == []
  {
    ToolBlocksAreStreamedCalls(events, visibility, o);
    SomeToolBlock(Blocks(events, visibility, o));
    var calls := StreamedCalls(events);
    assert calls != [] ==> |ToolBlocksOf(calls, o)| > 0;
  }
}
