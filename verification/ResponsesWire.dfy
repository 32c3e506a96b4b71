/** The event grammar of a streamed Response, independent of the encoder, and what a stream should carry. */
module ResponsesWire {
  import opened Prelude
  import opened CallIds

  datatype RunResult = RunResult(text: string, toolCalls: seq<ToolCall>, reasoning: Option<string>)

  /** What the runner yields. */
  datatype StreamEvent = TextEvent(text: string) | ThinkingEvent(text: string) | CallEvent(call: ToolCall) | DoneEvent(result: RunResult)

  datatype Kind = MessageKind | ReasoningKind | CallKind

  /** Output items; the call id of a function call follows from its suffix. */
  datatype Item =
    | MessageItem(id: string, text: string)
    | ReasoningItem(id: string, text: string)
    | CallItem(suffix: string, name: string, arguments: string)

  datatype Body =
    | ResponseCreated
    | ResponseInProgress
    | ItemAdded(index: nat, kind: Kind, id: string, name: string)
    | PartAdded(index: nat, kind: Kind, id: string)
    | Delta(index: nat, kind: Kind, id: string, text: string)
    | TextDone(index: nat, kind: Kind, id: string, name: string, text: string)
    | PartDone(index: nat, kind: Kind, id: string, text: string)
    | ItemDone(index: nat, item: Item)
    | ResponseCompleted(items: seq<Item>)
    | StreamError

  datatype Frame = Frame(body: Body, sequenceNumber: nat)

  // ---- the grammar -------------------------------------------------------------------------------------

  datatype Phase = Announced | Streaming | TextClosed | PartClosed

  /** Where a stream is: before an item, inside one with the text received so far, or at its end. */
  datatype Wire =
    | Start
    | Created
    | Between(items: seq<Item>)
    | Inside(items: seq<Item>, kind: Kind, id: string, name: string, phase: Phase, text: string)
    | Complete(items: seq<Item>)
    | Failed
    | Bad

  /** The item whose life cycle is being closed. */
  function Closing(w: Wire): Item
    requires w.Inside?
  {
    match w.kind
    case MessageKind => MessageItem(w.id, w.text)
    case ReasoningKind => ReasoningItem(w.id, w.text)
    case CallKind => CallItem(if |w.id| >= 3 then w.id[3..] else w.id, w.name, w.text)
  }

  predicate Names(w: Wire, index: nat, kind: Kind, id: string) {
    w.Inside? && index == |w.items| && kind == w.kind && id == w.id
  }

  /** One frame; anything out of order makes the stream bad for good. */
  function WireStep(w: Wire, b: Body): Wire {
    match b
    case ResponseCreated => if w == Start then Created else Bad
    case ResponseInProgress => if w == Created then Between([]) else Bad
    case ItemAdded(index, kind, id, name) =>
      if w.Between? && index == |w.items| then Inside(w.items, kind, id, name, Announced, "") else Bad
    case PartAdded(index, kind, id) =>
      if Names(w, index, kind, id) && w.phase == Announced && kind != CallKind then w.(phase := Streaming) else Bad
    case Delta(index, kind, id, text) =>
      if Names(w, index, kind, id) && w.phase == (if kind == CallKind then Announced else Streaming)
      then w.(phase := Streaming, text := w.text + text) else Bad
    case TextDone(index, kind, id, name, text) =>
      if Names(w, index, kind, id) && w.phase == Streaming && name == w.name && text == w.text
      then w.(phase := TextClosed) else Bad
    case PartDone(index, kind, id, text) =>
      if Names(w, index, kind, id) && w.phase == TextClosed && kind != CallKind && text == w.text
      then w.(phase := PartClosed) else Bad
    case ItemDone(index, item) =>
      if w.Inside? && index == |w.items| && w.phase == (if w.kind == CallKind then TextClosed else PartClosed)
         && item == Closing(w)
      then Between(w.items + [item]) else Bad
    case ResponseCompleted(items) =>
      if w.Between? && items == w.items && items != [] then Complete(items) else Bad
    case StreamError => if w.Complete? || w.Failed? || w.Bad? then Bad else Failed
  }

  function Wires(frames: seq<Frame>): Wire {
    if frames == [] then Start else WireStep(Wires(frames[..|frames| - 1]), frames[|frames| - 1].body)
  }

  lemma WiresSnoc(frames: seq<Frame>, f: Frame)
    ensures Wires(frames + [f]) == WireStep(Wires(frames), f.body)
  {
    assert (frames + [f])[..|frames|] == frames;
  }

  predicate Sequenced(frames: seq<Frame>) {
    forall i | 0 <= i < |frames| :: frames[i].sequenceNumber == i + 1
  }

  // ---- what the grammar means --------------------------------------------------------------------------------

  /** The items of a stream that went well so far are the done items, in order, each at its own index. */
  function DoneItems(frames: seq<Frame>): seq<Item> {
    if frames == [] then []
    else
      var n := |frames| - 1;
      DoneItems(frames[..n]) + (if frames[n].body.ItemDone? then [frames[n].body.item] else [])
  }

  function ItemsOf(w: Wire): seq<Item> {
    if w.Between? || w.Inside? || w.Complete? then w.items else []
  }

  lemma {:induction false} CompletedListsDoneItems(frames: seq<Frame>)
    requires !Wires(frames).Bad? && !Wires(frames).Failed?
    ensures ItemsOf(Wires(frames)) == DoneItems(frames)
  {
    if frames != [] { CompletedListsDoneItems(frames[..|frames| - 1]); }
  }

  lemma {:induction false} PrefixNotBad(frames: seq<Frame>, k: nat)
    requires k <= |frames| && !Wires(frames).Bad?
    ensures !Wires(frames[..k]).Bad?
    ensures k < |frames| ==> !Wires(frames[..k]).Failed?
    decreases |frames|
  {
    var n := |frames| - 1;
    if k < |frames| {
      PrefixNotBad(frames[..n], k);
      assert frames[..n][..k] == frames[..k];
      if k == n { assert frames[..k] == frames[..n]; }
    } else {
      assert frames[..k] == frames;
    }
  }

  /** The text of the deltas since the last `added` frame. */
  function OpenText(frames: seq<Frame>): string {
    if frames == [] then ""
    else
      var n := |frames| - 1;
      match frames[n].body
      case ItemAdded(_, _, _, _) => ""
      case Delta(_, _, _, text) => OpenText(frames[..n]) + text
      case _ => OpenText(frames[..n])
  }

  lemma {:induction false} InsideText(frames: seq<Frame>)
    requires Wires(frames).Inside?
    ensures Wires(frames).text == OpenText(frames)
  {
    if Wires(frames[..|frames| - 1]).Inside? { InsideText(frames[..|frames| - 1]); }
  }

  lemma PrefixSnoc(frames: seq<Frame>, k: nat)
    requires k < |frames|
    ensures Wires(frames[..k + 1]) == WireStep(Wires(frames[..k]), frames[k].body)
  {
    assert frames[..k + 1] == frames[..k] + [frames[k]];
    WiresSnoc(frames[..k], frames[k]);
  }

  lemma PrefixStep(frames: seq<Frame>, k: nat)
    requires k < |frames| && !Wires(frames).Bad?
    ensures !Wires(frames[..k]).Bad? && !Wires(frames[..k]).Failed?
    ensures !WireStep(Wires(frames[..k]), frames[k].body).Bad?
  {
    PrefixNotBad(frames, k + 1);
    PrefixNotBad(frames, k);
    PrefixSnoc(frames, k);
  }

  lemma TextDoneNeedsText(w: Wire, b: Body)
    requires b.TextDone? && !WireStep(w, b).Bad?
    ensures w.Inside? && b.text == w.text
  {
  }

  /** In a stream that is never bad, a done frame carries the text of the deltas since its item was added. */
  lemma DoneTextIsDeltas(frames: seq<Frame>, k: nat)
    requires k < |frames| && !Wires(frames).Bad? && frames[k].body.TextDone?
    ensures frames[k].body.text == OpenText(frames[..k])
  {
    PrefixStep(frames, k);
    TextDoneNeedsText(Wires(frames[..k]), frames[k].body);
    InsideText(frames[..k]);
  }

  /** Item `i` is added, and closed, at output index `i`: the items before it are done by then. */
  lemma IndexCountsDoneItems(frames: seq<Frame>, k: nat)
    requires k < |frames| && !Wires(frames).Bad?
    ensures frames[k].body.ItemAdded? ==> frames[k].body.index == |DoneItems(frames[..k])| && Wires(frames[..k]).Between?
    ensures frames[k].body.ItemDone? ==> frames[k].body.index == |DoneItems(frames[..k])| && Wires(frames[..k]).Inside?
  {
    PrefixStep(frames, k);
    CompletedListsDoneItems(frames[..k]);
  }

  // ---- what the events amount to -----------------------------------------------------------------------------

  datatype Content = Said(text: string) | Thought(text: string) | Called(suffix: string, name: string, arguments: string)

  function ContentOf(item: Item): Content {
    match item
    case MessageItem(_, text) => Said(text)
    case ReasoningItem(_, text) => Thought(text)
    case CallItem(suffix, name, arguments) => Called(suffix, name, arguments)
  }

  function Contents(items: seq<Item>): (r: seq<Content>)
    ensures |r| == |items| && forall i | 0 <= i < |items| :: r[i] == ContentOf(items[i])
  {
    seq(|items|, i requires 0 <= i < |items| => ContentOf(items[i]))
  }

  datatype Fed = Fed(contents: seq<Content>, resolver: Resolver)

  /** One more event: neighbouring text of a kind joins, everything else starts a new content. */
  function Feed(f: Fed, e: StreamEvent, o: Oracles): Fed {
    var n := |f.contents|;
    match e
    case TextEvent(t) =>
      if t == "" then f
      else if n > 0 && f.contents[n - 1].Said? then
        f.(contents := f.contents[..n - 1] + [Said(f.contents[n - 1].text + t)])
      else f.(contents := f.contents + [Said(t)])
    case ThinkingEvent(t) =>
      if t == "" then f
      else if n > 0 && f.contents[n - 1].Thought? then
        f.(contents := f.contents[..n - 1] + [Thought(f.contents[n - 1].text + t)])
      else f.(contents := f.contents + [Thought(t)])
    case CallEvent(call) =>
      var (suffix, next) := Resolve(f.resolver, call, o);
      Fed(f.contents + [Called(suffix, call.name, call.arguments)], next)
    case DoneEvent(_) => f
  }

  function FeedAll(r: Resolver, events: seq<StreamEvent>, o: Oracles): Fed {
    if events == [] then Fed([], r) else Feed(FeedAll(r, events[..|events| - 1], o), events[|events| - 1], o)
  }

  /** The result of the last `done`, or none. */
  function FinalResult(events: seq<StreamEvent>): RunResult {
    if events == [] then RunResult("", [], None)
    else if events[|events| - 1].DoneEvent? then events[|events| - 1].result
    else FinalResult(events[..|events| - 1])
  }

  function CallContents(calls: seq<ToolCall>, suffixes: seq<string>): seq<Content>
    requires |suffixes| == |calls|
  {
    seq(|calls|, i requires 0 <= i < |calls| => Called(suffixes[i], calls[i].name, calls[i].arguments))
  }

  lemma {:induction false} ResolveAllLength(r: Resolver, calls: seq<ToolCall>, o: Oracles)
    ensures |ResolveAll(r, calls, o).0| == |calls|
    decreases |calls|
  {
    if calls != [] { ResolveAllLength(Resolve(r, calls[0], o).1, calls[1..], o); }
  }

  function ProseContents(result: RunResult): seq<Content> {
    (if result.reasoning.Some? && result.reasoning.value != "" then [Thought(result.reasoning.value)] else [])
    + (if result.text != "" || result.toolCalls == [] then [Said(result.text)] else [])
  }

  /** The output of a finished result: reasoning, message, calls. */
  function ResultContents(result: RunResult, r: Resolver, o: Oracles): seq<Content> {
    ResolveAllLength(r, result.toolCalls, o);
    ProseContents(result) + CallContents(result.toolCalls, ResolveAll(r, result.toolCalls, o).0)
  }

  /** What the stream should carry: the increments, or without any, the result. */
  function Expected(r: Resolver, events: seq<StreamEvent>, o: Oracles): seq<Content> {
    var fed := FeedAll(r, events, o);
    if fed.contents != [] then fed.contents else ResultContents(FinalResult(events), fed.resolver, o)
  }

  // ---- the increments are all there, in order ------------------------------------------------------------------

  function SaidText(contents: seq<Content>): string {
    if contents == [] then ""
    else SaidText(contents[..|contents| - 1]) + (if contents[|contents| - 1].Said? then contents[|contents| - 1].text else "")
  }

  function EventText(events: seq<StreamEvent>): string {
    if events == [] then ""
    else EventText(events[..|events| - 1]) + (if events[|events| - 1].TextEvent? then events[|events| - 1].text else "")
  }

  function ThoughtText(contents: seq<Content>): string {
    if contents == [] then ""
    else ThoughtText(contents[..|contents| - 1]) + (if contents[|contents| - 1].Thought? then contents[|contents| - 1].text else "")
  }

  function EventThought(events: seq<StreamEvent>): string {
    if events == [] then ""
    else EventThought(events[..|events| - 1]) + (if events[|events| - 1].ThinkingEvent? then events[|events| - 1].text else "")
  }

  /** Neighbouring contents of a textual kind differ in kind, and none is empty. */
  predicate Maximal(contents: seq<Content>) {
    && (forall i | 0 <= i < |contents| :: !contents[i].Called? ==> contents[i].text != "")
    && (forall i | 0 <= i < |contents| - 1 ::
          !(contents[i].Said? && contents[i + 1].Said?) && !(contents[i].Thought? && contents[i + 1].Thought?))
  }

  lemma TextSnoc(contents: seq<Content>, c: Content)
    ensures SaidText(contents + [c]) == SaidText(contents) + (if c.Said? then c.text else "")
    ensures ThoughtText(contents + [c]) == ThoughtText(contents) + (if c.Thought? then c.text else "")
  {
    assert (contents + [c])[..|contents|] == contents;
  }

  lemma JoinLastMaximal(contents: seq<Content>, c: Content)
    requires contents != [] && Maximal(contents) && !c.Called? && c.text != ""
    requires (contents[|contents| - 1].Said? && c.Said?) || (contents[|contents| - 1].Thought? && c.Thought?)
    ensures Maximal(contents[..|contents| - 1] + [c])
  {
  }

  /** The last content grows. */
  lemma JoinLast(init: seq<Content>, last: Content, c: Content, t: string)
    requires !last.Called? && !c.Called? && c.text == last.text + t && c.Said? == last.Said?
    ensures SaidText(init + [c]) == SaidText(init + [last]) + (if c.Said? then t else "")
    ensures ThoughtText(init + [c]) == ThoughtText(init + [last]) + (if c.Thought? then t else "")
  {
    TextSnoc(init, c);
    TextSnoc(init, last);
    if c.Said? {
      Associate(SaidText(init), last.text, t);
    } else {
      Associate(ThoughtText(init), last.text, t);
    }
  }

  lemma Associate(a: string, b: string, c: string)
    ensures a + (b + c) == (a + b) + c
  {
  }

  lemma AddMaximal(contents: seq<Content>, c: Content)
    requires Maximal(contents) && (!c.Called? ==> c.text != "")
    requires contents != [] ==>
      !(c.Said? && contents[|contents| - 1].Said?) && !(c.Thought? && contents[|contents| - 1].Thought?)
    ensures Maximal(contents + [c])
  {
  }

  /** A new content of another kind. */
  lemma AddContent(contents: seq<Content>, c: Content)
    requires Maximal(contents) && (!c.Called? ==> c.text != "")
    requires contents != [] ==>
      !(c.Said? && contents[|contents| - 1].Said?) && !(c.Thought? && contents[|contents| - 1].Thought?)
    ensures Maximal(contents + [c])
    ensures SaidText(contents + [c]) == SaidText(contents) + (if c.Said? then c.text else "")
    ensures ThoughtText(contents + [c]) == ThoughtText(contents) + (if c.Thought? then c.text else "")
  {
    AddMaximal(contents, c);
    TextSnoc(contents, c);
  }

  lemma FeedSaid(f: Fed, t: string, o: Oracles)
    requires Maximal(f.contents)
    ensures Maximal(Feed(f, TextEvent(t), o).contents)
    ensures SaidText(Feed(f, TextEvent(t), o).contents) == SaidText(f.contents) + t
    ensures ThoughtText(Feed(f, TextEvent(t), o).contents) == ThoughtText(f.contents)
  {
    var n := |f.contents|;
    if t != "" && n > 0 && f.contents[n - 1].Said? {
      assert f.contents == f.contents[..n - 1] + [f.contents[n - 1]];
      JoinLast(f.contents[..n - 1], f.contents[n - 1], Said(f.contents[n - 1].text + t), t);
      JoinLastMaximal(f.contents, Said(f.contents[n - 1].text + t));
    } else if t != "" {
      AddContent(f.contents, Said(t));
    }
  }

  lemma FeedThought(f: Fed, t: string, o: Oracles)
    requires Maximal(f.contents)
    ensures Maximal(Feed(f, ThinkingEvent(t), o).contents)
    ensures SaidText(Feed(f, ThinkingEvent(t), o).contents) == SaidText(f.contents)
    ensures ThoughtText(Feed(f, ThinkingEvent(t), o).contents) == ThoughtText(f.contents) + t
  {
    var n := |f.contents|;
    if t != "" && n > 0 && f.contents[n - 1].Thought? {
      assert f.contents == f.contents[..n - 1] + [f.contents[n - 1]];
      JoinLast(f.contents[..n - 1], f.contents[n - 1], Thought(f.contents[n - 1].text + t), t);
      JoinLastMaximal(f.contents, Thought(f.contents[n - 1].text + t));
    } else if t != "" {
      AddContent(f.contents, Thought(t));
    }
  }

  lemma FeedText(f: Fed, e: StreamEvent, o: Oracles)
    requires Maximal(f.contents)
    ensures Maximal(Feed(f, e, o).contents)
    ensures SaidText(Feed(f, e, o).contents) == SaidText(f.contents) + (if e.TextEvent? then e.text else "")
    ensures ThoughtText(Feed(f, e, o).contents) == ThoughtText(f.contents) + (if e.ThinkingEvent? then e.text else "")
  {
    match e
    case TextEvent(t) => FeedSaid(f, t, o);
    case ThinkingEvent(t) => FeedThought(f, t, o);
    case CallEvent(call) => AddContent(f.contents, Called(Resolve(f.resolver, call, o).0, call.name, call.arguments));
    case DoneEvent(_) =>
  }

  /** Nothing is lost, reordered within its kind or split: the contents are the maximal runs of the events. */
  lemma {:induction false} IncrementsAreKept(r: Resolver, events: seq<StreamEvent>, o: Oracles)
    ensures Maximal(FeedAll(r, events, o).contents)
    ensures SaidText(FeedAll(r, events, o).contents) == EventText(events)
    ensures ThoughtText(FeedAll(r, events, o).contents) == EventThought(events)
  {
    if events != [] {
      var n := |events| - 1;
      IncrementsAreKept(r, events[..n], o);
      FeedText(FeedAll(r, events[..n], o), events[n], o);
    }
  }

  /** The fallback applies exactly to a stream without text, thinking or calls, and then repeats the unstreamed output. */
  predicate Increment(e: StreamEvent) {
    (e.TextEvent? && e.text != "") || (e.ThinkingEvent? && e.text != "") || e.CallEvent?
  }

  lemma {:induction false} NoIncrementsNoContents(r: Resolver, events: seq<StreamEvent>, o: Oracles)
    ensures FeedAll(r, events, o).contents == [] <==> forall e | e in events :: !Increment(e)
    ensures FeedAll(r, events, o).contents == [] ==> FeedAll(r, events, o).resolver == r
  {
    if events != [] {
      var n := |events| - 1;
      NoIncrementsNoContents(r, events[..n], o);
      assert events[n] in events;
      assert forall e | e in events[..n] :: e in events;
      assert (forall e | e in events :: !Increment(e)) <==> (forall e | e in events[..n] :: !Increment(e)) && !Increment(events[n]) by {
        forall e | e in events ensures e in events[..n] || e == events[n] {
          var i :| 0 <= i < |events| && events[i] == e;
          if i < n { assert events[..n][i] == e; }
        }
      }
    }
  }

  lemma FallbackIsTheUnstreamedOutput(cache: map<nat, string>, events: seq<StreamEvent>, o: Oracles)
    requires forall e | e in events :: !Increment(e)
    ensures Expected(Resolver(cache, {}), events, o) == ResultContents(FinalResult(events), Resolver(cache, {}), o)
  {
    NoIncrementsNoContents(Resolver(cache, {}), events, o);
  }

  // ---- the ids of streamed calls -------------------------------------------------------------------------------

  function CallsOf(events: seq<StreamEvent>): seq<ToolCall> {
    if events == [] then []
    else CallsOf(events[..|events| - 1]) + (if events[|events| - 1].CallEvent? then [events[|events| - 1].call] else [])
  }

  function CalledSuffixes(contents: seq<Content>): seq<string> {
    if contents == [] then []
    else
      CalledSuffixes(contents[..|contents| - 1])
      + (if contents[|contents| - 1].Called? then [contents[|contents| - 1].suffix] else [])
  }

  lemma ResolveAllCons(r: Resolver, calls: seq<ToolCall>, o: Oracles)
    requires calls != []
    ensures ResolveAll(r, calls, o).0 == [Resolve(r, calls[0], o).0] + ResolveAll(Resolve(r, calls[0], o).1, calls[1..], o).0
    ensures ResolveAll(r, calls, o).1 == ResolveAll(Resolve(r, calls[0], o).1, calls[1..], o).1
  {
  }

  lemma {:induction false} ResolveAllSnoc(r: Resolver, calls: seq<ToolCall>, call: ToolCall, o: Oracles)
    ensures ResolveAll(r, calls + [call], o).0 == ResolveAll(r, calls, o).0 + [Resolve(ResolveAll(r, calls, o).1, call, o).0]
    ensures ResolveAll(r, calls + [call], o).1 == Resolve(ResolveAll(r, calls, o).1, call, o).1
    decreases |calls|
  {
    ResolveAllCons(r, calls + [call], o);
    if calls == [] {
      assert (calls + [call])[1..] == [];
    } else {
      assert (calls + [call])[1..] == calls[1..] + [call] && (calls + [call])[0] == calls[0];
      ResolveAllCons(r, calls, o);
      ResolveAllSnoc(Resolve(r, calls[0], o).1, calls[1..], call, o);
    }
  }

  lemma SuffixesSnoc(contents: seq<Content>, c: Content)
    ensures CalledSuffixes(contents + [c]) == CalledSuffixes(contents) + (if c.Called? then [c.suffix] else [])
  {
    assert (contents + [c])[..|contents|] == contents;
  }

  /** Replacing the last content by one that is no call either. */
  lemma SuffixesReplaced(init: seq<Content>, last: Content, c: Content)
    requires !last.Called? && !c.Called?
    ensures CalledSuffixes(init + [c]) == CalledSuffixes(init + [last])
  {
    SuffixesSnoc(init, last);
    SuffixesSnoc(init, c);
  }

  lemma FeedTextSuffixes(f: Fed, t: string, o: Oracles)
    ensures CalledSuffixes(Feed(f, TextEvent(t), o).contents) == CalledSuffixes(f.contents)
  {
    var n := |f.contents|;
    if n > 0 && f.contents[n - 1].Said? {
      assert f.contents == f.contents[..n - 1] + [f.contents[n - 1]];
      SuffixesReplaced(f.contents[..n - 1], f.contents[n - 1], Said(f.contents[n - 1].text + t));
    } else {
      SuffixesSnoc(f.contents, Said(t));
    }
  }

  lemma FeedThinkingSuffixes(f: Fed, t: string, o: Oracles)
    ensures CalledSuffixes(Feed(f, ThinkingEvent(t), o).contents) == CalledSuffixes(f.contents)
  {
    var n := |f.contents|;
    if n > 0 && f.contents[n - 1].Thought? {
      assert f.contents == f.contents[..n - 1] + [f.contents[n - 1]];
      SuffixesReplaced(f.contents[..n - 1], f.contents[n - 1], Thought(f.contents[n - 1].text + t));
    } else {
      SuffixesSnoc(f.contents, Thought(t));
    }
  }

  lemma FeedSuffixes(f: Fed, e: StreamEvent, o: Oracles)
    ensures CalledSuffixes(Feed(f, e, o).contents) ==
      CalledSuffixes(f.contents) + (if e.CallEvent? then [Resolve(f.resolver, e.call, o).0] else [])
    ensures Feed(f, e, o).resolver == if e.CallEvent? then Resolve(f.resolver, e.call, o).1 else f.resolver
  {
    match e
    case TextEvent(t) => FeedTextSuffixes(f, t, o);
    case ThinkingEvent(t) => FeedThinkingSuffixes(f, t, o);
    case CallEvent(call) =>
      SuffixesSnoc(f.contents, Called(Resolve(f.resolver, call, o).0, call.name, call.arguments));
    case DoneEvent(_) =>
  }

  lemma FeedAllStep(r: Resolver, events: seq<StreamEvent>, o: Oracles)
    requires events != []
    ensures FeedAll(r, events, o) == Feed(FeedAll(r, events[..|events| - 1], o), events[|events| - 1], o)
    ensures CallsOf(events) ==
      CallsOf(events[..|events| - 1]) + (if events[|events| - 1].CallEvent? then [events[|events| - 1].call] else [])
  {
  }

  lemma {:induction false} StreamedSuffixes(r: Resolver, events: seq<StreamEvent>, o: Oracles)
    ensures CalledSuffixes(FeedAll(r, events, o).contents) == ResolveAll(r, CallsOf(events), o).0
    ensures FeedAll(r, events, o).resolver == ResolveAll(r, CallsOf(events), o).1
  {
    if events != [] {
      var init, last := events[..|events| - 1], events[|events| - 1];
      var before := FeedAll(r, init, o);
      StreamedSuffixes(r, init, o);
      FeedAllStep(r, events, o);
      FeedSuffixes(before, last, o);
      if last.CallEvent? {
        ResolveAllSnoc(r, CallsOf(init), last.call, o);
      } else {
        assert CallsOf(events) == CallsOf(init);
      }
    }
  }

  /** The calls of one stream, none resolved before and none repeated, get distinct ids. */
  lemma StreamedCallsAreDistinct(cache: map<nat, string>, events: seq<StreamEvent>, o: Oracles, i: nat, j: nat)
    requires Fresh(Resolver(cache, {}), CallsOf(events))
    requires i < j < |CalledSuffixes(FeedAll(Resolver(cache, {}), events, o).contents)|
    ensures
      var suffixes := CalledSuffixes(FeedAll(Resolver(cache, {}), events, o).contents);
      CallId(suffixes[i]) != CallId(suffixes[j]) && ItemId(suffixes[i]) != ItemId(suffixes[j])
  {
    StreamedSuffixes(Resolver(cache, {}), events, o);
    FreshSuffixes(Resolver(cache, {}), CallsOf(events), o);
    FreshCallsAreDistinct(Resolver(cache, {}), CallsOf(events), o, i, j);
  }
}
