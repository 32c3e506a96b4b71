/** Run events of src/agent-store.ts: offsets, listing and the walk along `nextOffset`. */
module RunEvents {
  import opened Prelude
  import opened Sorting
  import opened Decimal

  const OFFSET_WIDTH := 12

  datatype Event = Event(sequence: nat, offset: string, body: int)

  function Offset(sequence: nat): string { PadStart(Digits(sequence), OFFSET_WIDTH) }

  /** Offsets of the numbers up to `n` sort like the numbers. */
  predicate OffsetsOrdered(n: nat) {
    forall a, b | 1 <= a < b <= n :: Less(Offset(a), Offset(b))
  }

  lemma OffsetOrder(a: nat, b: nat)
    requires a < Pow10(OFFSET_WIDTH) && b < Pow10(OFFSET_WIDTH)
    ensures Less(Offset(a), Offset(b)) <==> a < b
  {
    PadIsFixed(a, OFFSET_WIDTH);
    PadIsFixed(b, OFFSET_WIDTH);
    FixedOrder(a, b, OFFSET_WIDTH);
  }

  /** Twelve digits are enough exactly up to the last twelve-digit number. */
  lemma OffsetsOrderedExactlyBelow(n: nat)
    ensures OffsetsOrdered(n) <==> n < Pow10(OFFSET_WIDTH)
  {
    if n < Pow10(OFFSET_WIDTH) {
      forall a, b | 1 <= a < b <= n ensures Less(Offset(a), Offset(b)) { OffsetOrder(a, b); }
    } else {
      var last := Pow10(OFFSET_WIDTH) - 1;
      PowNumeral(OFFSET_WIDTH);
      NinesNumeral(OFFSET_WIDTH);
      LessIsTotal(Offset(last), Offset(last + 1));
      assert !Less(Offset(last), Offset(last + 1));
      assert last >= 1 by { PowGrows(1, OFFSET_WIDTH); }
    }
  }

  /** The events of one run, in the order they were appended. */
  predicate Appended(events: seq<Event>) {
    forall i | 0 <= i < |events| :: events[i].sequence == i + 1 && events[i].offset == Offset(i + 1)
  }

  function After(events: seq<Event>, after: string): seq<Event> {
    if events == [] then []
    else (if Less(after, events[0].offset) then [events[0]] else []) + After(events[1..], after)
  }

  lemma {:induction false} AfterListed(events: seq<Event>, after: string, e: Event)
    ensures e in After(events, after) <==> e in events && Less(after, e.offset)
  {
    if events != [] {
      AfterListed(events[1..], after, e);
      assert e in events <==> e == events[0] || e in events[1..];
    }
  }

  datatype EventPage = EventPage(items: seq<Event>, nextOffset: Option<string>)

  function Cut(matched: seq<Event>, limit: Option<int>): EventPage {
    var items := if limit.Some? && 0 <= limit.value <= |matched| then matched[..limit.value] else matched;
    EventPage(items, if items == [] then None else Some(items[|items| - 1].offset))
  }

  /** Asking again from `nextOffset` until a page is empty. */
  function Walk(list: string -> EventPage, after: string, fuel: nat): Option<seq<Event>>
    decreases fuel
  {
    var page := list(after);
    if page.nextOffset.None? then Some([])
    else if fuel == 0 then None
    else
      var rest := Walk(list, page.nextOffset.value, fuel - 1);
      if rest.Some? then Some(page.items + rest.value) else None
  }

  /** The listing of one run, with a limit. */
  function Listing(events: seq<Event>, limit: nat): string -> EventPage {
    after => Cut(After(events, after), Some(limit))
  }

  lemma {:induction false} AfterDrops(events: seq<Event>, after: string, k: nat)
    requires k <= |events|
    requires forall i | 0 <= i < |events| :: Less(after, events[i].offset) <==> i >= k
    ensures After(events, after) == events[k..]
    decreases |events|
  {
    if events != [] {
      var rest := events[1..];
      if k == 0 {
        assert forall i | 0 <= i < |rest| :: rest[i] == events[i + 1];
        AfterDrops(rest, after, 0);
        assert Less(after, events[0].offset);
      } else {
        assert forall i | 0 <= i < |rest| :: rest[i] == events[i + 1];
        AfterDrops(rest, after, k - 1);
        assert !Less(after, events[0].offset);
      }
    }
  }

  /** The offset of the k-th event separates the first `k` events from the rest. */
  lemma OffsetSeparates(events: seq<Event>, k: nat)
    requires Appended(events) && |events| < Pow10(OFFSET_WIDTH) && 0 < k <= |events|
    ensures After(events, events[k - 1].offset) == events[k..]
  {
    forall i | 0 <= i < |events| ensures Less(events[k - 1].offset, events[i].offset) <==> i >= k {
      OffsetOrder(k, i + 1);
    }
    AfterDrops(events, events[k - 1].offset, k);
  }

  /** After `k` events the listing shows some of the rest, if there is any. */
  ghost predicate ShowsRest(list: string -> EventPage, events: seq<Event>, after: string, k: nat)
    requires k <= |events|
  {
    if k == |events| then list(after) == EventPage([], None)
    else exists n :: k < n <= |events| && list(after) == EventPage(events[k..n], Some(events[n - 1].offset))
  }

  /** One page of what is left after `k` events. */
  lemma CutRest(events: seq<Event>, k: nat, limit: nat) returns (n: nat)
    requires k < |events| && limit >= 1
    ensures k < n <= |events| && Cut(events[k..], Some(limit)) == EventPage(events[k..n], Some(events[n - 1].offset))
  {
    var page := Cut(events[k..], Some(limit));
    n := k + |page.items|;
    assert page.items == events[k..n];
  }

  lemma ListingShowsRest(events: seq<Event>, after: string, k: nat, limit: nat)
    requires k <= |events| && limit >= 1 && After(events, after) == events[k..]
    ensures ShowsRest(Listing(events, limit), events, after, k)
  {
    var list := Listing(events, limit);
    if k == |events| {
      assert events[k..] == [];
      assert list(after) == Cut([], Some(limit));
    } else {
      var n := CutRest(events, k, limit);
      assert list(after) == EventPage(events[k..n], Some(events[n - 1].offset));
    }
  }

  ghost predicate ResumesAt(list: string -> EventPage, events: seq<Event>, n: nat)
    requires 0 < n <= |events|
  {
    ShowsRest(list, events, events[n - 1].offset, n)
  }

  lemma {:induction false} WalkFrom(list: string -> EventPage, events: seq<Event>, after: string, k: nat, fuel: nat)
    requires k <= |events| && ShowsRest(list, events, after, k) && fuel >= |events| - k
    requires forall n | 0 < n <= |events| :: ResumesAt(list, events, n)
    ensures Walk(list, after, fuel) == Some(events[k..])
    decreases fuel
  {
    if k < |events| {
      var n :| k < n <= |events| && list(after) == EventPage(events[k..n], Some(events[n - 1].offset));
      assert ResumesAt(list, events, n);
      WalkFrom(list, events, events[n - 1].offset, n, fuel - 1);
      assert events[k..n] + events[n..] == events[k..];
    } else {
      assert events[k..] == [];
    }
  }

  /** As long as the numbers stay below 10^12, following `nextOffset` collects every event once and in order. */
  lemma WalkCollectsAll(events: seq<Event>, limit: nat, fuel: nat)
    requires Appended(events) && limit >= 1 && |events| < Pow10(OFFSET_WIDTH) && fuel >= |events|
    ensures Walk(Listing(events, limit), "", fuel) == Some(events)
  {
    forall i | 0 <= i < |events| ensures Less("", events[i].offset) { PadIsFixed(i + 1, OFFSET_WIDTH); }
    AfterDrops(events, "", 0);
    assert events[0..] == events;
    ListingShowsRest(events, "", 0, limit);
    forall n | 0 < n <= |events| ensures ResumesAt(Listing(events, limit), events, n) {
      OffsetSeparates(events, n);
      ListingShowsRest(events, events[n - 1].offset, n, limit);
    }
    WalkFrom(Listing(events, limit), events, "", 0, fuel);
  }

  function ByOffset(): (Event, Event) -> bool { (a: Event, b: Event) => Less(a.offset, b.offset) }

  lemma ByOffsetOrders()
    ensures StrictOrder(ByOffset())
  {
    var before := ByOffset();
    forall x, y | before(x, y) ensures !before(y, x) { LessIsTotal(x.offset, y.offset); }
    forall x, y, z | Links(before, x, y, z) ensures before(x, z) { LessTransitive(x.offset, y.offset, z.offset); }
  }

  /** A list in strict order, however it is read from a table, sorts back to itself. */
  lemma SortRestores(rows: seq<Event>, matched: seq<Event>)
    requires multiset(rows) == multiset(matched)
    requires forall i, j | 0 <= i < j < |matched| :: Less(matched[i].offset, matched[j].offset)
    ensures Sort(ByOffset(), rows) == matched
  {
    var before := ByOffset();
    ByOffsetOrders();
    forall x, y | x in rows && y in rows && x != y ensures before(x, y) || before(y, x) {
      assert x in multiset(rows) && y in multiset(rows);
      var i :| 0 <= i < |matched| && matched[i] == x;
      var j :| 0 <= j < |matched| && matched[j] == y;
    }
    SortSorts(before, rows);
    assert Sorted(before, matched);
    SortedIsUnique(before, Sort(before, rows), matched);
  }

  /** The table read in offset order lists what the in-memory store lists, as long as the offsets sort like numbers. */
  lemma TableListsAlike(events: seq<Event>, after: string, rows: seq<Event>)
    requires Appended(events) && |events| < Pow10(OFFSET_WIDTH)
    requires multiset(rows) == multiset(After(events, after))
    ensures Sort(ByOffset(), rows) == After(events, after)
  {
    AppendedSorted(events);
    AfterSorted(events, after);
    SortRestores(rows, After(events, after));
  }

  lemma AppendedSorted(events: seq<Event>)
    requires Appended(events) && |events| < Pow10(OFFSET_WIDTH)
    ensures forall i, j | 0 <= i < j < |events| :: Less(events[i].offset, events[j].offset)
  {
    forall i, j | 0 <= i < j < |events| ensures Less(events[i].offset, events[j].offset) { OffsetOrder(i + 1, j + 1); }
  }

  lemma {:induction false} AfterSorted(events: seq<Event>, after: string)
    requires forall i, j | 0 <= i < j < |events| :: Less(events[i].offset, events[j].offset)
    ensures forall i, j | 0 <= i < j < |After(events, after)| ::
      Less(After(events, after)[i].offset, After(events, after)[j].offset)
  {
    if events != [] {
      AfterSorted(events[1..], after);
      var rest := After(events[1..], after);
      forall j | 0 <= j < |rest| ensures Less(events[0].offset, rest[j].offset) {
        AfterListed(events[1..], after, rest[j]);
        var k :| 0 <= k < |events[1..]| && events[1..][k] == rest[j];
        assert events[k + 1] == rest[j];
      }
    }
  }

  /** The in-memory events of one run. */
  class RunEventBucket {
    var sequence: nat
    var events: seq<Event>

    ghost predicate Valid()
      reads this
    {
      sequence == |events| && Appended(events)
    }

    constructor ()
      ensures Valid() && events == []
    {
      sequence, events := 0, [];
    }

    method Append(body: int) returns (event: Event)
      requires Valid()
      modifies this
      ensures Valid() && events == old(events) + [event]
      ensures event == Event(|events|, Offset(|events|), body)
    {
      sequence := sequence + 1;
      event := Event(sequence, PadStart(Digits(sequence), 12), body);
      events := events + [event];
    }

    method List(afterOffset: Option<string>, limit: Option<int>) returns (page: EventPage)
      requires Valid()
      ensures page == Cut(After(events, afterOffset.GetOr("")), limit)
    {
      var matched := After(events, afterOffset.GetOr(""));
      var items := matched;
      if limit.Some? && limit.value >= 0 && limit.value < |matched| { items := matched[..limit.value]; }
      page := EventPage(items, if items != [] then Some(items[|items| - 1].offset) else None);
    }
  }
}
