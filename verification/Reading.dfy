/** Scan: filter, sort, resume behind a cursor, cut to a limit. The listing and
    cutting that Query shares are here too. */
module Reading {
  import opened Values
  import opened Records
  import opened Engine
  import opened Paging

  // ---- what Scan and Query start from

  /** The directory of a table, in whatever order the file system lists it. */
  method ListItems(table: Table) returns (keys: seq<Key>)
    ensures forall k :: k in keys <==> k in table
    ensures forall i, j :: 0 <= i < j < |keys| ==> keys[i] != keys[j]
  {
    keys := [];
    var rest := table.Keys;
    while rest != {}
      invariant rest <= table.Keys
      invariant forall k :: k in keys <==> k in table && k !in rest
      invariant forall i, j :: 0 <= i < j < |keys| ==> keys[i] != keys[j]
      decreases rest
    {
      var k :| k in rest;
      keys, rest := keys + [k], rest - {k};
    }
  }

  function ItemsOf(table: Table, keys: seq<Key>): seq<Item>
    requires forall k :: k in keys ==> k in table
  {
    seq(|keys|, i requires 0 <= i < |keys| => table[keys[i]])
  }

  /** The last item of a full page names where the next one starts. */
  function CursorOf(schema: Schema, table: Table, next: Option<Key>): Option<Item>
    requires next.Some? ==> next.value in table
  {
    if next.None? then None else Some(ExtractKeys(schema, table[next.value]))
  }

  // ---- Scan

  /** Items are ordered by their hashed key. */
  const KeyLess: (Key, Key) -> bool := (j, k) => j < k

  const AnyKey: Key -> bool := k => true

  lemma KeyOrder()
    ensures StrictOrder(KeyLess, AnyKey)
  {
  }

  /** The keys of the unexpired items in order. There is only one such listing. */
  predicate Lists(listing: seq<Key>, table: Table, live: Item -> bool) {
    && Ascending(listing, KeyLess)
    && (forall k :: k in listing ==> k in table && live(table[k]))
    && (forall k :: k in table && live(table[k]) ==> k in listing)
  }

  lemma ListsUnique(xs: seq<Key>, ys: seq<Key>, table: Table, live: Item -> bool)
    requires Lists(xs, table, live) && Lists(ys, table, live)
    ensures xs == ys
  {
    KeyOrder();
    AscendingUnique(xs, ys, KeyLess, AnyKey);
  }

  datatype Slice = Slice(seg: nat, total: nat)

  /** The part of a listing that a segment is to scan. */
  function PartOf(listing: seq<Key>, slice: Option<Slice>): seq<Key>
    requires slice.Some? ==> slice.value.total > 0
  {
    if slice.None? then listing else Segment(listing, slice.value.seg, slice.value.total)
  }

  datatype Answer = Refused | Answer(items: seq<Item>, cursor: Option<Item>)

  /** The answer is this page of the listing, with a cursor from which the next goes on. */
  predicate Answers(h: Hash, schema: Schema, table: Table, r: Answer, page: (seq<Key>, Option<Key>)) {
    && r.Answer?
    && (forall k :: k in page.0 ==> k in table) && r.items == ItemsOf(table, page.0)
    && (r.cursor.None? <==> page.1.None?)
    && (r.cursor.Some? ==> r.cursor.value != map[] && KeyOf(h, schema, r.cursor.value) == page.1)
  }

  /** `Scan`: an empty start key means from the beginning. */
  method Scan(h: Hash, schema: Schema, table: Table, live: Item -> bool, slice: Option<Slice>,
              start: Item, limit: Option<nat>) returns (r: Answer, ghost listing: seq<Key>)
    requires Filed(h, schema, table) && limit != Some(0) && (slice.Some? ==> slice.value.total > 0)
    ensures Lists(listing, table, live)
    ensures r.Refused? <==> start != map[] && KeyOf(h, schema, start).None?
    ensures r.Answer? ==>
              Answers(h, schema, table, r, PageOf(PartOf(listing, slice), ScanStart(h, schema, start), limit, KeyLess))
    ensures r.Answer? ==> Scanned(h, schema, slice, ScanCall(table, live, start, limit, r, listing))
  {
    hide KeyOf, Segment, ExtractKeys;
    var all := ListItems(table);
    var visible := LiveOnly(table, all, live);
    var sorted := Sort(visible, KeyLess);
    SortedLists(table, live, visible);
    listing := sorted;
    if slice.Some? {
      var part := TakeSegment(sorted, slice.value.seg, slice.value.total);
      SegmentWithin(sorted, slice.value.seg, slice.value.total);
      sorted := part;
    }
    if start != map[] {
      var k := KeyOf(h, schema, start);
      if k.None? {
        r := Refused;
        return;
      }
      sorted := SkipTo(sorted, k.value);
    }
    hide Lists;
    ListedRest(PartOf(listing, slice), ScanStart(h, schema, start));
    r := CutPage(h, schema, table, sorted, limit);
  }

  function ScanStart(h: Hash, schema: Schema, start: Item): Option<Key> {
    if start == map[] then None else KeyOf(h, schema, start)
  }

  lemma ListedRest(part: seq<Key>, after: Option<Key>)
    ensures forall k :: k in Beyond(part, after, KeyLess) ==> k in part
  {
  }

  lemma SegmentWithin(xs: seq<Key>, seg: nat, total: nat)
    requires total > 0 && Ascending(xs, KeyLess)
    ensures Ascending(Segment(xs, seg, total), KeyLess) && forall k :: k in Segment(xs, seg, total) ==> k in xs
  {
    SegmentAscending(xs, seg, total, KeyLess);
    forall k | k in Segment(xs, seg, total)
      ensures k in xs
    {
      InSegment(xs, seg, total, k);
    }
  }

  method LiveOnly(table: Table, keys: seq<Key>, live: Item -> bool) returns (visible: seq<Key>)
    requires forall k :: k in keys <==> k in table
    requires forall i, j :: 0 <= i < j < |keys| ==> keys[i] != keys[j]
    ensures forall k :: k in visible <==> k in table && live(table[k])
    ensures forall i, j :: 0 <= i < j < |visible| ==> visible[i] != visible[j]
  {
    visible := [];
    for n := 0 to |keys|
      invariant forall k :: k in visible <==> k in keys[..n] && live(table[k])
      invariant forall i, j :: 0 <= i < j < |visible| ==> visible[i] != visible[j]
    {
      assert keys[..n + 1] == keys[..n] + [keys[n]];
      assert keys[n] in keys && keys[n] !in keys[..n];
      if live(table[keys[n]]) {
        visible := visible + [keys[n]];
      }
    }
    assert keys[..|keys|] == keys;
  }

  lemma SortedLists(table: Table, live: Item -> bool, visible: seq<Key>)
    requires forall k :: k in visible <==> k in table && live(table[k])
    requires forall i, j :: 0 <= i < j < |visible| ==> visible[i] != visible[j]
    ensures Lists(Sort(visible, KeyLess), table, live)
  {
    KeyOrder();
    SortHolds(visible, KeyLess);
    SortAscending(visible, KeyLess, AnyKey);
  }

  method TakeSegment(xs: seq<Key>, seg: nat, total: nat) returns (part: seq<Key>)
    requires total > 0
    ensures part == Segment(xs, seg, total)
  {
    part := [];
    for i := 0 to |xs|
      invariant part == Segment(xs[..i], seg, total)
    {
      assert xs[..i + 1][..i] == xs[..i];
      if i % total == seg {
        part := part + [xs[i]];
      }
    }
    assert xs[..|xs|] == xs;
  }

  /** The loop that looks for the start key, or for the first key past it if its item is gone. */
  method SkipTo(xs: seq<Key>, start: Key) returns (rest: seq<Key>)
    requires Ascending(xs, KeyLess)
    ensures rest == Beyond(xs, Some(start), KeyLess)
  {
    var from := |xs|;
    for i := 0 to |xs|
      invariant from == |xs| && forall j :: 0 <= j < i ==> xs[j] < start
    {
      if xs[i] == start {
        from := i + 1;
        break;
      }
      if xs[i] > start {
        from := i;
        break;
      }
    }
    rest := xs[from..];
    DropBefore(xs, Some(start), KeyLess, from);
  }

  /** Beyond a cursor is everything from the first element past it. */
  lemma {:induction false} DropBefore<T>(xs: seq<T>, after: Option<T>, lt: (T, T) -> bool, n: nat)
    requires after.Some? && n <= |xs| && forall i :: 0 <= i < n ==> !lt(after.value, xs[i])
    requires n < |xs| ==> lt(after.value, xs[n])
    ensures Beyond(xs, after, lt) == xs[n..]
  {
    if n > 0 {
      DropBefore(xs[1..], after, lt, n - 1);
    }
  }

  method CutPage(h: Hash, schema: Schema, table: Table, rest: seq<Key>, limit: Option<nat>) returns (r: Answer)
    requires Filed(h, schema, table) && limit != Some(0) && forall k :: k in rest ==> k in table
    ensures r.Answer? && |r.items| == if limit.Some? && limit.value < |rest| then limit.value else |rest|
    ensures forall i :: 0 <= i < |r.items| ==> r.items[i] == table[rest[i]]
    ensures r.cursor.Some? <==> |r.items| < |rest|
    ensures r.cursor.Some? ==> KeyOf(h, schema, r.cursor.value) == Some(rest[|r.items| - 1])
    ensures Answers(h, schema, table, r, Cut(rest, limit))
    ensures r.cursor.Some? ==> schema.sort.Some? ==>
              && schema.sort.value in table[Cut(rest, limit).1.value]
              && Lookup(r.cursor.value, schema.sort.value) == Some(table[Cut(rest, limit).1.value][schema.sort.value])
  {
    var page := rest;
    var next: Option<Key> := None;
    if limit.Some? && |rest| > limit.value {
      next := Some(rest[limit.value - 1]);
      page := rest[..limit.value];
      ExtractKeepsKey(h, schema, table[next.value]);
      assert KeyOf(h, schema, table[next.value]) == next;
    }
    r := Answer(ItemsOf(table, page), CursorOf(schema, table, next));
  }

  // ---- Scan theorems

  /** One call of Scan with its answer, as the contract of Scan leaves it. */
  datatype ScanCall = ScanCall(table: Table, live: Item -> bool, start: Item, limit: Option<nat>, answer: Answer, listing: seq<Key>)

  predicate Scanned(h: Hash, schema: Schema, slice: Option<Slice>, c: ScanCall)
    requires slice.Some? ==> slice.value.total > 0
  {
    && Filed(h, schema, c.table) && c.limit != Some(0) && Lists(c.listing, c.table, c.live)
    && Answers(h, schema, c.table, c.answer, PageOf(PartOf(c.listing, slice), ScanStart(h, schema, c.start), c.limit, KeyLess))
  }

  /** The calls of one scan: the first from the beginning, each other one with the cursor
      the one before handed out, until there is none. The table may be another each time. */
  predicate ScanCalls(h: Hash, schema: Schema, slice: Option<Slice>, calls: seq<ScanCall>)
    requires slice.Some? ==> slice.value.total > 0
  {
    && calls != [] && calls[0].start == map[]
    && (forall i :: 0 <= i < |calls| ==> Scanned(h, schema, slice, calls[i]))
    && (forall i :: 0 <= i < |calls| - 1 ==> calls[i].answer.cursor == Some(calls[i + 1].start))
    && calls[|calls| - 1].answer.cursor.None?
  }

  function TurnOf(h: Hash, schema: Schema, slice: Option<Slice>, c: ScanCall): Turn<Key, Item>
    requires (slice.Some? ==> slice.value.total > 0) && Scanned(h, schema, slice, c)
  {
    var (page, next) := PageOf(PartOf(c.listing, slice), ScanStart(h, schema, c.start), c.limit, KeyLess);
    Turn(PartOf(c.listing, slice), c.limit, page, next, c.answer.items)
  }

  function Turns(h: Hash, schema: Schema, slice: Option<Slice>, calls: seq<ScanCall>): (turns: seq<Turn<Key, Item>>)
    requires slice.Some? ==> slice.value.total > 0
    requires forall i :: 0 <= i < |calls| ==> Scanned(h, schema, slice, calls[i])
    ensures |turns| == |calls| && forall i :: 0 <= i < |calls| ==> turns[i] == TurnOf(h, schema, slice, calls[i])
  {
    seq(|calls|, i requires 0 <= i < |calls| => TurnOf(h, schema, slice, calls[i]))
  }

  /** The key an item is filed under. */
  function KeyTag(h: Hash, schema: Schema): Item -> Key {
    (item: Item) => var k := KeyOf(h, schema, item); if k.Some? then k.value else 0
  }

  lemma {:induction false} ItemsTagged(h: Hash, schema: Schema, slice: Option<Slice>, calls: seq<ScanCall>)
    requires slice.Some? ==> slice.value.total > 0
    requires forall i :: 0 <= i < |calls| ==> Scanned(h, schema, slice, calls[i])
    ensures Tagged(Turns(h, schema, slice, calls), KeyTag(h, schema))
  {
    hide KeyOf, PageOf, PartOf, ScanStart, Lists;
    var turns := Turns(h, schema, slice, calls);
    forall i, m | 0 <= i < |turns| && 0 <= m < |turns[i].page|
      ensures |turns[i].items| == |turns[i].page| && KeyTag(h, schema)(turns[i].items[m]) == turns[i].page[m]
    {
      assert Scanned(h, schema, slice, calls[i]) && turns[i].page[m] in turns[i].page;
      assert calls[i].answer.items[m] == calls[i].table[turns[i].page[m]];
    }
  }

  /** The calls are a chain: each start key is where the page before ended. */
  lemma {:induction false} CallsChain(h: Hash, schema: Schema, slice: Option<Slice>, calls: seq<ScanCall>, n: nat)
    requires (slice.Some? ==> slice.value.total > 0) && ScanCalls(h, schema, slice, calls) && n < |calls|
    ensures ChainOf(Turns(h, schema, slice, calls)[n..], ScanStart(h, schema, calls[n].start), KeyLess)
    decreases |calls| - n
  {
    hide KeyOf, PageOf, PartOf, Lists, Filed;
    var turns := Turns(h, schema, slice, calls);
    assert Scanned(h, schema, slice, calls[n]) && turns[n..][0] == turns[n];
    if n < |calls| - 1 {
      CallsChain(h, schema, slice, calls, n + 1);
      assert turns[n..][1..] == turns[n + 1..];
    }
  }

  /** All items handed out in the calls of a scan. */
  function Returned(calls: seq<ScanCall>): seq<Item> {
    if calls == [] then [] else (if calls[0].answer.Answer? then calls[0].answer.items else []) + Returned(calls[1..])
  }

  lemma {:induction false} ReturnedIs(h: Hash, schema: Schema, slice: Option<Slice>, calls: seq<ScanCall>)
    requires slice.Some? ==> slice.value.total > 0
    requires forall i :: 0 <= i < |calls| ==> Scanned(h, schema, slice, calls[i])
    ensures Returned(calls) == AllItems(Turns(h, schema, slice, calls))
  {
    hide Scanned, PageOf;
    if calls != [] {
      ScannedAnswers(h, schema, slice, calls[0]);
      ReturnedIs(h, schema, slice, calls[1..]);
      assert Turns(h, schema, slice, calls)[1..] == Turns(h, schema, slice, calls[1..]);
    }
  }

  lemma ScannedAnswers(h: Hash, schema: Schema, slice: Option<Slice>, c: ScanCall)
    requires (slice.Some? ==> slice.value.total > 0) && Scanned(h, schema, slice, c)
    ensures c.answer.Answer?
  {
  }

  /** The item is in the table of some call, unexpired there. */
  predicate SeenIn(calls: seq<ScanCall>, item: Item, k: Key) {
    exists i :: 0 <= i < |calls| && k in calls[i].table && calls[i].table[k] == item && calls[i].live(item)
  }

  /** Every call finds an unexpired item under k. */
  predicate Throughout(calls: seq<ScanCall>, k: Key) {
    forall i :: 0 <= i < |calls| ==> k in calls[i].table && calls[i].live(calls[i].table[k])
  }

  /** A scan under arbitrary writes between its calls: the items come in strictly increasing
      order of their keys, each was there when its page was read, and every key that was
      there throughout is among them, so exactly once. */
  lemma {:induction false} ScanUnderWrites(h: Hash, schema: Schema, calls: seq<ScanCall>)
    requires ScanCalls(h, schema, None, calls)
    ensures var items, key := Returned(calls), KeyTag(h, schema);
            && (forall m, n :: 0 <= m < n < |items| ==> key(items[m]) < key(items[n]))
            && (forall m :: 0 <= m < |items| ==> SeenIn(calls, items[m], key(items[m])))
            && (forall k :: Throughout(calls, k) ==> exists m :: 0 <= m < |items| && key(items[m]) == k)
  {
    hide KeyOf, PageOf, ScanStart, Pages, Finishes, AllItems, Returned, SeenIn;
    var turns, key := Turns(h, schema, None, calls), KeyTag(h, schema);
    ItemsTagged(h, schema, None, calls);
    CallsChain(h, schema, None, calls, 0);
    assert turns[0..] == turns;
    StartIsNone(h, schema);
    ReturnedIs(h, schema, None, calls);
    ChainIsPages(turns, None, KeyLess, key);
    var rs, got := AsRequests(turns), Pages(AsRequests(turns), None, KeyLess);
    KeyOrder();
    ScanRequests(h, schema, calls);
    hide Turns, Scanned, ScanCalls, Lists, ChainOf, Tagged, AsRequests;
    PagesAscend(rs, None, KeyLess, AnyKey);
    var items := AllItems(turns);
    forall m | 0 <= m < |items|
      ensures SeenIn(calls, items[m], key(items[m]))
    {
      HandedOut(h, schema, calls, items[m]);
    }
    forall k | Throughout(calls, k)
      ensures exists m :: 0 <= m < |items| && key(items[m]) == k
    {
      StockedThroughout(h, schema, calls, k);
      PagesMissNothing(rs, None, KeyLess, AnyKey, k);
      var m :| 0 <= m < |got| && got[m] == k;
      assert key(items[m]) == k;
    }
  }

  lemma {:induction false} ScanRequests(h: Hash, schema: Schema, calls: seq<ScanCall>)
    requires ScanCalls(h, schema, None, calls)
    ensures WellRequested(AsRequests(Turns(h, schema, None, calls)), KeyLess, AnyKey)
  {
    hide KeyOf, PageOf, ScanStart;
    KeyOrder();
    assert forall i :: 0 <= i < |calls| ==> Scanned(h, schema, None, calls[i]);
  }

  lemma {:induction false} StockedThroughout(h: Hash, schema: Schema, calls: seq<ScanCall>, k: Key)
    requires ScanCalls(h, schema, None, calls) && Throughout(calls, k)
    ensures var rs := AsRequests(Turns(h, schema, None, calls));
            forall i :: 0 <= i < |rs| ==> k in rs[i].stock
  {
    hide KeyOf, PageOf, ScanStart;
    assert forall i :: 0 <= i < |calls| ==> Scanned(h, schema, None, calls[i]);
  }

  lemma StartIsNone(h: Hash, schema: Schema)
    ensures ScanStart(h, schema, map[]).None?
  {
  }

  /** An item handed out was in the table of its call, under its own key. */
  lemma {:induction false} HandedOut(h: Hash, schema: Schema, calls: seq<ScanCall>, item: Item)
    requires ScanCalls(h, schema, None, calls) && item in AllItems(Turns(h, schema, None, calls))
    ensures SeenIn(calls, item, KeyTag(h, schema)(item))
  {
    hide KeyOf, PageOf, ScanStart, AllItems;
    var turns := Turns(h, schema, None, calls);
    ItemsFromTurns(turns, item);
    var i :| 0 <= i < |turns| && item in turns[i].items;
    var c := calls[i];
    assert Scanned(h, schema, None, c);
    var m :| 0 <= m < |turns[i].items| && turns[i].items[m] == item;
    var k := turns[i].page[m];
    assert k in turns[i].page;
    KeyOrder();
    PageFacts(c.listing, ScanStart(h, schema, c.start), c.limit, KeyLess, AnyKey);
    assert k in c.listing && c.table[k] == item;
  }

  /** On an unchanged table the items of all calls are, in order, those of the segment, and
      every unexpired item is in exactly one segment. */
  lemma {:induction false} SegmentedScan(h: Hash, schema: Schema, slice: Option<Slice>, calls: seq<ScanCall>, table: Table, live: Item -> bool, listing: seq<Key>)
    requires (slice.Some? ==> slice.value.total > 0) && ScanCalls(h, schema, slice, calls)
    requires (forall i :: 0 <= i < |calls| ==> calls[i].table == table && calls[i].live == live) && Lists(listing, table, live)
    ensures (forall k :: k in PartOf(listing, slice) ==> k in table) && Returned(calls) == ItemsOf(table, PartOf(listing, slice))
    ensures slice.Some? ==>
              forall k :: k in table && live(table[k]) ==> InOneSegment(listing, slice.value.total, k)
  {
    hide KeyOf, PageOf, ScanStart, Pages, Finishes, AllItems, Returned, InOneSegment, Segment;
    var turns, key := Turns(h, schema, slice, calls), KeyTag(h, schema);
    var part := PartOf(listing, slice);
    KeyOrder();
    if slice.Some? {
      SegmentWithin(listing, slice.value.seg, slice.value.total);
      forall k | k in table && live(table[k])
        ensures InOneSegment(listing, slice.value.total, k)
      {
        SegmentsPartition(listing, slice.value.total, KeyLess, AnyKey, k);
      }
    }
    ItemsTagged(h, schema, slice, calls);
    CallsChain(h, schema, slice, calls, 0);
    assert turns[0..] == turns;
    StartIsNone(h, schema);
    ReturnedIs(h, schema, slice, calls);
    ChainIsPages(turns, None, KeyLess, key);
    var rs := AsRequests(turns);
    forall i | 0 <= i < |rs|
      ensures rs[i].stock == part && rs[i].limit != Some(0)
    {
      assert Scanned(h, schema, slice, calls[i]);
      ListsUnique(calls[i].listing, listing, table, live);
    }
    PagesConcatenate(rs, None, KeyLess, AnyKey, part);
    var items := AllItems(turns);
    forall m | 0 <= m < |items|
      ensures items[m] == table[part[m]]
    {
      ItemUnderKey(h, schema, slice, calls, table, items[m]);
    }
  }

  lemma {:induction false} ItemUnderKey(h: Hash, schema: Schema, slice: Option<Slice>, calls: seq<ScanCall>, table: Table, item: Item)
    requires (slice.Some? ==> slice.value.total > 0) && ScanCalls(h, schema, slice, calls)
    requires forall i :: 0 <= i < |calls| ==> calls[i].table == table
    requires item in AllItems(Turns(h, schema, slice, calls))
    ensures KeyTag(h, schema)(item) in table && table[KeyTag(h, schema)(item)] == item
  {
    hide KeyOf, PageOf, ScanStart, AllItems, PartOf, Lists;
    var turns := Turns(h, schema, slice, calls);
    ItemsFromTurns(turns, item);
    var i :| 0 <= i < |turns| && item in turns[i].items;
    assert Scanned(h, schema, slice, calls[i]);
    var m :| 0 <= m < |turns[i].items| && turns[i].items[m] == item;
    assert turns[i].page[m] in turns[i].page;
  }
}
