/** PartiQL SELECT in pages: answers chained through their tokens return together every
    unexpired item that the kept conditions let through, once. */
module SelectPages {
  import opened Values
  import opened Records
  import opened Engine
  import opened Paging
  import opened Reading
  import opened PartiQL
  import opened Querying
  import opened SelectPlan

  /** The calls of one SELECT: the first from the beginning, each other one with the token
      of the one before, until there is none. */
  ghost predicate SelectCalls(h: Hash, lib: Lib, schema: Schema, where': seq<Where>, calls: seq<SelectCall>) {
    && calls != [] && calls[0].fetch.start == map[]
    && (forall i :: 0 <= i < |calls| ==> Selected(h, lib, schema, where', calls[i]))
    && (forall i :: 0 <= i < |calls| - 1 ==> calls[i].rows.cursor == Some(calls[i + 1].fetch.start))
    && calls[|calls| - 1].rows.cursor.None?
  }

  /** The rows of all calls. */
  function Together(calls: seq<SelectCall>): seq<Item> {
    if calls == [] then [] else (if calls[0].rows.Rows? then calls[0].rows.items else []) + Together(calls[1..])
  }

  /** All items the calls fetched, before the filter. */
  function FetchedItems(calls: seq<SelectCall>): seq<Item> {
    if calls == [] then []
    else (if calls[0].fetch.answer.Answer? then calls[0].fetch.answer.items else []) + FetchedItems(calls[1..])
  }

  lemma {:induction false} SurvivingConcat(lib: Lib, conds: seq<Where>, xs: seq<Item>, ys: seq<Item>)
    ensures Surviving(lib, conds, xs + ys) == Surviving(lib, conds, xs) + Surviving(lib, conds, ys)
  {
    hide AllHold;
    if ys == [] {
      assert xs + ys == xs;
    } else {
      var n := |ys| - 1;
      SurvivingConcat(lib, conds, xs, ys[..n]);
      assert (xs + ys)[..|xs| + n] == xs + ys[..n];
    }
  }

  lemma {:induction false} RowsSurvive(h: Hash, lib: Lib, schema: Schema, where': seq<Where>, calls: seq<SelectCall>)
    requires forall i :: 0 <= i < |calls| ==> Selected(h, lib, schema, where', calls[i])
    ensures Together(calls) == Surviving(lib, Classify(schema, where').rest, FetchedItems(calls))
  {
    hide Classify, PageFetched, Surviving;
    if calls == [] {
      NothingToFilter(lib, Classify(schema, where').rest, []);
    } else {
      assert Selected(h, lib, schema, where', calls[0]);
      RowsSurvive(h, lib, schema, where', calls[1..]);
      SurvivingConcat(lib, Classify(schema, where').rest, calls[0].fetch.answer.items, FetchedItems(calls[1..]));
    }
  }

  function KeysWhere(lib: Lib, conds: seq<Where>, table: Table, keys: seq<Key>): seq<Key>
    requires forall k :: k in keys ==> k in table
  {
    if keys == [] then []
    else
      var n := |keys| - 1;
      KeysWhere(lib, conds, table, keys[..n]) + (if AllHold(lib, conds, table[keys[n]]) then [keys[n]] else [])
  }

  lemma {:induction false} SurvivingKeys(lib: Lib, conds: seq<Where>, table: Table, keys: seq<Key>)
    requires (forall k :: k in keys ==> k in table) && forall i, j :: 0 <= i < j < |keys| ==> keys[i] != keys[j]
    ensures var kept := KeysWhere(lib, conds, table, keys);
            && (forall k :: k in kept <==> k in keys && AllHold(lib, conds, table[k]))
            && RowsOf(table, Surviving(lib, conds, ItemsOf(table, keys)), kept)
  {
    hide AllHold, RowsOf;
    NoRows(table);
    if keys == [] {
      assert ItemsOf(table, keys) == [];
    } else {
      var n := |keys| - 1;
      SurvivingKeys(lib, conds, table, keys[..n]);
      assert keys == keys[..n] + [keys[n]] && keys[n] in keys && keys[n] !in keys[..n];
      var items := ItemsOf(table, keys);
      assert items[..n] == ItemsOf(table, keys[..n]) && items[n] == table[keys[n]];
      var some, kept := Surviving(lib, conds, items[..n]), KeysWhere(lib, conds, table, keys[..n]);
      if AllHold(lib, conds, table[keys[n]]) {
        RowsMore(table, some, kept, keys[n]);
        assert Surviving(lib, conds, items) == some + [table[keys[n]]];
      } else {
        assert Surviving(lib, conds, items) == some + [] == some && KeysWhere(lib, conds, table, keys) == kept + [] == kept;
      }
    }
  }

  // ---- what the calls fetch together

  /** The table has not changed between the calls. */
  ghost predicate SameStore(calls: seq<SelectCall>, table: Table, live: Item -> bool) {
    forall i :: 0 <= i < |calls| ==> calls[i].fetch.table == table && calls[i].fetch.live == live
  }

  /** The fetched items are those under these keys. */
  ghost predicate Collected(lib: Lib, p: Plan, calls: seq<SelectCall>, table: Table, live: Item -> bool, keys: seq<Key>) {
    && (forall k :: k in keys <==> k in table && live(table[k]) && Fetched(lib, p, table[k]))
    && (forall i, j :: 0 <= i < j < |keys| ==> keys[i] != keys[j])
    && FetchedItems(calls) == ItemsOf(table, keys)
  }

  function ScansOf(calls: seq<SelectCall>): (scans: seq<ScanCall>)
    ensures |scans| == |calls|
    ensures forall i :: 0 <= i < |calls| ==>
              var c := calls[i].fetch; scans[i] == ScanCall(c.table, c.live, c.start, c.limit, c.answer, c.listing)
  {
    seq(|calls|, i requires 0 <= i < |calls| =>
      var c := calls[i].fetch; ScanCall(c.table, c.live, c.start, c.limit, c.answer, c.listing))
  }

  lemma {:induction false} ScansReturn(calls: seq<SelectCall>)
    ensures Returned(ScansOf(calls)) == FetchedItems(calls)
  {
    if calls != [] {
      ScansReturn(calls[1..]);
      assert ScansOf(calls)[1..] == ScansOf(calls[1..]);
    }
  }

  lemma {:induction false} ScanCollects(h: Hash, lib: Lib, schema: Schema, where': seq<Where>, calls: seq<SelectCall>, table: Table, live: Item -> bool)
    requires SelectCalls(h, lib, schema, where', calls) && SameStore(calls, table, live) && Classify(schema, where').hash.None?
    ensures Collected(lib, Classify(schema, where'), calls, table, live, calls[0].fetch.listing)
  {
    hide Classify, Scanned, Surviving, Lists;
    var scans, listing := ScansOf(calls), calls[0].fetch.listing;
    forall i | 0 <= i < |scans|
      ensures Scanned(h, schema, None, scans[i]) && scans[i].answer.cursor == calls[i].rows.cursor
    {
      assert Selected(h, lib, schema, where', calls[i]);
    }
    assert ScanCalls(h, schema, None, scans);
    FirstListing(h, schema, scans[0]);
    SegmentedScan(h, schema, None, scans, table, live, listing);
    ScansReturn(calls);
    ListedOnce(listing, table, live);
  }

  lemma FirstListing(h: Hash, schema: Schema, c: ScanCall)
    requires Scanned(h, schema, None, c)
    ensures Lists(c.listing, c.table, c.live)
  {
  }

  lemma ListedOnce(listing: seq<Key>, table: Table, live: Item -> bool)
    requires Lists(listing, table, live)
    ensures forall k :: k in listing <==> k in table && live(table[k])
    ensures forall i, j :: 0 <= i < j < |listing| ==> listing[i] != listing[j]
  {
  }

  /** There is a second call only if the first one gave a token. */
  lemma GoesOn(h: Hash, lib: Lib, schema: Schema, where': seq<Where>, calls: seq<SelectCall>)
    requires SelectCalls(h, lib, schema, where', calls) && |calls| > 1
    ensures calls[0].rows.Rows? && calls[0].rows.cursor.Some?
  {
    hide PageFetched, Classify, Shaped, Surviving;
    assert Selected(h, lib, schema, where', calls[0]);
    assert calls[0].rows.cursor == Some(calls[1].fetch.start);
  }

  lemma TwoOf(listing: seq<Key>)
    requires |listing| > 1 && forall i, j :: 0 <= i < j < |listing| ==> listing[i] != listing[j]
    ensures exists j, k :: j in listing && k in listing && j != k
  {
    assert listing[0] in listing && listing[1] in listing && listing[0] != listing[1];
  }

  /** A plan that answers in one call. */
  lemma {:induction false} GetCollects(h: Hash, lib: Lib, schema: Schema, where': seq<Where>, calls: seq<SelectCall>, table: Table, live: Item -> bool)
    requires SelectCalls(h, lib, schema, where', calls) && SameStore(calls, table, live)
    requires Classify(schema, where').hash.Some? && GetPlan(Classify(schema, where'))
    ensures |calls| == 1 && Collected(lib, Classify(schema, where'), calls, table, live, calls[0].fetch.listing)
  {
    hide Classify, Surviving, GetPlan, Fetched;
    assert Selected(h, lib, schema, where', calls[0]);
    if |calls| > 1 {
      GoesOn(h, lib, schema, where', calls);
    }
    assert calls[1..] == [] && FetchedItems(calls[1..]) == [];
  }

  function FetchesOf(calls: seq<SelectCall>): (fetches: seq<QueryCall>)
    ensures |fetches| == |calls| && forall i :: 0 <= i < |calls| ==> fetches[i] == calls[i].fetch
  {
    seq(|calls|, i requires 0 <= i < |calls| => calls[i].fetch)
  }

  lemma {:induction false} FetchesReturn(calls: seq<SelectCall>)
    ensures HandedBack(FetchesOf(calls)) == FetchedItems(calls)
  {
    if calls != [] {
      FetchesReturn(calls[1..]);
      assert FetchesOf(calls)[1..] == FetchesOf(calls[1..]);
    }
  }

  predicate QueryPlan(p: Plan) { p.hash.Some? && !GetPlan(p) }

  /** With sort values that can be told apart, every call is one of a query. */
  lemma {:induction false} CallIsQueried(h: Hash, lib: Lib, schema: Schema, where': seq<Where>, calls: seq<SelectCall>,
                                         table: Table, live: Item -> bool, kind: Class, n: nat)
    requires SelectCalls(h, lib, schema, where', calls) && SameStore(calls, table, live) && n < |calls|
    requires QueryPlan(Classify(schema, where')) && schema.sort.Some? && Shaped(schema, Classify(schema, where'))
    requires Sortable(lib, table, schema.sort.value, AskOf(schema, Classify(schema, where')), live, kind)
    ensures Queried(h, lib, schema, Question(AskOf(schema, Classify(schema, where')), schema.sort.value, true, kind), calls[n].fetch)
    ensures calls[n].fetch.answer.Answer? && calls[n].rows.Rows? && calls[n].fetch.answer.cursor == calls[n].rows.cursor
  {
    hide Classify, Surviving, GetPlan, Queried, Sortable, Finds, Matches, AskOf, Shaped, Answers;
    var q := Question(AskOf(schema, Classify(schema, where')), schema.sort.value, true, kind);
    assert Selected(h, lib, schema, where', calls[n]);
    if n > 0 {
      CallIsQueried(h, lib, schema, where', calls, table, live, kind, n - 1);
      assert calls[n - 1].rows.cursor == Some(calls[n].fetch.start);
      CursorRanked(h, lib, schema, q, calls[n - 1].fetch);
    }
  }

  /** The token of a page carries a sort value of the class of the others. */
  lemma CursorRanked(h: Hash, lib: Lib, schema: Schema, q: Question, c: QueryCall)
    requires Queried(h, lib, schema, q, c) && c.answer.Answer? && c.answer.cursor.Some?
    ensures q.sort in c.answer.cursor.value && ClassOf(c.answer.cursor.value[q.sort]) == q.kind
  {
    hide Finds, Precedes, KeyOf, Filed, Beyond, RankOf, ClassOf;
    var (page, next) := Cut(c.listing[c.from..], c.limit);
    assert next.Some?;
    var i := c.from + c.limit.value - 1;
    assert c.listing[i] == next.value;
    assert InClass(q.kind)(Ranks(c.table, q.sort, c.listing)[i]);
  }

  lemma {:induction false} QueryCollects(h: Hash, lib: Lib, schema: Schema, where': seq<Where>, calls: seq<SelectCall>,
                                         table: Table, live: Item -> bool, kind: Class)
    requires SelectCalls(h, lib, schema, where', calls) && SameStore(calls, table, live) && Filed(h, schema, table)
    requires QueryPlan(Classify(schema, where')) && schema.sort.Some? && Shaped(schema, Classify(schema, where'))
    requires Sortable(lib, table, schema.sort.value, AskOf(schema, Classify(schema, where')), live, kind)
    ensures Collected(lib, Classify(schema, where'), calls, table, live, calls[0].fetch.listing)
  {
    hide Classify, Selected, Queried, Sortable, Finds, Matches, Holds, AskOf, Shaped, GetPlan, Filed, Fetched;
    var p := Classify(schema, where');
    var q, fetches := Question(AskOf(schema, p), schema.sort.value, true, kind), FetchesOf(calls);
    forall i | 0 <= i < |fetches|
      ensures Queried(h, lib, schema, q, fetches[i]) && fetches[i].answer.Answer?
      ensures calls[i].rows.Rows? && fetches[i].answer.cursor == calls[i].rows.cursor
    {
      CallIsQueried(h, lib, schema, where', calls, table, live, kind, i);
    }
    assert QueryCalls(h, lib, schema, q, fetches);
    var whole := WholeQuery(h, lib, schema, q, fetches[0]);
    QueryPagesConcatenate(h, lib, schema, q, fetches, whole);
    WholeAnswer(h, lib, schema, q, whole);
    FetchesReturn(calls);
    FoundWhole(h, lib, schema, p, q, fetches[0]);
  }

  /** The unlimited query over the listing of a call. */
  lemma WholeQuery(h: Hash, lib: Lib, schema: Schema, q: Question, c: QueryCall) returns (whole: QueryCall)
    requires Queried(h, lib, schema, q, c) && c.start == map[]
    ensures Queried(h, lib, schema, q, whole) && whole.start == map[] && whole.limit.None?
    ensures whole.table == c.table && whole.live == c.live && whole.listing == c.listing
  {
    hide Matches, Precedes, RankOf, KeyOf, Filed, Ascending, AllOk;
    assert forall k :: k in c.listing ==> k in c.table;
    whole := QueryCall(c.table, c.live, map[], None, Answer(ItemsOf(c.table, c.listing), None), c.listing, 0);
    assert c.listing[0..] == c.listing;
  }

  lemma FoundWhole(h: Hash, lib: Lib, schema: Schema, p: Plan, q: Question, c: QueryCall)
    requires Queried(h, lib, schema, q, c) && Shaped(schema, p) && p.hash.Some? && q.ask == AskOf(schema, p)
    ensures forall k :: k in c.listing <==> k in c.table && c.live(c.table[k]) && Fetched(lib, p, c.table[k])
    ensures forall i, j :: 0 <= i < j < |c.listing| ==> c.listing[i] != c.listing[j]
  {
    hide Matches, Precedes, RankOf, KeyOf, Filed, Fetched, Shaped, AskOf, Beyond;
    forall k | k in c.table
      ensures Matches(lib, q.ask, c.live, c.table[k]) <==> c.live(c.table[k]) && Fetched(lib, p, c.table[k])
    {
      QueryFetches(lib, schema, p, c.live, c.table[k]);
    }
  }

  /** Without a sort key the hash value names one item, and the first page is the last. */
  lemma {:induction false} SingleCollects(h: Hash, lib: Lib, schema: Schema, where': seq<Where>, calls: seq<SelectCall>,
                                          table: Table, live: Item -> bool)
    requires SelectCalls(h, lib, schema, where', calls) && SameStore(calls, table, live) && Injective(h) && Filed(h, schema, table)
    requires QueryPlan(Classify(schema, where')) && schema.sort.None? && Shaped(schema, Classify(schema, where'))
    ensures |calls| == 1 && Collected(lib, Classify(schema, where'), calls, table, live, calls[0].fetch.listing)
  {
    hide Classify, Surviving, GetPlan, Matches, Holds, Shaped, Fetched;
    var p, c := Classify(schema, where'), calls[0].fetch;
    assert Selected(h, lib, schema, where', calls[0]);
    forall k | k in table
      ensures Matches(lib, AskOf(schema, p), live, table[k]) <==> live(table[k]) && Fetched(lib, p, table[k])
    {
      QueryFetches(lib, schema, p, live, table[k]);
    }
    OneMatch(h, lib, schema, table, AskOf(schema, p), live, c.listing);
    assert c.listing[0..] == c.listing;
    if |calls| > 1 {
      GoesOn(h, lib, schema, where', calls);
    }
    assert calls[1..] == [] && FetchedItems(calls[1..]) == [];
  }

  lemma OneMatch(h: Hash, lib: Lib, schema: Schema, table: Table, ask: Ask, live: Item -> bool, listing: seq<Key>)
    requires Filed(h, schema, table) && schema.sort.None? && ask.hash == schema.hash && Finds(listing, lib, table, ask, live)
    ensures |listing| <= 1
  {
    forall j, k | j in listing && k in listing
      ensures j == k
    {
      assert KeyOf(h, schema, table[j]) == Some(j) && KeyOf(h, schema, table[k]) == Some(k);
    }
    if |listing| > 1 {
      TwoOf(listing);
    }
  }

  /** A query plan pages reliably if the sort values of its matches can be told apart. */
  ghost predicate Pageable(lib: Lib, schema: Schema, p: Plan, table: Table, live: Item -> bool)
    requires Shaped(schema, p)
  {
    QueryPlan(p) && schema.sort.Some? ==> exists kind :: Sortable(lib, table, schema.sort.value, AskOf(schema, p), live, kind)
  }

  /** On an unchanged table, whatever the limits: the rows of all calls are, each once, the
      unexpired items that satisfy what the plan keeps. */
  lemma {:induction false} SelectPagesTogether(h: Hash, lib: Lib, schema: Schema, where': seq<Where>, calls: seq<SelectCall>,
                                               table: Table, live: Item -> bool) returns (keys: seq<Key>)
    requires SelectCalls(h, lib, schema, where', calls) && SameStore(calls, table, live) && Injective(h) && Filed(h, schema, table)
    requires Shaped(schema, Classify(schema, where')) && Pageable(lib, schema, Classify(schema, where'), table, live)
    ensures RowsOf(table, Together(calls), keys)
    ensures forall k :: k in keys <==> k in table && live(table[k]) && Kept(lib, Classify(schema, where'), table[k])
    ensures GetPlan(Classify(schema, where')) ==> |calls| == 1
  {
    hide Classify, SelectCalls, Filed, Sortable, Surviving, Fetched, AllHold, AskOf, Shaped;
    AllSelected(h, lib, schema, where', calls);
    var p, found := Classify(schema, where'), calls[0].fetch.listing;
    if p.hash.None? {
      ScanCollects(h, lib, schema, where', calls, table, live);
    } else if GetPlan(p) {
      GetCollects(h, lib, schema, where', calls, table, live);
    } else if schema.sort.None? {
      SingleCollects(h, lib, schema, where', calls, table, live);
    } else {
      var kind :| Sortable(lib, table, schema.sort.value, AskOf(schema, p), live, kind);
      QueryCollects(h, lib, schema, where', calls, table, live, kind);
    }
    RowsSurvive(h, lib, schema, where', calls);
    SurvivingKeys(lib, p.rest, table, found);
    KeptParts(lib, p);
    keys := KeysWhere(lib, p.rest, table, found);
  }

  lemma AllSelected(h: Hash, lib: Lib, schema: Schema, where': seq<Where>, calls: seq<SelectCall>)
    requires SelectCalls(h, lib, schema, where', calls)
    ensures calls != [] && forall i :: 0 <= i < |calls| ==> Selected(h, lib, schema, where', calls[i])
  {
    hide Selected;
  }
}
