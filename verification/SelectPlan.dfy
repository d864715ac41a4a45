/** PartiQL SELECT: the conditions are split into a key plan and a residual filter. */
module SelectPlan {
  import opened Values
  import opened Evaluation
  import opened Records
  import opened Engine
  import opened Paging
  import opened Reading
  import opened PartiQL
  import opened PartiQLMeaning
  import opened Querying

  // ---- splitting the WHERE clause

  predicate IsHashEq(schema: Schema, c: Where) {
    c.attr == schema.hash && c.Simple? && c.op == WEq
  }

  /** `pqCondToSortKey`. */
  function SortOf(c: Where): Option<SortCond> {
    match c
    case Simple(a, WEq, v) => Some(SortCond(a, OpEQ, v, Null))
    case Simple(a, WLt, v) => Some(SortCond(a, OpLT, v, Null))
    case Simple(a, WLe, v) => Some(SortCond(a, OpLTE, v, Null))
    case Simple(a, WGt, v) => Some(SortCond(a, OpGT, v, Null))
    case Simple(a, WGe, v) => Some(SortCond(a, OpGTE, v, Null))
    case Range(a, lo, hi) => Some(SortCond(a, OpBETWEEN, lo, hi))
    case _ => None
  }

  predicate IsSort(schema: Schema, c: Where) {
    !IsHashEq(schema, c) && schema.sort == Some(c.attr) && SortOf(c).Some?
  }

  /** The last hash equality, the last sort condition, and everything else. */
  datatype Plan = Plan(hash: Option<Where>, sort: Option<Where>, rest: seq<Where>)

  function Classify(schema: Schema, where': seq<Where>): Plan {
    if where' == [] then Plan(None, None, [])
    else
      var n := |where'| - 1;
      var p, c := Classify(schema, where'[..n]), where'[n];
      if IsHashEq(schema, c) then p.(hash := Some(c))
      else if IsSort(schema, c) then p.(sort := Some(c))
      else p.(rest := p.rest + [c])
  }

  /** What the plan and its filter look at. Without a hash equality the sort condition
      is not among it. */
  predicate Kept(lib: Lib, p: Plan, item: Item) {
    && AllHold(lib, p.rest, item)
    && (p.hash.Some? ==> Holds(lib, p.hash.value, item))
    && (p.hash.Some? && p.sort.Some? ==> Holds(lib, p.sort.value, item))
  }

  predicate Shaped(schema: Schema, p: Plan) {
    && (p.hash.Some? ==> IsHashEq(schema, p.hash.value))
    && (p.sort.Some? ==> IsSort(schema, p.sort.value))
  }

  lemma {:induction false} ClassifyShapes(schema: Schema, where': seq<Where>)
    ensures Shaped(schema, Classify(schema, where'))
  {
    if where' != [] {
      ClassifyShapes(schema, where'[..|where'| - 1]);
    }
  }

  /** At most one hash equality, at most one sort condition, and that one only beside
      a hash equality. */
  predicate Plannable(schema: Schema, where': seq<Where>) {
    && (forall i, j :: 0 <= i < j < |where'| ==> !(IsHashEq(schema, where'[i]) && IsHashEq(schema, where'[j])))
    && (forall i, j :: 0 <= i < j < |where'| ==> !(IsSort(schema, where'[i]) && IsSort(schema, where'[j])))
    && ((exists i :: 0 <= i < |where'| && IsSort(schema, where'[i])) ==>
          exists i :: 0 <= i < |where'| && IsHashEq(schema, where'[i]))
  }

  /** The plan has a hash equality or a sort condition exactly if the clause has one. */
  lemma {:induction false} ClassifyFinds(schema: Schema, where': seq<Where>)
    ensures Classify(schema, where').hash.Some? <==> exists i :: 0 <= i < |where'| && IsHashEq(schema, where'[i])
    ensures Classify(schema, where').sort.Some? <==> exists i :: 0 <= i < |where'| && IsSort(schema, where'[i])
  {
    hide IsHashEq, IsSort;
    if where' != [] {
      var n := |where'| - 1;
      var init := where'[..n];
      ClassifyFinds(schema, init);
      assert forall i :: 0 <= i < n ==> init[i] == where'[i];
      NotBoth(schema, where'[n]);
    }
  }

  lemma NotBoth(schema: Schema, c: Where)
    ensures !(IsHashEq(schema, c) && IsSort(schema, c))
  {
  }

  /** What the plan looks at, the sort condition whatever the plan. */
  predicate Listed(lib: Lib, p: Plan, item: Item) {
    && AllHold(lib, p.rest, item)
    && (p.hash.Some? ==> Holds(lib, p.hash.value, item))
    && (p.sort.Some? ==> Holds(lib, p.sort.value, item))
  }

  lemma {:induction false} NothingLost(lib: Lib, schema: Schema, where': seq<Where>, item: Item)
    requires forall i, j :: 0 <= i < j < |where'| ==> !(IsHashEq(schema, where'[i]) && IsHashEq(schema, where'[j]))
    requires forall i, j :: 0 <= i < j < |where'| ==> !(IsSort(schema, where'[i]) && IsSort(schema, where'[j]))
    ensures Listed(lib, Classify(schema, where'), item) <==> AllHold(lib, where', item)
  {
    hide IsHashEq, IsSort, Holds;
    if where' != [] {
      var n := |where'| - 1;
      var init, c := where'[..n], where'[n];
      var p := Classify(schema, init);
      NothingLost(lib, schema, init, item);
      ClassifyFinds(schema, init);
      NotBoth(schema, c);
      AllHoldMore(lib, init, c, item);
      AllHoldMore(lib, p.rest, c, item);
      assert where' == init + [c];
    }
  }

  lemma AllHoldMore(lib: Lib, conds: seq<Where>, c: Where, item: Item)
    ensures AllHold(lib, conds + [c], item) <==> AllHold(lib, conds, item) && Holds(lib, c, item)
  {
    hide Holds;
    if AllHold(lib, conds + [c], item) {
      assert forall i :: 0 <= i < |conds| ==> (conds + [c])[i] == conds[i];
      assert (conds + [c])[|conds|] == c;
    }
  }

  /** A plannable clause is kept whole. */
  lemma PlannableKept(lib: Lib, schema: Schema, where': seq<Where>, item: Item)
    requires Plannable(schema, where')
    ensures Kept(lib, Classify(schema, where'), item) <==> AllHold(lib, where', item)
  {
    hide Holds, IsHashEq, IsSort;
    NothingLost(lib, schema, where', item);
    ClassifyFinds(schema, where');
  }

  /** Any clause is kept in part: what satisfies all conditions satisfies the plan's. */
  lemma {:induction false} KeptIsImplied(lib: Lib, schema: Schema, where': seq<Where>, item: Item)
    requires AllHold(lib, where', item)
    ensures Listed(lib, Classify(schema, where'), item)
  {
    hide IsHashEq, IsSort, Holds;
    if where' != [] {
      var n := |where'| - 1;
      AllHoldMore(lib, where'[..n], where'[n], item);
      assert where' == where'[..n] + [where'[n]];
      KeptIsImplied(lib, schema, where'[..n], item);
      AllHoldMore(lib, Classify(schema, where'[..n]).rest, where'[n], item);
    }
  }

  // ---- the three ways to fetch

  lemma SortCondHolds(lib: Lib, c: Where, item: Item)
    requires SortOf(c).Some?
    ensures Holds(lib, c, item) <==> SortOf(c).value.name in item && MatchesSort(lib, item[SortOf(c).value.name], SortOf(c).value)
    ensures SortOf(c).value.name == c.attr
  {
  }

  lemma HashEqHolds(lib: Lib, schema: Schema, c: Where, item: Item)
    requires IsHashEq(schema, c)
    ensures Holds(lib, c, item) <==> Lookup(item, schema.hash) == Some(c.val)
  {
  }

  ghost predicate Injective(h: Hash) {
    forall x, y :: h(x) == h(y) ==> x == y
  }

  /** `GetItem`. */
  function GetItem(h: Hash, schema: Schema, table: Table, live: Item -> bool, key: Item): Option<Key> {
    var k := KeyOf(h, schema, key);
    if k.Some? && k.value in table && live(table[k.value]) then k else None
  }

  /** With an injective hash exactly the item with these key values is under their key. */
  lemma GetItemFinds(h: Hash, schema: Schema, table: Table, live: Item -> bool, key: Item, k: Key)
    requires Injective(h) && Filed(h, schema, table) && KeyOf(h, schema, key).Some?
    ensures GetItem(h, schema, table, live, key) == Some(k) <==>
              && k in table && live(table[k])
              && forall a :: IsKeyAttr(schema, a) ==> Lookup(table[k], a) == Lookup(key, a)
  {
    if k in table {
      assert KeyOf(h, schema, table[k]) == Some(k);
      if KeyOf(h, schema, key) == Some(k) {
        assert KeyParts(schema, table[k]) == KeyParts(schema, key);
        var parts := KeyParts(schema, key).value;
        assert parts[0] == (schema.hash, key[schema.hash]);
        if schema.sort.Some? {
          assert parts[1] == (schema.sort.value, key[schema.sort.value]);
        }
      } else if forall a :: IsKeyAttr(schema, a) ==> Lookup(table[k], a) == Lookup(key, a) {
        SameKey(h, schema, table[k], key);
      }
    }
  }

  /** What a plan fetches, before the residual filter. */
  predicate Fetched(lib: Lib, p: Plan, item: Item) {
    && (p.hash.Some? ==> Holds(lib, p.hash.value, item))
    && (p.hash.Some? && p.sort.Some? ==> Holds(lib, p.sort.value, item))
  }

  function AskOf(schema: Schema, p: Plan): Ask
    requires p.hash.Some? && Shaped(schema, p)
  {
    Ask(schema.hash, p.hash.value.val, if p.sort.Some? then SortOf(p.sort.value) else None)
  }

  lemma QueryFetches(lib: Lib, schema: Schema, p: Plan, live: Item -> bool, item: Item)
    requires p.hash.Some? && Shaped(schema, p)
    ensures Matches(lib, AskOf(schema, p), live, item) <==> live(item) && Fetched(lib, p, item)
  {
    hide Holds, MatchesSort, SortOf;
    HashEqHolds(lib, schema, p.hash.value, item);
    if p.sort.Some? {
      SortCondHolds(lib, p.sort.value, item);
    }
  }

  predicate GetPlan(p: Plan) {
    p.hash.Some? && p.sort.Some? && p.sort.value.Simple? && p.sort.value.op == WEq
  }

  lemma GetFetches(h: Hash, lib: Lib, schema: Schema, table: Table, live: Item -> bool, p: Plan, k: Key)
    requires Injective(h) && Filed(h, schema, table) && Shaped(schema, p) && GetPlan(p)
    ensures var key := map[schema.hash := p.hash.value.val, schema.sort.value := p.sort.value.val];
            GetItem(h, schema, table, live, key) == Some(k) <==> k in table && live(table[k]) && Fetched(lib, p, table[k])
  {
    var key: Item := map[schema.hash := p.hash.value.val, schema.sort.value := p.sort.value.val];
    assert schema.hash != schema.sort.value;
    assert KeyOf(h, schema, key).Some?;
    hide KeyOf, GetItem;
    GetItemFinds(h, schema, table, live, key, k);
    assert Lookup(key, schema.hash) == Some(p.hash.value.val);
    assert Lookup(key, schema.sort.value) == Some(p.sort.value.val);
    assert IsKeyAttr(schema, schema.hash) && IsKeyAttr(schema, schema.sort.value);
  }

  // ---- executing the plan

  datatype Selection = Failed | Rows(items: seq<Item>, cursor: Option<Item>)

  /** The rows are items of the table, no item twice. */
  predicate RowsOf(table: Table, items: seq<Item>, keys: seq<Key>) {
    && (forall k :: k in keys ==> k in table) && items == ItemsOf(table, keys)
    && forall i, j :: 0 <= i < j < |keys| ==> keys[i] != keys[j]
  }

  lemma RowsMore(table: Table, items: seq<Item>, keys: seq<Key>, k: Key)
    requires RowsOf(table, items, keys) && k in table && k !in keys
    ensures RowsOf(table, items + [table[k]], keys + [k])
  {
  }

  lemma NoRows(table: Table)
    ensures RowsOf(table, [], [])
  {
  }

  lemma RowsLength(table: Table, items: seq<Item>, keys: seq<Key>)
    requires RowsOf(table, items, keys)
    ensures |items| == |keys| && forall k :: k in keys ==> k in table
  {
  }

  lemma RowsAt(table: Table, items: seq<Item>, keys: seq<Key>, i: nat)
    requires RowsOf(table, items, keys) && i < |keys|
    ensures |items| == |keys| && keys[i] in table && items[i] == table[keys[i]] && keys[i] !in keys[..i]
  {
    assert keys[i] in keys;
  }

  method Split(schema: Schema, where': seq<Where>) returns (p: Plan)
    ensures p == Classify(schema, where')
  {
    hide IsHashEq, IsSort;
    p := Plan(None, None, []);
    for i := 0 to |where'|
      invariant p == Classify(schema, where'[..i])
    {
      assert where'[..i + 1][..i] == where'[..i];
      var c := where'[i];
      if IsHashEq(schema, c) {
        p := p.(hash := Some(c));
      } else if IsSort(schema, c) {
        p := p.(sort := Some(c));
      } else {
        p := p.(rest := p.rest + [c]);
      }
    }
    assert where'[..|where'|] == where';
  }

  /** What a plan fetches in one call: a page of the scan, the one item, or a page of the
      query, with the page's own cursor. */
  ghost predicate PageFetched(h: Hash, lib: Lib, schema: Schema, p: Plan, c: QueryCall)
    requires Shaped(schema, p)
  {
    if p.hash.None? then Scanned(h, schema, None, ScanCall(c.table, c.live, c.start, c.limit, c.answer, c.listing))
    else if GetPlan(p) then
      && (forall k :: k in c.listing <==> k in c.table && c.live(c.table[k]) && Fetched(lib, p, c.table[k]))
      && |c.listing| <= 1 && c.answer == Answer(ItemsOf(c.table, c.listing), None)
    else
      && Finds(c.listing, lib, c.table, AskOf(schema, p), c.live)
      && c.from <= |c.listing| && c.limit != Some(0) && Answers(h, schema, c.table, c.answer, Cut(c.listing[c.from..], c.limit))
      && (c.start == map[] ==> c.from == 0)
      && (schema.sort.Some? ==>
            forall kind :: Sortable(lib, c.table, schema.sort.value, AskOf(schema, p), c.live, kind)
                           && (c.start == map[] || (schema.sort.value in c.start && ClassOf(c.start[schema.sort.value]) == kind)) ==>
              Queried(h, lib, schema, Question(AskOf(schema, p), schema.sort.value, true, kind), c))
  }

  /** Scan, GetItem or Query. With a limit or a token it fetches a part. */
  method Fetch(h: Hash, lib: Lib, schema: Schema, table: Table, live: Item -> bool, p: Plan, start: Item, limit: Option<nat>)
    returns (r: Answer, ghost keys: seq<Key>, ghost c: QueryCall)
    requires Injective(h) && Filed(h, schema, table) && Shaped(schema, p) && limit != Some(0)
    ensures r.Refused? <==> p.hash.None? && start != map[] && KeyOf(h, schema, start).None?
    ensures c == QueryCall(table, live, start, limit, r, c.listing, c.from)
    ensures r.Answer? ==> PageFetched(h, lib, schema, p, c)
    ensures r.Answer? ==> RowsOf(table, r.items, keys)
    ensures r.Answer? ==> forall k :: k in keys ==> live(table[k]) && Fetched(lib, p, table[k])
    ensures r.Answer? && start == map[] && limit.None? ==>
              forall k :: k in table && live(table[k]) && Fetched(lib, p, table[k]) ==> k in keys
  {
    hide KeyOf, Holds, Matches, Sortable, Precedes, Queried, Scanned, Finds;
    keys := [];
    if p.hash.None? {
      ghost var listing;
      r, listing := Scan(h, schema, table, live, None, start, limit);
      if r.Answer? {
        var after := ScanStart(h, schema, start);
        keys := PageOf(listing, after, limit, KeyLess).0;
        KeyOrder();
        PageFacts(listing, after, limit, KeyLess, AnyKey);
      }
      c := QueryCall(table, live, start, limit, r, listing, 0);
    } else if GetPlan(p) {
      var key: Item := map[schema.hash := p.hash.value.val, schema.sort.value := p.sort.value.val];
      var k := GetItem(h, schema, table, live, key);
      forall j
        ensures k == Some(j) <==> j in table && live(table[j]) && Fetched(lib, p, table[j])
      {
        GetFetches(h, lib, schema, table, live, p, j);
      }
      keys := if k.Some? then [k.value] else [];
      r := Answer(if k.Some? then [table[k.value]] else [], None);
      c := QueryCall(table, live, start, limit, r, keys, 0);
    } else {
      ghost var listing, from;
      r, listing, from := Query(h, lib, schema, table, AskOf(schema, p), live, true, start, limit);
      keys := Cut(listing[from..], limit).0;
      c := QueryCall(table, live, start, limit, r, listing, from);
      FoundOnce(listing, from, limit, lib, table, AskOf(schema, p), live);
      forall k | k in table
        ensures Matches(lib, AskOf(schema, p), live, table[k]) <==> live(table[k]) && Fetched(lib, p, table[k])
      {
        QueryFetches(lib, schema, p, live, table[k]);
      }
    }
  }

  /** A cut of the matches holds matches, none twice, and all of them if nothing is cut off. */
  lemma FoundOnce(listing: seq<Key>, from: nat, limit: Option<nat>, lib: Lib, table: Table, ask: Ask, live: Item -> bool)
    requires Finds(listing, lib, table, ask, live) && from <= |listing| && limit != Some(0)
    ensures var keys := Cut(listing[from..], limit).0;
            && (forall k :: k in keys ==> k in table && Matches(lib, ask, live, table[k]))
            && (forall i, j :: 0 <= i < j < |keys| ==> keys[i] != keys[j])
            && (from == 0 && limit.None? ==> forall k :: k in table && Matches(lib, ask, live, table[k]) ==> k in keys)
  {
    hide Matches;
    var keys := Cut(listing[from..], limit).0;
    assert forall i :: 0 <= i < |keys| ==> keys[i] == listing[from + i] && listing[from + i] in listing;
    if from == 0 && limit.None? {
      assert keys == listing;
    }
  }

  /** The items that satisfy the conditions, in their order. */
  function Surviving(lib: Lib, conds: seq<Where>, items: seq<Item>): seq<Item> {
    if items == [] then []
    else
      var n := |items| - 1;
      Surviving(lib, conds, items[..n]) + (if AllHold(lib, conds, items[n]) then [items[n]] else [])
  }

  /** `applyFilterExpression` with the compiled conditions. */
  method Filter(lib: Lib, table: Table, items: seq<Item>, rest: seq<Where>, ghost keys: seq<Key>)
    returns (ok: bool, kept: seq<Item>, ghost keptKeys: seq<Key>)
    requires RowsOf(table, items, keys) && rest != []
    ensures ok ==> RowsOf(table, kept, keptKeys) && kept == Surviving(lib, rest, items)
    ensures ok ==> forall k :: k in keptKeys <==> k in keys && AllHold(lib, rest, table[k])
    ensures ok <==> AllInOk(rest) || items == []
  {
    hide EvalFilter, AllHold, AllInOk, FilterText, BindingsOf, RowsOf;
    NoRows(table);
    RowsLength(table, items, keys);
    var text, names, values := CondsToFilterExpr(rest);
    BindingsAre(rest);
    ok, kept, keptKeys := true, [], [];
    for i := 0 to |items|
      invariant kept == Surviving(lib, rest, items[..i]) && (i > 0 ==> AllInOk(rest))
      invariant forall k :: k in keptKeys ==> k in table
      invariant forall k :: k in keptKeys <==> k in keys[..i] && k in table && AllHold(lib, rest, table[k])
      invariant RowsOf(table, kept, keptKeys)
    {
      CompilePreservesMeaning(lib, rest, items[i]);
      assert items[..i + 1][..i] == items[..i];
      RowsAt(table, items, keys, i);
      assert keys[..i + 1] == keys[..i] + [keys[i]] && keys[i] in keys;
      var holds := EvalFilter(lib, text, Bindings(names, values), items[i]);
      if holds.Error? {
        return false, [], [];
      }
      if holds.value {
        RowsMore(table, kept, keptKeys, keys[i]);
        kept, keptKeys := kept + [items[i]], keptKeys + [keys[i]];
      }
    }
    assert keys[..|keys|] == keys && items[..|items|] == items;
  }

  lemma BindingsAre(conds: seq<Where>)
    ensures BindingsOf(conds) == Bindings(NamesOf(conds, |conds|), ValuesOf(conds, |conds|))
  {
  }

  /** One call of SELECT: the page the plan fetched, and what was made of it. */
  datatype SelectCall = SelectCall(fetch: QueryCall, rows: Selection)

  /** The rows are what satisfies the remaining conditions of the page, in its order, and
      the cursor is the page's own. */
  ghost predicate Selected(h: Hash, lib: Lib, schema: Schema, where': seq<Where>, c: SelectCall) {
    && Shaped(schema, Classify(schema, where')) && PageFetched(h, lib, schema, Classify(schema, where'), c.fetch)
    && c.fetch.answer.Answer?
    && c.rows == Rows(Surviving(lib, Classify(schema, where').rest, c.fetch.answer.items), c.fetch.answer.cursor)
  }

  /** `executePartiQLSelect`: every row satisfies the conditions the plan kept, and
      without limit or token every unexpired item that does is a row. */
  method Select(h: Hash, lib: Lib, schema: Schema, table: Table, live: Item -> bool, where': seq<Where>, start: Item, limit: Option<nat>)
    returns (r: Selection, ghost keys: seq<Key>, ghost c: QueryCall)
    requires Injective(h) && Filed(h, schema, table) && limit != Some(0)
    ensures c == QueryCall(table, live, start, limit, c.answer, c.listing, c.from)
    ensures r.Failed? <==> c.answer.Refused? || (!AllInOk(Classify(schema, where').rest) && c.answer.items != [])
    ensures c.answer.Refused? <==> Classify(schema, where').hash.None? && start != map[] && KeyOf(h, schema, start).None?
    ensures r.Rows? ==> Selected(h, lib, schema, where', SelectCall(c, r))
    ensures r.Rows? ==> RowsOf(table, r.items, keys)
    ensures r.Rows? ==> forall k :: k in keys ==> live(table[k]) && Kept(lib, Classify(schema, where'), table[k])
    ensures r.Rows? && start == map[] && limit.None? ==>
              forall k :: k in table && live(table[k]) && Kept(lib, Classify(schema, where'), table[k]) ==> k in keys
    ensures r.Rows? && start == map[] && limit.None? && Plannable(schema, where') ==>
              forall k :: k in keys <==> k in table && live(table[k]) && AllHold(lib, where', table[k])
  {
    assert AllInOk([]);
    hide KeyOf, Holds, IsHashEq, IsSort, AllInOk, Classify, Plannable, Kept, AllHold, PageFetched;
    if Plannable(schema, where') {
      forall k | k in table
        ensures Kept(lib, Classify(schema, where'), table[k]) <==> AllHold(lib, where', table[k])
      {
        PlannableKept(lib, schema, where', table[k]);
      }
    }
    KeptParts(lib, Classify(schema, where'));
    var p := Split(schema, where');
    ClassifyShapes(schema, where');
    ghost var fetched;
    var a;
    a, fetched, c := Fetch(h, lib, schema, table, live, p, start, limit);
    keys := [];
    if a.Refused? {
      r := Failed;
      return;
    }
    r, keys := Rows(a.items, a.cursor), fetched;
    if p.rest != [] && |a.items| > 0 {
      var ok, kept;
      ok, kept, keys := Filter(lib, table, a.items, p.rest, fetched);
      r := if ok then Rows(kept, a.cursor) else Failed;
    } else {
      NothingToFilter(lib, p.rest, a.items);
    }
  }

  lemma {:induction false} NothingToFilter(lib: Lib, conds: seq<Where>, items: seq<Item>)
    requires conds == [] || items == []
    ensures Surviving(lib, conds, items) == items
  {
    hide Holds;
    if items != [] {
      NothingToFilter(lib, conds, items[..|items| - 1]);
    }
  }

  lemma KeptParts(lib: Lib, p: Plan)
    ensures forall item: Item :: Kept(lib, p, item) <==> AllHold(lib, p.rest, item) && Fetched(lib, p, item)
    ensures p.rest == [] ==> forall item: Item :: AllHold(lib, p.rest, item)
  {
    hide Holds;
  }

  /** Whatever the clause, nothing that satisfies it is missing. */
  lemma SelectMissesNothing(lib: Lib, schema: Schema, where': seq<Where>, item: Item)
    requires AllHold(lib, where', item)
    ensures Kept(lib, Classify(schema, where'), item)
  {
    hide Classify, Holds;
    KeptIsImplied(lib, schema, where', item);
  }

  // ---- exactly which clauses are answered exactly

  /** On every table, and whatever has expired, the rows satisfy the whole clause. */
  ghost predicate ExactEverywhere(h: Hash, lib: Lib, schema: Schema, where': seq<Where>) {
    forall table, live :: Filed(h, schema, table) ==> ExactOn(lib, schema, where', table, live)
  }

  predicate ExactOn(lib: Lib, schema: Schema, where': seq<Where>, table: Table, live: Item -> bool) {
    forall k :: k in table && live(table[k]) && Kept(lib, Classify(schema, where'), table[k]) ==> AllHold(lib, where', table[k])
  }

  /** The item satisfies what is kept, and not the clause. */
  predicate Fails(lib: Lib, schema: Schema, where': seq<Where>, item: Item) {
    KeyParts(schema, item).Some? && Kept(lib, Classify(schema, where'), item) && !AllHold(lib, where', item)
  }

  lemma ExactOnItems(h: Hash, lib: Lib, schema: Schema, where': seq<Where>)
    ensures ExactEverywhere(h, lib, schema, where') <==> forall item :: !Fails(lib, schema, where', item)
  {
    hide Kept, AllHold, Classify;
    if item :| Fails(lib, schema, where', item) {
      var k := KeyOf(h, schema, item).value;
      var table: Table := map[k := item];
      assert Filed(h, schema, table);
      assert !ExactOn(lib, schema, where', table, (x: Item) => true);
    }
    if !ExactEverywhere(h, lib, schema, where') {
      var table, live :| Filed(h, schema, table) && !ExactOn(lib, schema, where', table, live);
      var k :| k in table && live(table[k]) && Kept(lib, Classify(schema, where'), table[k]) && !AllHold(lib, where', table[k]);
      assert KeyOf(h, schema, table[k]).Some?;
      assert Fails(lib, schema, where', table[k]);
    }
  }

  /** The condition on a value that is there. */
  predicate On(lib: Lib, c: Where, v: Value) {
    Holds(lib, c, map[c.attr := v])
  }

  lemma HoldsOn(lib: Lib, c: Where, item: Item)
    requires c.attr in item
    ensures Holds(lib, c, item) <==> On(lib, c, item[c.attr])
  {
    assert Lookup(item, c.attr) == Lookup(map[c.attr := item[c.attr]], c.attr);
  }

  /** A condition looks at its own attribute only. */
  lemma HoldsLocally(lib: Lib, c: Where, item: Item, other: Item)
    requires Lookup(item, c.attr) == Lookup(other, c.attr)
    ensures Holds(lib, c, item) <==> Holds(lib, c, other)
  {
  }

  /** The conditions the plan keeps. */
  function KeptConds(p: Plan): seq<Where> {
    p.rest + (if p.hash.Some? then [p.hash.value] else [])
           + (if p.hash.Some? && p.sort.Some? then [p.sort.value] else [])
  }

  lemma KeptIsAll(lib: Lib, p: Plan, item: Item)
    ensures Kept(lib, p, item) <==> forall c :: c in KeptConds(p) ==> Holds(lib, c, item)
  {
    hide Holds;
    EachHolds(lib, p.rest, item);
  }

  /** What the plan does not keep are conditions on key attributes. */
  lemma {:induction false} DroppedAreKeys(schema: Schema, where': seq<Where>, c: Where)
    requires c in where'
    ensures c in Classify(schema, where').rest || IsHashEq(schema, c) || IsSort(schema, c)
  {
    hide IsHashEq, IsSort;
    var n := |where'| - 1;
    assert where' == where'[..n] + [where'[n]];
    if c in where'[..n] {
      DroppedAreKeys(schema, where'[..n], c);
    }
  }

  /** On its attribute, what is kept says at least as much as c. */
  ghost predicate Covered(lib: Lib, kept: seq<Where>, c: Where) {
    forall v :: Allowed(lib, kept, c.attr, v) ==> On(lib, c, v)
  }

  predicate Allowed(lib: Lib, kept: seq<Where>, attr: string, v: Value) {
    forall k :: k in kept && k.attr == attr ==> On(lib, k, v)
  }

  ghost predicate Satisfiable(lib: Lib, schema: Schema, p: Plan) {
    exists item :: KeyParts(schema, item).Some? && Kept(lib, p, item)
  }

  /** A kept item, with a value that the kept conditions on its attribute allow and c does
      not, fails. */
  lemma FailsWith(lib: Lib, schema: Schema, where': seq<Where>, item: Item, c: Where, v: Value)
    requires KeyParts(schema, item).Some? && Kept(lib, Classify(schema, where'), item)
    requires c in where' && Allowed(lib, KeptConds(Classify(schema, where')), c.attr, v) && !On(lib, c, v)
    ensures Fails(lib, schema, where', item[c.attr := v])
  {
    hide Classify, Kept, AllHold, Holds, On;
    var p, other := Classify(schema, where'), item[c.attr := v];
    forall k | k in KeptConds(p)
      ensures Holds(lib, k, other)
    {
      KeptIsAll(lib, p, item);
      if k.attr == c.attr {
        HoldsOn(lib, k, other);
      } else {
        HoldsLocally(lib, k, item, other);
      }
    }
    KeptIsAll(lib, p, other);
    HoldsOn(lib, c, other);
    EachHolds(lib, where', other);
  }

  /** Any clause: it is answered exactly on every table if and only if each of its
      conditions is covered by the kept ones on the same attribute, or the kept ones
      contradict each other. */
  lemma SelectExactIff(h: Hash, lib: Lib, schema: Schema, where': seq<Where>)
    ensures ExactEverywhere(h, lib, schema, where') <==>
              || !Satisfiable(lib, schema, Classify(schema, where'))
              || forall c :: c in where' ==> Covered(lib, KeptConds(Classify(schema, where')), c)
  {
    hide Classify, Kept, AllHold, Holds, On, KeptConds, IsHashEq, IsSort;
    var p := Classify(schema, where');
    ExactOnItems(h, lib, schema, where');
    if Satisfiable(lib, schema, p) && exists c :: c in where' && !Covered(lib, KeptConds(p), c) {
      var item :| KeyParts(schema, item).Some? && Kept(lib, p, item);
      var c :| c in where' && !Covered(lib, KeptConds(p), c);
      var v :| Allowed(lib, KeptConds(p), c.attr, v) && !On(lib, c, v);
      FailsWith(lib, schema, where', item, c, v);
    }
    if forall c :: c in where' ==> Covered(lib, KeptConds(p), c) {
      forall item | KeyParts(schema, item).Some? && Kept(lib, p, item)
        ensures AllHold(lib, where', item)
      {
        forall c | c in where'
          ensures Holds(lib, c, item)
        {
          CoveredHolds(lib, schema, where', c, item);
        }
        EachHolds(lib, where', item);
      }
    }
  }

  lemma CoveredHolds(lib: Lib, schema: Schema, where': seq<Where>, c: Where, item: Item)
    requires KeyParts(schema, item).Some? && Kept(lib, Classify(schema, where'), item)
    requires c in where' && Covered(lib, KeptConds(Classify(schema, where')), c)
    ensures Holds(lib, c, item)
  {
    hide Classify, Kept, Holds, On;
    var p := Classify(schema, where');
    KeptIsAll(lib, p, item);
    DroppedAreKeys(schema, where', c);
    if c !in p.rest {
      assert c.attr in item;
      forall k | k in KeptConds(p) && k.attr == c.attr
        ensures On(lib, k, item[c.attr])
      {
        HoldsOn(lib, k, item);
      }
      assert Allowed(lib, KeptConds(p), c.attr, item[c.attr]);
      HoldsOn(lib, c, item);
    }
  }

  // ---- clauses whose residual conditions leave the key attributes alone

  /** The residual conditions are on other attributes and some item satisfies them; so
      does some value the last sort condition, if there is one. */
  ghost predicate Ordinary(lib: Lib, schema: Schema, where': seq<Where>) {
    var p := Classify(schema, where');
    && schema.sort != Some(schema.hash)
    && (forall c :: c in p.rest ==> !IsKeyAttr(schema, c.attr))
    && (exists item :: AllHold(lib, p.rest, item))
    && (p.sort.Some? ==> exists v :: On(lib, p.sort.value, v))
  }

  function ValOf(c: Where): Value { if c.Simple? then c.val else Null }

  /** All hash equalities ask for the same value. */
  predicate SameHash(schema: Schema, where': seq<Where>) {
    forall c, d :: c in where' && d in where' && IsHashEq(schema, c) && IsHashEq(schema, d) ==> ValOf(c) == ValOf(d)
  }

  /** The last sort condition is at least as strong as each of them. */
  ghost predicate LastImplies(lib: Lib, schema: Schema, where': seq<Where>) {
    forall c, v :: c in where' && IsSort(schema, c) && On(lib, LastSort(schema, where', c), v) ==> On(lib, c, v)
  }

  function LastSort(schema: Schema, where': seq<Where>, other: Where): Where {
    var p := Classify(schema, where'); if p.sort.Some? then p.sort.value else other
  }

  lemma KeysAmongKept(lib: Lib, schema: Schema, where': seq<Where>, k: Where)
    requires Ordinary(lib, schema, where') && k in KeptConds(Classify(schema, where')) && IsKeyAttr(schema, k.attr)
    ensures var p := Classify(schema, where');
            && p.hash.Some?
            && (k.attr == schema.hash ==> k == p.hash.value)
            && (schema.sort == Some(k.attr) ==> p.sort.Some? && k == p.sort.value)
  {
    hide Classify, On;
    ClassifyShapes(schema, where');
  }

  lemma OrdinarySatisfiable(lib: Lib, schema: Schema, where': seq<Where>) returns (item: Item)
    requires Ordinary(lib, schema, where')
    ensures KeyParts(schema, item).Some? && Kept(lib, Classify(schema, where'), item)
  {
    hide Classify, Holds;
    var p := Classify(schema, where');
    ClassifyShapes(schema, where');
    var some :| AllHold(lib, p.rest, some);
    item := some[schema.hash := if p.hash.Some? then p.hash.value.val else S("x")];
    if schema.sort.Some? {
      var v := S("x");
      if p.sort.Some? {
        v :| On(lib, p.sort.value, v);
      }
      item := item[schema.sort.value := v];
    }
    if p.hash.Some? {
      HashEqHolds(lib, schema, p.hash.value, item);
      if p.sort.Some? {
        HoldsOn(lib, p.sort.value, item);
      }
    }
    forall c | c in p.rest
      ensures Holds(lib, c, item)
    {
      EachHolds(lib, p.rest, some);
      HoldsLocally(lib, c, some, item);
    }
    EachHolds(lib, p.rest, item);
  }

  lemma OnHash(lib: Lib, schema: Schema, c: Where, v: Value)
    requires IsHashEq(schema, c)
    ensures On(lib, c, v) <==> v == ValOf(c)
  {
    HashEqHolds(lib, schema, c, map[c.attr := v]);
  }

  /** An ordinary clause is answered exactly on every table if and only if all hash
      equalities carry the same value, a sort condition stands only beside one, and the
      last sort condition implies the earlier ones. */
  lemma OrdinaryExactIff(h: Hash, lib: Lib, schema: Schema, where': seq<Where>)
    requires Ordinary(lib, schema, where')
    ensures ExactEverywhere(h, lib, schema, where') <==>
              && SameHash(schema, where')
              && ((exists c :: c in where' && IsSort(schema, c)) ==> exists c :: c in where' && IsHashEq(schema, c))
              && LastImplies(lib, schema, where')
  {
    hide Classify, Kept, AllHold, Holds, On, KeptConds, ExactEverywhere, IsHashEq, IsSort, Ordinary, Covered, SameHash, LastImplies, KeyParts, InPlace;
    var p := Classify(schema, where');
    var item := OrdinarySatisfiable(lib, schema, where');
    SelectExactIff(h, lib, schema, where');
    forall c | c in where'
      ensures Covered(lib, KeptConds(p), c) <==> InPlace(lib, schema, p, c)
    {
      PlaceCovered(lib, schema, where', c);
    }
    PlacesAgree(lib, schema, where');
  }

  /** What the plan makes of a key condition is as good as the condition. */
  ghost predicate InPlace(lib: Lib, schema: Schema, p: Plan, c: Where) {
    && (IsHashEq(schema, c) ==> p.hash.Some? && ValOf(c) == ValOf(p.hash.value))
    && (IsSort(schema, c) ==> p.hash.Some? && p.sort.Some? && forall v :: On(lib, p.sort.value, v) ==> On(lib, c, v))
  }

  lemma PlaceCovered(lib: Lib, schema: Schema, where': seq<Where>, c: Where)
    requires Ordinary(lib, schema, where') && c in where'
    ensures Covered(lib, KeptConds(Classify(schema, where')), c) <==> InPlace(lib, schema, Classify(schema, where'), c)
  {
    hide Classify, On, KeptConds, IsHashEq, IsSort, Ordinary, Covered;
    NotBoth(schema, c);
    if IsHashEq(schema, c) {
      HashCovered(lib, schema, where', c);
    } else if IsSort(schema, c) {
      SortCovered(lib, schema, where', c);
    } else {
      DroppedAreKeys(schema, where', c);
      RestCovered(lib, Classify(schema, where'), c);
    }
  }

  lemma PlacesAgree(lib: Lib, schema: Schema, where': seq<Where>)
    ensures (forall c :: c in where' ==> InPlace(lib, schema, Classify(schema, where'), c)) <==>
              && SameHash(schema, where')
              && ((exists c :: c in where' && IsSort(schema, c)) ==> exists c :: c in where' && IsHashEq(schema, c))
              && LastImplies(lib, schema, where')
  {
    hide Classify, On, IsHashEq, IsSort, ValOf;
    ClassifyMembers(schema, where');
    var p := Classify(schema, where');
    if forall c :: c in where' ==> InPlace(lib, schema, p, c) {
      forall c, v | c in where' && IsSort(schema, c) && On(lib, LastSort(schema, where', c), v)
        ensures On(lib, c, v)
      {
        assert InPlace(lib, schema, p, c);
      }
      if c :| c in where' && IsSort(schema, c) {
        assert InPlace(lib, schema, p, c) && p.hash.value in where';
      }
      forall c, d | c in where' && d in where' && IsHashEq(schema, c) && IsHashEq(schema, d)
        ensures ValOf(c) == ValOf(d)
      {
        assert InPlace(lib, schema, p, c) && InPlace(lib, schema, p, d);
      }
    } else {
      var c :| c in where' && !InPlace(lib, schema, p, c);
      if IsSort(schema, c) && p.hash.Some? && !(forall v :: On(lib, p.sort.value, v) ==> On(lib, c, v)) {
        var v :| On(lib, p.sort.value, v) && !On(lib, c, v);
        assert On(lib, LastSort(schema, where', c), v);
      }
    }
  }

  /** The plan's key conditions come from the clause, and are there if the clause has one. */
  lemma ClassifyMembers(schema: Schema, where': seq<Where>)
    ensures var p := Classify(schema, where');
            && (p.hash.Some? ==> p.hash.value in where' && IsHashEq(schema, p.hash.value))
            && (p.sort.Some? ==> p.sort.value in where' && IsSort(schema, p.sort.value))
            && (forall c :: c in where' && IsHashEq(schema, c) ==> p.hash.Some?)
            && (forall c :: c in where' && IsSort(schema, c) ==> p.sort.Some?)
  {
    hide IsHashEq, IsSort, Classify;
    ClassifyFinds(schema, where');
    ClassifyShapes(schema, where');
    ClassifyWithin(schema, where');
  }

  lemma {:induction false} ClassifyWithin(schema: Schema, where': seq<Where>)
    ensures var p := Classify(schema, where');
            && (p.hash.Some? ==> p.hash.value in where') && (p.sort.Some? ==> p.sort.value in where')
  {
    hide IsHashEq, IsSort;
    if where' != [] {
      ClassifyWithin(schema, where'[..|where'| - 1]);
    }
  }

  lemma RestCovered(lib: Lib, p: Plan, c: Where)
    requires c in p.rest
    ensures Covered(lib, KeptConds(p), c)
  {
    hide On;
  }

  lemma HashCovered(lib: Lib, schema: Schema, where': seq<Where>, c: Where)
    requires Ordinary(lib, schema, where') && c in where' && IsHashEq(schema, c)
    ensures Classify(schema, where').hash.Some?
    ensures Covered(lib, KeptConds(Classify(schema, where')), c) <==> ValOf(c) == ValOf(Classify(schema, where').hash.value)
  {
    hide Classify, Holds, On, IsSort, Ordinary, KeptConds;
    var p := Classify(schema, where');
    ClassifyMembers(schema, where');
    assert p.hash.value in KeptConds(p) by {
      HashKept(p);
    }
    assert p.hash.value.attr == c.attr;
    forall v
      ensures Allowed(lib, KeptConds(p), c.attr, v) <==> v == ValOf(p.hash.value)
      ensures On(lib, c, v) <==> v == ValOf(c)
    {
      OnHash(lib, schema, c, v);
      OnHash(lib, schema, p.hash.value, v);
      forall k | k in KeptConds(p) && k.attr == c.attr
        ensures k == p.hash.value
      {
        KeysAmongKept(lib, schema, where', k);
      }
    }
    if Covered(lib, KeptConds(p), c) {
      assert Allowed(lib, KeptConds(p), c.attr, ValOf(p.hash.value));
    }
  }

  lemma HashKept(p: Plan)
    requires p.hash.Some?
    ensures p.hash.value in KeptConds(p) && (p.sort.Some? ==> p.sort.value in KeptConds(p))
  {
  }

  lemma SortCovered(lib: Lib, schema: Schema, where': seq<Where>, c: Where)
    requires Ordinary(lib, schema, where') && c in where' && IsSort(schema, c)
    ensures var p := Classify(schema, where');
            && p.sort.Some?
            && (Covered(lib, KeptConds(p), c) <==> p.hash.Some? && forall v :: On(lib, p.sort.value, v) ==> On(lib, c, v))
  {
    hide Classify, Holds, On, IsHashEq, IsSort, Ordinary, KeptConds, Allowed;
    var p := Classify(schema, where');
    ClassifyMembers(schema, where');
    forall v
      ensures Allowed(lib, KeptConds(p), c.attr, v) <==> (p.hash.Some? ==> On(lib, p.sort.value, v))
    {
      SortAllowed(lib, schema, where', c, v);
    }
    if p.hash.None? {
      SortShape(schema, c);
      OnMisfit(lib, c);
      assert Allowed(lib, KeptConds(p), c.attr, Misfit(SortOf(c).value.value));
    }
  }

  lemma SortShape(schema: Schema, c: Where)
    requires IsSort(schema, c)
    ensures SortOf(c).Some? && schema.sort == Some(c.attr) && IsKeyAttr(schema, c.attr)
  {
  }

  /** Of the sort attribute the kept conditions ask what the last sort condition does, if
      there is a hash equality, and nothing otherwise. */
  lemma SortAllowed(lib: Lib, schema: Schema, where': seq<Where>, c: Where, v: Value)
    requires Ordinary(lib, schema, where') && c in where' && IsSort(schema, c)
    ensures var p := Classify(schema, where');
            && p.sort.Some?
            && (Allowed(lib, KeptConds(p), c.attr, v) <==> (p.hash.Some? ==> On(lib, p.sort.value, v)))
  {
    hide Classify, Holds, On, IsHashEq, IsSort, Ordinary, KeptConds;
    var p := Classify(schema, where');
    ClassifyMembers(schema, where');
    SortShape(schema, c);
    SortShape(schema, p.sort.value);
    forall k | k in KeptConds(p) && k.attr == c.attr
      ensures p.hash.Some? && k == p.sort.value
    {
      KeysAmongKept(lib, schema, where', k);
    }
    if p.hash.Some? {
      HashKept(p);
    }
  }

  lemma OnMisfit(lib: Lib, c: Where)
    requires SortOf(c).Some?
    ensures !On(lib, c, Misfit(SortOf(c).value.value))
  {
    MisfitFails(lib, c, map[c.attr := Misfit(SortOf(c).value.value)]);
  }

  // ---- a failing item for each way to fail

  /** Two different hash values: every item of the last one is a row and fails. */
  lemma TwoHashValues(lib: Lib, schema: Schema, where': seq<Where>, c: Where, item: Item)
    requires c in where' && IsHashEq(schema, c) && Classify(schema, where').hash.Some?
    requires KeyParts(schema, item).Some? && Kept(lib, Classify(schema, where'), item)
    requires ValOf(Classify(schema, where').hash.value) != ValOf(c)
    ensures Fails(lib, schema, where', item)
  {
    hide Classify, Holds;
    ClassifyShapes(schema, where');
    HashEqHolds(lib, schema, Classify(schema, where').hash.value, item);
    HashEqHolds(lib, schema, c, item);
    EachHolds(lib, where', item);
  }

  /** A sort condition without hash equality: every row with a sort value of another type fails. */
  lemma SortWithoutHash(lib: Lib, schema: Schema, where': seq<Where>, c: Where, item: Item)
    requires Ordinary(lib, schema, where') && c in where' && IsSort(schema, c) && Classify(schema, where').hash.None?
    requires KeyParts(schema, item).Some? && Kept(lib, Classify(schema, where'), item)
    ensures Fails(lib, schema, where', item[c.attr := Misfit(SortOf(c).value.value)])
  {
    hide Classify, Holds, On, Kept, AllHold, Ordinary, Allowed;
    var v := Misfit(SortOf(c).value.value);
    OnMisfit(lib, c);
    SortAllowed(lib, schema, where', c, v);
    FailsWith(lib, schema, where', item, c, v);
  }

  /** An earlier sort condition that the last one does not imply: every row with a sort
      value that tells them apart fails. */
  lemma EarlierSort(lib: Lib, schema: Schema, where': seq<Where>, c: Where, v: Value, item: Item)
    requires Ordinary(lib, schema, where') && c in where' && IsSort(schema, c)
    requires On(lib, LastSort(schema, where', c), v) && !On(lib, c, v)
    requires KeyParts(schema, item).Some? && Kept(lib, Classify(schema, where'), item)
    ensures Fails(lib, schema, where', item[c.attr := v])
  {
    hide Classify, Holds, On, Kept, AllHold, Ordinary, Allowed;
    SortAllowed(lib, schema, where', c, v);
    FailsWith(lib, schema, where', item, c, v);
  }

  lemma EachHolds(lib: Lib, where': seq<Where>, item: Item)
    ensures AllHold(lib, where', item) <==> forall c :: c in where' ==> Holds(lib, c, item)
  {
    hide Holds;
    if forall c :: c in where' ==> Holds(lib, c, item) {
      assert forall i :: 0 <= i < |where'| ==> where'[i] in where';
    }
  }

  /** A value no sort condition on v is true of: comparing fails across types. */
  function Misfit(v: Value): Value {
    if v.S? then N("0") else S("")
  }

  lemma MisfitFails(lib: Lib, c: Where, item: Item)
    requires SortOf(c).Some? && Lookup(item, c.attr) == Some(Misfit(SortOf(c).value.value))
    ensures !Holds(lib, c, item)
  {
  }

  /** A clause of sort conditions alone is never answered exactly: for each there is an
      item that would be a row and fails it. */
  lemma SortConditionsAlone(lib: Lib, schema: Schema, where': seq<Where>)
    requires where' != [] && schema.sort.Some? && schema.sort.value != schema.hash
    requires forall i :: 0 <= i < |where'| ==> IsSort(schema, where'[i])
    ensures exists item :: Kept(lib, Classify(schema, where'), item) && !AllHold(lib, where', item)
                           && KeyParts(schema, item).Some?
  {
    hide Holds;
    OnlySorts(schema, where');
    var misfit := Misfit(SortOf(where'[0]).value.value);
    var item: Item := map[schema.hash := S("x"), schema.sort.value := misfit];
    assert Lookup(item, schema.sort.value) == Some(misfit);
    MisfitFails(lib, where'[0], item);
    assert Kept(lib, Classify(schema, where'), item) && KeyParts(schema, item).Some?;
  }

  lemma {:induction false} OnlySorts(schema: Schema, where': seq<Where>)
    requires forall i :: 0 <= i < |where'| ==> IsSort(schema, where'[i])
    ensures Classify(schema, where').hash.None? && Classify(schema, where').rest == []
  {
    if where' != [] {
      OnlySorts(schema, where'[..|where'| - 1]);
    }
  }

  /** A sort condition without a hash equality is dropped: on a table with sort key
      "s", `WHERE s = 1` answers with an item whose s is 2. */
  lemma DroppedSortCondition(lib: Lib)
    ensures var schema, where' := Schema("p", Some("s")), [Simple("s", WEq, N("1"))];
            var item: Item := map["p" := S("x"), "s" := N("2")];
            && !Plannable(schema, where')
            && Kept(lib, Classify(schema, where'), item) && !AllHold(lib, where', item)
  {
    var schema, where' := Schema("p", Some("s")), [Simple("s", WEq, N("1"))];
    assert where'[..0] == [];
    assert IsSort(schema, where'[0]);
    assert Classify(schema, where') == Plan(None, Some(where'[0]), []);
  }

  /** Of two range conditions on the sort key the first is dropped: WHERE p = "x" AND
      s > "b" AND s < "d" answers with an item whose s is "a". */
  lemma DroppedRangeCondition(lib: Lib)
    ensures var schema := Schema("p", Some("s"));
            var where' := [Simple("p", WEq, S("x")), Simple("s", WGt, S("b")), Simple("s", WLt, S("d"))];
            && !Plannable(schema, where')
            && Fails(lib, schema, where', map["p" := S("x"), "s" := S("a")])
  {
    var schema := Schema("p", Some("s"));
    var where' := [Simple("p", WEq, S("x")), Simple("s", WGt, S("b")), Simple("s", WLt, S("d"))];
    assert IsSort(schema, where'[1]) && IsSort(schema, where'[2]);
    var one, two := where'[..1], where'[..2];
    assert one[..0] == [] && two[..1] == one;
    assert Classify(schema, one) == Plan(Some(where'[0]), None, []);
    assert Classify(schema, two) == Plan(Some(where'[0]), Some(where'[1]), []);
    var item: Item := map["p" := S("x"), "s" := S("a")];
    assert !Holds(lib, where'[1], item);
  }
}
