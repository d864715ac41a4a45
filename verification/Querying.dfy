/** Base-table Query: exact matches in sort-key order, paged by sort-key value. */
module Querying {
  import opened Values
  import opened Records
  import opened Engine
  import opened Paging
  import opened Reading
  import opened PartiQL
  import Meaning

  // ---- the comparison as an order

  datatype Class = Strings | Numbers | Others

  /** Values of one class compare without error. */
  function ClassOf(v: Value): Class {
    if v.S? then Strings else if v.N? then Numbers else Others
  }

  /** a comes before b, in ascending or in descending order. */
  function Precedes(lib: Lib, forward: bool): (Value, Value) -> bool {
    (a: Value, b: Value) => if forward then Less(lib, a, b) else Greater(lib, a, b)
  }

  function InClass(c: Class): Value -> bool {
    (v: Value) => ClassOf(v) == c
  }

  lemma CompareOpposite(lib: Lib, a: Value, b: Value)
    requires ClassOf(a) == ClassOf(b)
    ensures Less(lib, a, b) <==> Greater(lib, b, a)
    ensures Less(lib, a, b) || Greater(lib, a, b) || CompareValues(lib, Some(a), Some(b)) == Some(0)
  {
    match a
    case S(x) => TextOpposite(x, b.str);
    case N(x) =>
    case _ => TextOpposite(lib.json(a), lib.json(b));
  }

  lemma CompareStrict(lib: Lib, a: Value)
    ensures !Less(lib, a, a) && !Greater(lib, a, a)
  {
    match a
    case S(x) => TextOpposite(x, x);
    case N(x) =>
    case _ => TextOpposite(lib.json(a), lib.json(a));
  }

  lemma CompareTransitive(lib: Lib, a: Value, b: Value, c: Value)
    requires ClassOf(a) == ClassOf(b) == ClassOf(c) && Less(lib, a, b) && Less(lib, b, c)
    ensures Less(lib, a, c)
  {
    match a
    case S(x) => TextTransitive(x, b.str, c.str);
    case N(x) =>
    case _ => TextTransitive(lib.json(a), lib.json(b), lib.json(c));
  }

  lemma PrecedesOrders(lib: Lib, forward: bool, kind: Class)
    ensures StrictOrder(Precedes(lib, forward), InClass(kind))
  {
    hide Less, Greater, ClassOf;
    forall a, b, c | ClassOf(a) == ClassOf(b) == ClassOf(c) == kind && Precedes(lib, forward)(a, b) && Precedes(lib, forward)(b, c)
      ensures Precedes(lib, forward)(a, c)
    {
      if forward {
        CompareTransitive(lib, a, b, c);
      } else {
        CompareOpposite(lib, b, a);
        CompareOpposite(lib, c, b);
        CompareOpposite(lib, c, a);
        CompareTransitive(lib, c, b, a);
      }
    }
    forall a | ClassOf(a) == kind
      ensures !Precedes(lib, forward)(a, a)
    {
      CompareStrict(lib, a);
    }
  }

  // ---- matching

  datatype SortOp = OpEQ | OpLT | OpLTE | OpGT | OpGTE | OpBETWEEN | OpBeginsWith

  /** `high` is used by BETWEEN only. */
  datatype SortCond = SortCond(name: string, op: SortOp, value: Value, high: Value)

  /** `matchesSortKey`. */
  predicate MatchesSort(lib: Lib, v: Value, c: SortCond) {
    match c.op
    case OpEQ => v == c.value
    case OpLT => Less(lib, v, c.value)
    case OpLTE => LessOrSame(lib, v, c.value)
    case OpGT => Greater(lib, v, c.value)
    case OpGTE => GreaterOrSame(lib, v, c.value)
    case OpBETWEEN => GreaterOrSame(lib, v, c.value) && LessOrSame(lib, v, c.high)
    case OpBeginsWith => v.S? && c.value.S? && c.value.str <= v.str
  }

  /** Ascending order is that of the numbers or of the texts, descending the reverse. */
  lemma PrecedesMeans(lib: Lib, forward: bool, a: Value, b: Value)
    ensures Precedes(lib, forward)(a, b) <==> if forward then Meaning.Below(lib, a, b) else Meaning.Above(lib, a, b)
  {
    hide CompareValues, Meaning.Below, Meaning.Above, Meaning.Level;
    Meaning.CompareMeans(lib, a, b);
  }

  /** What a sort condition asks of a value. */
  ghost predicate Within(lib: Lib, v: Value, c: SortCond) {
    var above := Meaning.Above(lib, v, c.value) || Meaning.Level(lib, v, c.value);
    match c.op
    case OpEQ => v == c.value
    case OpLT => Meaning.Below(lib, v, c.value)
    case OpLTE => Meaning.Below(lib, v, c.value) || Meaning.Level(lib, v, c.value)
    case OpGT => Meaning.Above(lib, v, c.value)
    case OpGTE => above
    case OpBETWEEN => above && (Meaning.Below(lib, v, c.high) || Meaning.Level(lib, v, c.high))
    case OpBeginsWith => v.S? && c.value.S? && exists rest :: v.str == c.value.str + rest
  }

  lemma MatchesSortMeans(lib: Lib, v: Value, c: SortCond)
    ensures MatchesSort(lib, v, c) <==> Within(lib, v, c)
  {
    hide CompareValues, Meaning.Below, Meaning.Above, Meaning.Level;
    Meaning.CompareMeans(lib, v, c.value);
    Meaning.CompareMeans(lib, v, c.high);
    if c.op.OpBeginsWith? && MatchesSort(lib, v, c) {
      assert v.str == c.value.str + v.str[|c.value.str|..];
    }
  }

  /** What a query asks for: a hash value and perhaps a condition on another attribute. */
  datatype Ask = Ask(hash: string, value: Value, cond: Option<SortCond>)

  predicate Matches(lib: Lib, ask: Ask, live: Item -> bool, item: Item) {
    && live(item)
    && Lookup(item, ask.hash) == Some(ask.value)
    && (ask.cond.Some? ==> ask.cond.value.name in item && MatchesSort(lib, item[ask.cond.value.name], ask.cond.value))
  }

  /** The sort-key value an item is filed under. */
  function RankOf(table: Table, sort: string, k: Key): Value {
    if k in table && sort in table[k] then table[k][sort] else Null
  }

  function Ranks(table: Table, sort: string, keys: seq<Key>): (r: seq<Value>)
    ensures |r| == |keys| && forall i :: 0 <= i < |keys| ==> r[i] == RankOf(table, sort, keys[i])
  {
    seq(|keys|, i requires 0 <= i < |keys| => RankOf(table, sort, keys[i]))
  }

  /** All items that match. */
  ghost predicate Finds(listing: seq<Key>, lib: Lib, table: Table, ask: Ask, live: Item -> bool) {
    && (forall k :: k in listing <==> k in table && Matches(lib, ask, live, table[k]))
    && (forall i, j :: 0 <= i < j < |listing| ==> listing[i] != listing[j])
  }

  /** The sort-key values of the matches are of one class. */
  predicate OneClass(lib: Lib, table: Table, sort: string, ask: Ask, live: Item -> bool, kind: Class) {
    forall k :: k in table && Matches(lib, ask, live, table[k]) ==> ClassOf(RankOf(table, sort, k)) == kind
  }

  /** The sort-key values of the matches are of one class and pairwise distinct under
      the comparison. */
  predicate Sortable(lib: Lib, table: Table, sort: string, ask: Ask, live: Item -> bool, kind: Class) {
    && OneClass(lib, table, sort, ask, live, kind)
    && (forall j, k :: j in table && k in table && j != k && Matches(lib, ask, live, table[j]) && Matches(lib, ask, live, table[k]) ==>
          CompareValues(lib, Some(RankOf(table, sort, j)), Some(RankOf(table, sort, k))) != Some(0))
  }

  function ByRank(lib: Lib, table: Table, sort: string, forward: bool): (Key, Key) -> bool {
    (j: Key, k: Key) => Precedes(lib, forward)(RankOf(table, sort, j), RankOf(table, sort, k))
  }

  /** The loop that collects the matches. */
  method Match(lib: Lib, table: Table, ask: Ask, live: Item -> bool) returns (matched: seq<Key>)
    ensures Finds(matched, lib, table, ask, live)
  {
    hide Matches;
    var all := ListItems(table);
    matched := [];
    for n := 0 to |all|
      invariant forall k :: k in matched <==> k in all[..n] && Matches(lib, ask, live, table[k])
      invariant forall i, j :: 0 <= i < j < |matched| ==> matched[i] != matched[j]
    {
      assert all[..n + 1] == all[..n] + [all[n]];
      assert all[n] in all && all[n] !in all[..n];
      if Matches(lib, ask, live, table[all[n]]) {
        matched := matched + [all[n]];
      }
    }
    assert all[..|all|] == all;
  }

  lemma SortFinds(lib: Lib, table: Table, sort: string, ask: Ask, live: Item -> bool, forward: bool, matched: seq<Key>)
    requires Finds(matched, lib, table, ask, live)
    ensures Finds(Sort(matched, ByRank(lib, table, sort, forward)), lib, table, ask, live)
  {
    hide Matches;
    var sorted := Sort(matched, ByRank(lib, table, sort, forward));
    SortHolds(matched, ByRank(lib, table, sort, forward));
    forall i, j | 0 <= i < j < |sorted|
      ensures sorted[i] != sorted[j]
    {
      DistinctCounts(matched);
      if sorted[i] == sorted[j] {
        TwiceCounts(sorted, i, j);
      }
    }
  }

  lemma {:induction false} DistinctCounts(xs: seq<Key>)
    requires forall i, j :: 0 <= i < j < |xs| ==> xs[i] != xs[j]
    ensures forall k :: multiset(xs)[k] <= 1
  {
    if xs != [] {
      var n := |xs| - 1;
      DistinctCounts(xs[..n]);
      assert xs == xs[..n] + [xs[n]];
      assert xs[n] !in multiset(xs[..n]);
    }
  }

  lemma TwiceCounts(xs: seq<Key>, i: nat, j: nat)
    requires i < j < |xs| && xs[i] == xs[j]
    ensures multiset(xs)[xs[i]] >= 2
  {
    assert xs == xs[..j] + [xs[j]] + xs[j + 1..];
    assert xs[i] in xs[..j];
    assert xs[i] in multiset(xs[..j]);
  }

  lemma SortRanks(lib: Lib, table: Table, sort: string, ask: Ask, live: Item -> bool, forward: bool, matched: seq<Key>, kind: Class)
    requires Finds(matched, lib, table, ask, live) && Sortable(lib, table, sort, ask, live, kind)
    ensures var sorted := Sort(matched, ByRank(lib, table, sort, forward));
            Ascending(Ranks(table, sort, sorted), Precedes(lib, forward)) && AllOk(Ranks(table, sort, sorted), InClass(kind))
  {
    hide StrictOrder, ByRank, Precedes, Matches, RankOf, ClassOf, CompareValues;
    var lt, ok := ByRank(lib, table, sort, forward), RankedIn(table, sort, kind);
    RankOrders(lib, table, sort, forward, kind);
    MatchesApart(lib, table, sort, ask, live, forward, matched, kind);
    SortAscending(matched, lt, ok);
    SortHolds(matched, lt);
    RanksAscend(lib, table, sort, forward, Sort(matched, lt));
  }

  /** Values of one class that cannot be told apart are as one to the order. */
  lemma PrecedesWeakly(lib: Lib, forward: bool, kind: Class)
    ensures WeakOrder(Precedes(lib, forward), InClass(kind))
  {
    hide Less, Greater, ClassOf;
    forall a, b, c | ClassOf(a) == ClassOf(b) == ClassOf(c) == kind
      ensures Precedes(lib, forward)(a, b) ==> !Precedes(lib, forward)(b, a)
      ensures !Precedes(lib, forward)(b, a) && !Precedes(lib, forward)(c, b) ==> !Precedes(lib, forward)(c, a)
    {
      CompareWeakly(lib, a, b, c);
      CompareWeakly(lib, c, b, a);
      CompareOpposite(lib, a, b);
      CompareOpposite(lib, b, a);
      CompareOpposite(lib, b, c);
      CompareOpposite(lib, c, b);
      CompareOpposite(lib, a, c);
      CompareOpposite(lib, c, a);
    }
  }

  lemma CompareWeakly(lib: Lib, a: Value, b: Value, c: Value)
    requires ClassOf(a) == ClassOf(b) == ClassOf(c)
    ensures Less(lib, a, b) ==> !Less(lib, b, a)
    ensures !Less(lib, b, a) && !Less(lib, c, b) ==> !Less(lib, c, a)
  {
    hide CompareText;
    match a
    case S(x) => TextWeak(x, b.str, c.str);
    case N(x) =>
    case _ => TextWeak(lib.json(a), lib.json(b), lib.json(c));
  }

  lemma TextWeak(x: string, y: string, z: string)
    ensures CompareText(x, y) < 0 ==> CompareText(y, x) >= 0
    ensures CompareText(y, x) >= 0 && CompareText(z, y) >= 0 ==> CompareText(z, x) >= 0
  {
    hide CompareText;
    TextOpposite(x, y);
    TextOpposite(y, z);
    TextOpposite(x, z);
    if CompareText(x, y) < 0 && CompareText(y, z) < 0 {
      TextTransitive(x, y, z);
    }
  }

  /** A number written in two ways: behind the one the other is not found. */
  lemma TieSkipped(lib: Lib)
    requires lib.number("1") == lib.number("1.0")
    ensures Beyond([N("1"), N("1.0")], Some(N("1")), Precedes(lib, true)) == []
  {
    PrecedesWeakly(lib, true, Numbers);
    ResumesExactly([N("1"), N("1.0")], 1, Precedes(lib, true), InClass(Numbers));
    var rest := [N("1"), N("1.0")][1..];
    assert rest == [N("1.0")] && rest[1..] == [];
    assert Beyond(rest, Some(N("1")), Precedes(lib, true)) == [];
  }

  /** Sort values of one class come out in order, those that cannot be told apart included. */
  lemma SortRanksRising(lib: Lib, table: Table, sort: string, ask: Ask, live: Item -> bool, forward: bool, matched: seq<Key>, kind: Class)
    requires Finds(matched, lib, table, ask, live) && OneClass(lib, table, sort, ask, live, kind)
    ensures var ranks := Ranks(table, sort, Sort(matched, ByRank(lib, table, sort, forward)));
            Rising(ranks, Precedes(lib, forward)) && AllOk(ranks, InClass(kind))
  {
    hide WeakOrder, Precedes, Matches, RankOf, ClassOf, CompareValues;
    var lt, ok := ByRank(lib, table, sort, forward), RankedIn(table, sort, kind);
    assert forall i :: 0 <= i < |matched| ==> matched[i] in matched;
    RankWeak(lib, table, sort, forward, kind);
    SortRising(matched, lt, ok);
    RanksRise(lib, table, sort, forward, Sort(matched, lt), kind);
  }

  lemma RankWeak(lib: Lib, table: Table, sort: string, forward: bool, kind: Class)
    ensures WeakOrder(ByRank(lib, table, sort, forward), RankedIn(table, sort, kind))
  {
    hide Precedes, RankOf, ClassOf;
    PrecedesWeakly(lib, forward, kind);
    assert forall k :: RankedIn(table, sort, kind)(k) ==> InClass(kind)(RankOf(table, sort, k));
  }

  lemma RanksRise(lib: Lib, table: Table, sort: string, forward: bool, keys: seq<Key>, kind: Class)
    requires Rising(keys, ByRank(lib, table, sort, forward)) && AllOk(keys, RankedIn(table, sort, kind))
    ensures Rising(Ranks(table, sort, keys), Precedes(lib, forward)) && AllOk(Ranks(table, sort, keys), InClass(kind))
  {
    hide Precedes, RankOf, ClassOf;
    assert forall j, k :: ByRank(lib, table, sort, forward)(j, k)
                          == Precedes(lib, forward)(RankOf(table, sort, j), RankOf(table, sort, k));
    assert forall k :: RankedIn(table, sort, kind)(k) ==> InClass(kind)(RankOf(table, sort, k));
  }

  function RankedIn(table: Table, sort: string, kind: Class): Key -> bool {
    (k: Key) => ClassOf(RankOf(table, sort, k)) == kind
  }

  lemma RankOrders(lib: Lib, table: Table, sort: string, forward: bool, kind: Class)
    ensures StrictOrder(ByRank(lib, table, sort, forward), RankedIn(table, sort, kind))
  {
    hide Precedes, RankOf, ClassOf;
    PrecedesOrders(lib, forward, kind);
    assert forall k :: RankedIn(table, sort, kind)(k) ==> InClass(kind)(RankOf(table, sort, k));
  }

  lemma RanksAscend(lib: Lib, table: Table, sort: string, forward: bool, keys: seq<Key>)
    requires Ascending(keys, ByRank(lib, table, sort, forward))
    ensures Ascending(Ranks(table, sort, keys), Precedes(lib, forward))
  {
    hide Precedes, RankOf;
    assert forall j, k :: ByRank(lib, table, sort, forward)(j, k)
                          == Precedes(lib, forward)(RankOf(table, sort, j), RankOf(table, sort, k));
  }

  lemma MatchesApart(lib: Lib, table: Table, sort: string, ask: Ask, live: Item -> bool, forward: bool, matched: seq<Key>, kind: Class)
    requires Finds(matched, lib, table, ask, live) && Sortable(lib, table, sort, ask, live, kind)
    ensures PairwiseApart(matched, ByRank(lib, table, sort, forward)) && AllOk(matched, RankedIn(table, sort, kind))
  {
    hide Matches, Less, Greater, RankOf, ClassOf, CompareValues;
    forall i, j | 0 <= i < j < |matched|
      ensures ByRank(lib, table, sort, forward)(matched[i], matched[j]) || ByRank(lib, table, sort, forward)(matched[j], matched[i])
    {
      var one, two := matched[i], matched[j];
      assert one in matched && two in matched && one != two;
      assert Matches(lib, ask, live, table[one]) && Matches(lib, ask, live, table[two]);
      var x, y := RankOf(table, sort, one), RankOf(table, sort, two);
      assert CompareValues(lib, Some(x), Some(y)) != Some(0);
      CompareOpposite(lib, x, y);
      CompareOpposite(lib, y, x);
      assert Precedes(lib, forward)(x, y) || Precedes(lib, forward)(y, x);
    }
  }

  // ---- the query

  /** The rank a query resumes behind; an empty start key means none. */
  function RankStart(sort: string, start: Item): Option<Value> {
    if start == map[] then None else Lookup(start, sort)
  }

  /** The loop that finds the first match past the cursor. */
  method SkipBehind(lib: Lib, table: Table, sort: string, forward: bool, keys: seq<Key>, start: Value) returns (n: nat)
    ensures n <= |keys|
    ensures forall kind :: AllOk(Ranks(table, sort, keys), InClass(kind)) && ClassOf(start) == kind ==>
              Beyond(Ranks(table, sort, keys), Some(start), Precedes(lib, forward)) == Ranks(table, sort, keys)[n..]
  {
    hide Less, Greater, RankOf, ClassOf;
    n := |keys|;
    ghost var ranks := Ranks(table, sort, keys);
    for i := 0 to |keys|
      invariant n == |keys| && forall j :: 0 <= j < i ==> !Behind(lib, forward, start, ranks[j])
    {
      if Behind(lib, forward, start, RankOf(table, sort, keys[i])) {
        n := i;
        break;
      }
    }
    forall kind | AllOk(ranks, InClass(kind)) && ClassOf(start) == kind
      ensures Beyond(ranks, Some(start), Precedes(lib, forward)) == ranks[n..]
    {
      forall i | 0 <= i < |ranks|
        ensures Behind(lib, forward, start, ranks[i]) <==> Precedes(lib, forward)(start, ranks[i])
      {
        assert InClass(kind)(ranks[i]);
        CompareOpposite(lib, start, ranks[i]);
        CompareOpposite(lib, ranks[i], start);
      }
      DropBefore(ranks, Some(start), Precedes(lib, forward), n);
    }
  }

  /** The comparison of an item's value with the cursor's. */
  predicate Behind(lib: Lib, forward: bool, start: Value, v: Value) {
    if forward then Greater(lib, v, start) else Less(lib, v, start)
  }

  /** `Query` on the base table. Whatever the sort values are, the answer is cut from
      the exact list of matches; when they can be told apart it is the page behind the
      start key of that list in order. */
  method Query(h: Hash, lib: Lib, schema: Schema, table: Table, ask: Ask, live: Item -> bool,
               forward: bool, start: Item, limit: Option<nat>) returns (r: Answer, ghost listing: seq<Key>, ghost from: nat)
    requires Filed(h, schema, table) && limit != Some(0)
    ensures Finds(listing, lib, table, ask, live)
    ensures from <= |listing| && Answers(h, schema, table, r, Cut(listing[from..], limit))
    ensures start == map[] ==> from == 0
    ensures start != map[] && (schema.sort.None? || schema.sort.value !in start) ==> from == |listing|
    ensures schema.sort.Some? ==>
              forall kind :: Sortable(lib, table, schema.sort.value, ask, live, kind) ==>
                Ascending(Ranks(table, schema.sort.value, listing), Precedes(lib, forward))
    ensures schema.sort.Some? ==>
              forall kind :: OneClass(lib, table, schema.sort.value, ask, live, kind) ==>
                var sort := schema.sort.value;
                && Rising(Ranks(table, sort, listing), Precedes(lib, forward))
                && AllOk(Ranks(table, sort, listing), InClass(kind))
                && (start == map[] || (sort in start && ClassOf(start[sort]) == kind) ==>
                      Ranks(table, sort, listing[from..]) == Beyond(Ranks(table, sort, listing), RankStart(sort, start), Precedes(lib, forward)))
    ensures schema.sort.Some? && r.cursor.Some? ==>
              Lookup(r.cursor.value, schema.sort.value)
              == Some(RankOf(table, schema.sort.value, Cut(listing[from..], limit).1.value))
    ensures schema.sort.Some? ==>
              forall kind :: Sortable(lib, table, schema.sort.value, ask, live, kind)
                             && (start == map[] || (schema.sort.value in start && ClassOf(start[schema.sort.value]) == kind)) ==>
                Queried(h, lib, schema, Question(ask, schema.sort.value, forward, kind), QueryCall(table, live, start, limit, r, listing, from))
  {
    hide Matches, KeyOf, Precedes, ClassOf, RankOf, Less, Greater, Sort, CompareValues, Finds, OneClass, Rising;
    var matched := Match(lib, table, ask, live);
    if schema.sort.Some? {
      var sort := schema.sort.value;
      SortFinds(lib, table, sort, ask, live, forward, matched);
      forall kind | Sortable(lib, table, sort, ask, live, kind)
        ensures var sorted := Sort(matched, ByRank(lib, table, sort, forward));
                Ascending(Ranks(table, sort, sorted), Precedes(lib, forward)) && AllOk(Ranks(table, sort, sorted), InClass(kind))
      {
        SortRanks(lib, table, sort, ask, live, forward, matched, kind);
      }
      forall kind | OneClass(lib, table, sort, ask, live, kind)
        ensures var ranks := Ranks(table, sort, Sort(matched, ByRank(lib, table, sort, forward)));
                Rising(ranks, Precedes(lib, forward)) && AllOk(ranks, InClass(kind))
      {
        SortRanksRising(lib, table, sort, ask, live, forward, matched, kind);
      }
      matched := Sort(matched, ByRank(lib, table, sort, forward));
    }
    listing, from := matched, 0;
    var n := 0;
    if start != map[] {
      if schema.sort.None? || schema.sort.value !in start {
        n := |matched|;
      } else {
        n := SkipBehind(lib, table, schema.sort.value, forward, matched, start[schema.sort.value]);
      }
    }
    from := n;
    FoundKeys(listing, lib, table, ask, live);
    if schema.sort.Some? {
      RanksFrom(table, schema.sort.value, listing, from);
    }
    r := CutPage(h, schema, table, matched[n..], limit);
    if schema.sort.Some? && r.cursor.Some? {
      RankFound(table, schema.sort.value, Cut(listing[from..], limit).1.value);
    }
  }

  lemma FoundKeys(listing: seq<Key>, lib: Lib, table: Table, ask: Ask, live: Item -> bool)
    requires Finds(listing, lib, table, ask, live)
    ensures forall k :: k in listing ==> k in table
  {
  }

  lemma RanksFrom(table: Table, sort: string, listing: seq<Key>, n: nat)
    requires n <= |listing|
    ensures Ranks(table, sort, listing[n..]) == Ranks(table, sort, listing)[n..]
  {
    hide RankOf;
  }

  lemma RankFound(table: Table, sort: string, k: Key)
    requires k in table && sort in table[k]
    ensures RankOf(table, sort, k) == table[k][sort]
  {
  }

  // ---- paging

  /** Some match is filed under the sort value v. */
  predicate HasRank(lib: Lib, table: Table, sort: string, ask: Ask, live: Item -> bool, v: Value) {
    exists k :: k in table && Matches(lib, ask, live, table[k]) && RankOf(table, sort, k) == v
  }

  lemma InRanks(lib: Lib, table: Table, sort: string, ask: Ask, live: Item -> bool, listing: seq<Key>, v: Value)
    requires Finds(listing, lib, table, ask, live)
    ensures v in Ranks(table, sort, listing) <==> HasRank(lib, table, sort, ask, live, v)
  {
    hide Matches, RankOf;
    var ranks := Ranks(table, sort, listing);
    if v in ranks {
      var i :| 0 <= i < |ranks| && ranks[i] == v;
      assert listing[i] in listing;
    }
    if k :| k in table && Matches(lib, ask, live, table[k]) && RankOf(table, sort, k) == v {
      assert k in listing;
      var i :| 0 <= i < |listing| && listing[i] == k;
      assert ranks[i] == v;
    }
  }

  /** One call of Query with its answer, as the contract of Query leaves it when the sort
      values of the matches can be told apart. */
  datatype QueryCall = QueryCall(table: Table, live: Item -> bool, start: Item, limit: Option<nat>, answer: Answer, listing: seq<Key>, from: nat)

  /** What a query is asked in all its calls. */
  datatype Question = Question(ask: Ask, sort: string, forward: bool, kind: Class)

  ghost predicate Queried(h: Hash, lib: Lib, schema: Schema, q: Question, c: QueryCall) {
    && schema.sort == Some(q.sort) && Filed(h, schema, c.table) && c.limit != Some(0)
    && Finds(c.listing, lib, c.table, q.ask, c.live)
    && Ascending(Ranks(c.table, q.sort, c.listing), Precedes(lib, q.forward))
    && AllOk(Ranks(c.table, q.sort, c.listing), InClass(q.kind))
    && c.from <= |c.listing| && Answers(h, schema, c.table, c.answer, Cut(c.listing[c.from..], c.limit))
    && Ranks(c.table, q.sort, c.listing[c.from..])
       == Beyond(Ranks(c.table, q.sort, c.listing), RankStart(q.sort, c.start), Precedes(lib, q.forward))
    && (c.answer.cursor.Some? ==>
          Lookup(c.answer.cursor.value, q.sort) == Some(RankOf(c.table, q.sort, Cut(c.listing[c.from..], c.limit).1.value)))
  }

  /** The first call has no start key, each other one the cursor of the one before. */
  ghost predicate QueryCalls(h: Hash, lib: Lib, schema: Schema, q: Question, calls: seq<QueryCall>) {
    && calls != [] && calls[0].start == map[]
    && (forall i :: 0 <= i < |calls| ==> Queried(h, lib, schema, q, calls[i]))
    && (forall i :: 0 <= i < |calls| - 1 ==> calls[i].answer.cursor == Some(calls[i + 1].start))
    && calls[|calls| - 1].answer.cursor.None?
  }

  function HandedBack(calls: seq<QueryCall>): seq<Item> {
    if calls == [] then [] else (if calls[0].answer.Answer? then calls[0].answer.items else []) + HandedBack(calls[1..])
  }

  /** The page of a call in sort values, with its cursor. */
  function TurnOf(q: Question, c: QueryCall): Turn<Value, Item>
    requires c.limit != Some(0) && c.from <= |c.listing|
  {
    var (keys, next) := Cut(c.listing[c.from..], c.limit);
    Turn(Ranks(c.table, q.sort, c.listing), c.limit, Ranks(c.table, q.sort, keys),
         if next.None? then None else Some(RankOf(c.table, q.sort, next.value)),
         if c.answer.Answer? then c.answer.items else [])
  }

  function Turns(q: Question, calls: seq<QueryCall>): (turns: seq<Turn<Value, Item>>)
    requires forall i :: 0 <= i < |calls| ==> calls[i].limit != Some(0) && calls[i].from <= |calls[i].listing|
    ensures |turns| == |calls| && forall i :: 0 <= i < |calls| ==> turns[i] == TurnOf(q, calls[i])
  {
    seq(|calls|, i requires 0 <= i < |calls| => TurnOf(q, calls[i]))
  }

  function SortTag(sort: string): Item -> Value {
    (item: Item) => if sort in item then item[sort] else Null
  }

  lemma CutRanks(table: Table, sort: string, keys: seq<Key>, limit: Option<nat>)
    requires limit != Some(0)
    ensures var (page, next) := Cut(keys, limit);
            Cut(Ranks(table, sort, keys), limit)
            == (Ranks(table, sort, page), if next.None? then None else Some(RankOf(table, sort, next.value)))
  {
    hide RankOf;
    var (page, next) := Cut(keys, limit);
    assert Cut(Ranks(table, sort, keys), limit).0 == Ranks(table, sort, page);
  }

  lemma {:induction false} CallsWellFormed(h: Hash, lib: Lib, schema: Schema, q: Question, calls: seq<QueryCall>)
    requires QueryCalls(h, lib, schema, q, calls)
    ensures forall i :: 0 <= i < |calls| ==> calls[i].limit != Some(0) && calls[i].from <= |calls[i].listing|
  {
    hide Finds, Precedes, RankOf, KeyOf, Filed;
    assert forall i :: 0 <= i < |calls| ==> Queried(h, lib, schema, q, calls[i]);
  }

  /** A call is the page behind its start key, in sort values. */
  lemma CallIsPage(h: Hash, lib: Lib, schema: Schema, q: Question, c: QueryCall)
    requires Queried(h, lib, schema, q, c)
    ensures var turn := TurnOf(q, c);
            && (turn.page, turn.next) == PageOf(turn.stock, RankStart(q.sort, c.start), c.limit, Precedes(lib, q.forward))
            && |turn.items| == |turn.page| && (turn.next.None? <==> c.answer.cursor.None?)
            && turn.items == c.answer.items
            && (c.answer.cursor.Some? ==> RankStart(q.sort, c.answer.cursor.value) == turn.next)
  {
    hide Finds, Precedes, RankOf, KeyOf, Filed, Beyond;
    CutRanks(c.table, q.sort, c.listing[c.from..], c.limit);
  }

  lemma {:induction false} CallsChain(h: Hash, lib: Lib, schema: Schema, q: Question, calls: seq<QueryCall>, n: nat)
    requires QueryCalls(h, lib, schema, q, calls) && n < |calls|
    requires forall i :: 0 <= i < |calls| ==> calls[i].limit != Some(0) && calls[i].from <= |calls[i].listing|
    ensures ChainOf(Turns(q, calls)[n..], RankStart(q.sort, calls[n].start), Precedes(lib, q.forward))
    decreases |calls| - n
  {
    hide Queried, PageOf, RankStart, TurnOf;
    var turns := Turns(q, calls);
    assert Queried(h, lib, schema, q, calls[n]) && turns[n..][0] == turns[n];
    CallIsPage(h, lib, schema, q, calls[n]);
    TurnLimit(q, calls[n]);
    if n < |calls| - 1 {
      CallsChain(h, lib, schema, q, calls, n + 1);
      assert turns[n..][1..] == turns[n + 1..];
    }
  }

  lemma TurnLimit(q: Question, c: QueryCall)
    requires c.limit != Some(0) && c.from <= |c.listing|
    ensures TurnOf(q, c).limit == c.limit && TurnOf(q, c).stock == Ranks(c.table, q.sort, c.listing)
  {
  }

  lemma {:induction false} ItemsTagged(h: Hash, lib: Lib, schema: Schema, q: Question, calls: seq<QueryCall>)
    requires QueryCalls(h, lib, schema, q, calls)
    requires forall i :: 0 <= i < |calls| ==> calls[i].limit != Some(0) && calls[i].from <= |calls[i].listing|
    ensures Tagged(Turns(q, calls), SortTag(q.sort))
  {
    hide Finds, Precedes, KeyOf, Beyond, Matches;
    var turns := Turns(q, calls);
    forall i, m | 0 <= i < |turns| && 0 <= m < |turns[i].page|
      ensures |turns[i].items| == |turns[i].page| && SortTag(q.sort)(turns[i].items[m]) == turns[i].page[m]
    {
      var c := calls[i];
      assert Queried(h, lib, schema, q, c);
      var keys := Cut(c.listing[c.from..], c.limit).0;
      assert keys[m] in keys && turns[i].items[m] == c.table[keys[m]];
      assert KeyOf(h, schema, c.table[keys[m]]) == Some(keys[m]);
    }
  }

  lemma {:induction false} HandedBackIs(h: Hash, lib: Lib, schema: Schema, q: Question, calls: seq<QueryCall>)
    requires forall i :: 0 <= i < |calls| ==> calls[i].limit != Some(0) && calls[i].from <= |calls[i].listing|
    requires forall i :: 0 <= i < |calls| ==> calls[i].answer.Answer?
    ensures HandedBack(calls) == AllItems(Turns(q, calls))
  {
    if calls != [] {
      HandedBackIs(h, lib, schema, q, calls[1..]);
      assert Turns(q, calls)[1..] == Turns(q, calls[1..]);
    }
  }

  lemma {:induction false} CallsAnswer(h: Hash, lib: Lib, schema: Schema, q: Question, calls: seq<QueryCall>)
    requires QueryCalls(h, lib, schema, q, calls)
    ensures forall i :: 0 <= i < |calls| ==> calls[i].answer.Answer?
  {
    hide Finds, Precedes, RankOf, KeyOf, Filed, Beyond, Ranks;
    assert forall i :: 0 <= i < |calls| ==> Queried(h, lib, schema, q, calls[i]);
  }

  lemma {:induction false} CallRequests(h: Hash, lib: Lib, schema: Schema, q: Question, calls: seq<QueryCall>)
    requires QueryCalls(h, lib, schema, q, calls)
    requires forall i :: 0 <= i < |calls| ==> calls[i].limit != Some(0) && calls[i].from <= |calls[i].listing|
    ensures WellRequested(AsRequests(Turns(q, calls)), Precedes(lib, q.forward), InClass(q.kind))
  {
    hide Finds, Precedes, RankOf, KeyOf, Filed, Beyond;
    PrecedesOrders(lib, q.forward, q.kind);
    assert forall i :: 0 <= i < |calls| ==> Queried(h, lib, schema, q, calls[i]);
  }

  /** Some match of the call's table is filed under v. */
  predicate MatchedIn(lib: Lib, q: Question, calls: seq<QueryCall>, v: Value) {
    forall i :: 0 <= i < |calls| ==> HasRank(lib, calls[i].table, q.sort, q.ask, calls[i].live, v)
  }

  /** The item was a match in the table of some call. */
  predicate MatchOf(lib: Lib, q: Question, calls: seq<QueryCall>, item: Item) {
    exists i :: 0 <= i < |calls| && Matches(lib, q.ask, calls[i].live, item) && item in calls[i].table.Values
  }

  /** A query under arbitrary writes between its calls, deletion of a cursor's own item
      included: the items come strictly ordered by sort value, each was a match when its
      page was read, and every sort value that matched throughout is among them, once. */
  lemma {:induction false} QueryUnderWrites(h: Hash, lib: Lib, schema: Schema, q: Question, calls: seq<QueryCall>)
    requires QueryCalls(h, lib, schema, q, calls)
    ensures var items, value := HandedBack(calls), SortTag(q.sort);
            && (forall m, n :: 0 <= m < n < |items| ==> Precedes(lib, q.forward)(value(items[m]), value(items[n])))
            && (forall m :: 0 <= m < |items| ==> MatchOf(lib, q, calls, items[m]))
            && (forall v :: MatchedIn(lib, q, calls, v) ==> exists m :: 0 <= m < |items| && value(items[m]) == v)
  {
    hide Queried, Finds, Precedes, PageOf, Pages, Finishes, AllItems, HandedBack, TurnOf, MatchOf, MatchedIn, RankStart, HasRank;
    CallsWellFormed(h, lib, schema, q, calls);
    CallsAnswer(h, lib, schema, q, calls);
    var turns, value, lt := Turns(q, calls), SortTag(q.sort), Precedes(lib, q.forward);
    ItemsTagged(h, lib, schema, q, calls);
    CallsChain(h, lib, schema, q, calls, 0);
    assert turns[0..] == turns;
    HandedBackIs(h, lib, schema, q, calls);
    NoStart(q.sort);
    ChainIsPages(turns, None, lt, value);
    CallRequests(h, lib, schema, q, calls);
    var rs, items := AsRequests(turns), AllItems(turns);
    var got := Pages(rs, None, lt);
    hide Turns, ChainOf, Tagged, AsRequests, QueryCalls, Ranks, WellRequested;
    PagesAscend(rs, None, lt, InClass(q.kind));
    forall m | 0 <= m < |items|
      ensures MatchOf(lib, q, calls, items[m])
    {
      ItemMatched(h, lib, schema, q, calls, items[m]);
    }
    forall v | MatchedIn(lib, q, calls, v)
      ensures exists m :: 0 <= m < |items| && value(items[m]) == v
    {
      MatchedStock(h, lib, schema, q, calls, v);
      PagesMissNothing(rs, None, lt, InClass(q.kind), v);
      var m :| 0 <= m < |got| && got[m] == v;
      assert value(items[m]) == v;
    }
  }

  lemma NoStart(sort: string)
    ensures RankStart(sort, map[]).None?
  {
  }

  lemma {:induction false} MatchedStock(h: Hash, lib: Lib, schema: Schema, q: Question, calls: seq<QueryCall>, v: Value)
    requires QueryCalls(h, lib, schema, q, calls) && MatchedIn(lib, q, calls, v)
    requires forall i :: 0 <= i < |calls| ==> calls[i].limit != Some(0) && calls[i].from <= |calls[i].listing|
    ensures var rs := AsRequests(Turns(q, calls));
            forall i :: 0 <= i < |rs| ==> v in rs[i].stock
  {
    hide Precedes, RankOf, KeyOf, Filed, Beyond, Finds, HasRank;
    forall i | 0 <= i < |calls|
      ensures v in Ranks(calls[i].table, q.sort, calls[i].listing)
    {
      assert Queried(h, lib, schema, q, calls[i]);
      InRanks(lib, calls[i].table, q.sort, q.ask, calls[i].live, calls[i].listing, v);
    }
  }

  lemma {:induction false} ItemMatched(h: Hash, lib: Lib, schema: Schema, q: Question, calls: seq<QueryCall>, item: Item)
    requires QueryCalls(h, lib, schema, q, calls)
    requires forall i :: 0 <= i < |calls| ==> calls[i].limit != Some(0) && calls[i].from <= |calls[i].listing|
    requires item in AllItems(Turns(q, calls))
    ensures MatchOf(lib, q, calls, item)
  {
    hide Queried, Matches, AllItems, TurnOf;
    var turns := Turns(q, calls);
    ItemsFromTurns(turns, item);
    var i :| 0 <= i < |turns| && item in turns[i].items;
    assert Queried(h, lib, schema, q, calls[i]);
    CallItem(h, lib, schema, q, calls[i], item);
  }

  lemma {:induction false} CallItem(h: Hash, lib: Lib, schema: Schema, q: Question, c: QueryCall, item: Item)
    requires Queried(h, lib, schema, q, c) && item in TurnOf(q, c).items
    ensures Matches(lib, q.ask, c.live, item) && item in c.table.Values
  {
    hide Precedes, RankOf, KeyOf, Filed, Beyond, Matches, Ranks, Ascending;
    var keys, items := Cut(c.listing[c.from..], c.limit).0, c.answer.items;
    var m :| 0 <= m < |items| && items[m] == item;
    assert keys[m] in keys && item == c.table[keys[m]];
    assert keys[m] == c.listing[c.from..][m] && keys[m] in c.listing;
  }

  /** There is only one ordered list of the matches. */
  lemma ListingUnique(lib: Lib, table: Table, sort: string, ask: Ask, live: Item -> bool, forward: bool, kind: Class,
                      one: seq<Key>, two: seq<Key>)
    requires Finds(one, lib, table, ask, live) && Finds(two, lib, table, ask, live)
    requires Ascending(Ranks(table, sort, one), Precedes(lib, forward)) && AllOk(Ranks(table, sort, one), InClass(kind))
    requires Ascending(Ranks(table, sort, two), Precedes(lib, forward)) && AllOk(Ranks(table, sort, two), InClass(kind))
    ensures one == two
  {
    hide Matches, RankOf, Precedes;
    var rs, ss := Ranks(table, sort, one), Ranks(table, sort, two);
    PrecedesOrders(lib, forward, kind);
    forall v
      ensures v in rs <==> v in ss
    {
      InRanks(lib, table, sort, ask, live, one, v);
      InRanks(lib, table, sort, ask, live, two, v);
    }
    AscendingUnique(rs, ss, Precedes(lib, forward), InClass(kind));
    forall i | 0 <= i < |one|
      ensures one[i] == two[i]
    {
      assert two[i] in two && two[i] in one;
      var j :| 0 <= j < |one| && one[j] == two[i];
      assert rs[j] == ss[i] == rs[i];
      AscendingInjective(rs, Precedes(lib, forward), InClass(kind), i, j);
    }
  }

  /** On an unchanged table the items of all calls are, in order, those of the unlimited
      answer, whatever the limits. */
  lemma {:induction false} QueryPagesConcatenate(h: Hash, lib: Lib, schema: Schema, q: Question, calls: seq<QueryCall>, whole: QueryCall)
    requires QueryCalls(h, lib, schema, q, calls)
    requires Queried(h, lib, schema, q, whole) && whole.start == map[] && whole.limit.None?
    requires forall i :: 0 <= i < |calls| ==> calls[i].table == whole.table && calls[i].live == whole.live
    ensures whole.answer.Answer? && HandedBack(calls) == whole.answer.items
  {
    hide Queried, Finds, Precedes, PageOf, Pages, Finishes, AllItems, HandedBack, TurnOf, RankStart;
    CallsWellFormed(h, lib, schema, q, calls);
    CallsAnswer(h, lib, schema, q, calls);
    var turns, value, lt := Turns(q, calls), SortTag(q.sort), Precedes(lib, q.forward);
    ItemsTagged(h, lib, schema, q, calls);
    CallsChain(h, lib, schema, q, calls, 0);
    assert turns[0..] == turns;
    HandedBackIs(h, lib, schema, q, calls);
    NoStart(q.sort);
    ChainIsPages(turns, None, lt, value);
    CallRequests(h, lib, schema, q, calls);
    var rs, items, stock := AsRequests(turns), AllItems(turns), Ranks(whole.table, q.sort, whole.listing);
    forall i | 0 <= i < |rs|
      ensures rs[i].stock == stock
    {
      assert Queried(h, lib, schema, q, calls[i]);
      SameStock(h, lib, schema, q, calls[i], whole);
      TurnLimit(q, calls[i]);
    }
    PagesConcatenate(rs, None, lt, InClass(q.kind), stock);
    WholeAnswer(h, lib, schema, q, whole);
    forall m | 0 <= m < |items|
      ensures items[m] == whole.answer.items[m]
    {
      ItemMatched(h, lib, schema, q, calls, items[m]);
      SameRankSameItem(h, lib, schema, q, calls, whole, items[m], m);
    }
  }

  lemma SameStock(h: Hash, lib: Lib, schema: Schema, q: Question, c: QueryCall, whole: QueryCall)
    requires Queried(h, lib, schema, q, c) && Queried(h, lib, schema, q, whole) && c.table == whole.table && c.live == whole.live
    ensures c.listing == whole.listing
  {
    hide Finds, Precedes, RankOf, KeyOf, Filed, Beyond, Ranks;
    ListingUnique(lib, c.table, q.sort, q.ask, c.live, q.forward, q.kind, c.listing, whole.listing);
  }

  /** Without start key and limit the answer is the whole list. */
  lemma WholeAnswer(h: Hash, lib: Lib, schema: Schema, q: Question, whole: QueryCall)
    requires Queried(h, lib, schema, q, whole) && whole.start == map[] && whole.limit.None?
    ensures whole.answer.Answer? && (forall k :: k in whole.listing ==> k in whole.table)
    ensures whole.answer.items == ItemsOf(whole.table, whole.listing)
  {
    hide Precedes, RankOf, KeyOf, Filed, Matches;
    var ranks := Ranks(whole.table, q.sort, whole.listing);
    assert Beyond(ranks, RankStart(q.sort, whole.start), Precedes(lib, q.forward)) == ranks;
    assert |whole.listing[whole.from..]| == |whole.listing|;
    assert whole.listing[whole.from..] == whole.listing;
  }

  /** A match is determined by its sort value. */
  lemma {:induction false} SameRankSameItem(h: Hash, lib: Lib, schema: Schema, q: Question, calls: seq<QueryCall>, whole: QueryCall, item: Item, m: nat)
    requires Queried(h, lib, schema, q, whole) && MatchOf(lib, q, calls, item)
    requires forall i :: 0 <= i < |calls| ==> calls[i].table == whole.table && calls[i].live == whole.live
    requires m < |whole.listing| && SortTag(q.sort)(item) == Ranks(whole.table, q.sort, whole.listing)[m]
    ensures whole.listing[m] in whole.table && whole.table[whole.listing[m]] == item
  {
    hide Precedes, KeyOf, Matches, Beyond, Answers;
    var k :| k in whole.table && whole.table[k] == item && Matches(lib, q.ask, whole.live, item);
    assert k in whole.listing && whole.listing[m] in whole.listing;
    var j :| 0 <= j < |whole.listing| && whole.listing[j] == k;
    assert KeyOf(h, schema, item) == Some(k);
    SortPresent(h, schema, item, q.sort);
    var ranks := Ranks(whole.table, q.sort, whole.listing);
    PrecedesOrders(lib, q.forward, q.kind);
    assert ranks[j] == ranks[m];
    AscendingInjective(ranks, Precedes(lib, q.forward), InClass(q.kind), j, m);
  }

  lemma SortPresent(h: Hash, schema: Schema, item: Item, sort: string)
    requires KeyOf(h, schema, item).Some? && schema.sort == Some(sort)
    ensures sort in item
  {
  }
}
