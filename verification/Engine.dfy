/** The item store as a value: tables, their metadata, and the record each
    streaming table's changes are reported by. */
module Engine {
  import opened Values
  import opened Records
  import opened StreamLog

  /** MD5 of the JSON of the key attributes, as a number. */
  type Hash = seq<(string, Value)> -> nat

  datatype Schema = Schema(hash: string, sort: Option<string>)

  /** `stream` is the view type while streaming is enabled. */
  datatype Meta = Meta(schema: Schema, stream: Option<View>)

  /** The key attributes with their values, in schema order; None when one is missing. */
  function KeyParts(schema: Schema, item: Item): Option<seq<(string, Value)>> {
    if schema.hash !in item then None
    else if schema.sort.None? then Some([(schema.hash, item[schema.hash])])
    else if schema.sort.value !in item then None
    else Some([(schema.hash, item[schema.hash]), (schema.sort.value, item[schema.sort.value])])
  }

  /** `itemKey`. */
  function KeyOf(h: Hash, schema: Schema, item: Item): Option<Key> {
    var parts := KeyParts(schema, item);
    if parts.None? then None else Some(h(parts.value))
  }

  predicate IsKeyAttr(schema: Schema, a: string) {
    a == schema.hash || schema.sort == Some(a)
  }

  /** `extractKeys`. */
  function ExtractKeys(schema: Schema, item: Item): Item {
    map a | a in item && IsKeyAttr(schema, a) :: item[a]
  }

  lemma ExtractKeepsKey(h: Hash, schema: Schema, item: Item)
    ensures KeyOf(h, schema, ExtractKeys(schema, item)) == KeyOf(h, schema, item)
    ensures KeysOf(schema, ExtractKeys(schema, item), item)
  {
    assert schema.hash in item <==> schema.hash in ExtractKeys(schema, item);
  }

  /** Items that agree on the key attributes have the same key. */
  lemma SameKey(h: Hash, schema: Schema, x: Item, y: Item)
    requires forall a :: IsKeyAttr(schema, a) ==> Lookup(x, a) == Lookup(y, a)
    ensures KeyOf(h, schema, x) == KeyOf(h, schema, y)
  {
    assert IsKeyAttr(schema, schema.hash);
    assert Lookup(x, schema.hash) == Lookup(y, schema.hash);
    if schema.sort.Some? {
      assert IsKeyAttr(schema, schema.sort.value);
      assert Lookup(x, schema.sort.value) == Lookup(y, schema.sort.value);
    }
  }

  /** The key a reader computes from a record's key attributes. */
  function ReaderKey(h: Hash, schema: Schema): Item -> Key {
    (keys: Item) => var k := KeyOf(h, schema, keys); if k.Some? then k.value else 0
  }

  // ---- the whole store

  /** The book kept of a table's present stream: what the table held when it started, how
      many records an earlier stream of that name had left in the file, and the changes
      since. */
  datatype Book = Book(base: Table, inherited: nat, changes: seq<Change>)

  /** `emitted` is what each stream holds: what it started with and all it was given since;
      `bufs` is what a reader is shown of it. The file of an `unsynced` table is not in step
      with its buffer, and the buffer of one `behind` not with its stream. Tables `astray`
      are those whose items or stream can no longer be accounted for. */
  datatype World = World(
    metas: map<string, Meta>,
    tables: map<string, Table>,
    books: map<string, Book>,
    emitted: map<string, seq<Record>>,
    bufs: map<string, seq<Record>>,
    unsynced: set<string>,
    behind: set<string>,
    astray: set<string>)

  predicate Streaming(w: World, t: string) {
    t in w.metas && w.metas[t].stream.Some?
  }

  /** Every item is filed under its own key. */
  predicate Filed(h: Hash, schema: Schema, table: Table) {
    forall k :: k in table ==> KeyOf(h, schema, table[k]) == Some(k)
  }

  predicate Tracked(w: World, t: string) {
    t in w.books && t in w.emitted && t in w.bufs && w.books[t].inherited <= |w.emitted[t]|
  }

  /** The records of the present stream itself. */
  function Own(w: World, t: string): seq<Record>
    requires Tracked(w, t)
  {
    w.emitted[t][w.books[t].inherited..]
  }

  /** The stream of t accounts for all changes since it started. */
  predicate Accounted(h: Hash, w: World, t: string)
    requires t in w.metas && t in w.tables && Tracked(w, t)
  {
    && Explains(w.books[t].changes, w.books[t].base, w.tables[t])
    && ReportsAll(ReaderKey(h, w.metas[t].schema), Own(w, t), w.books[t].changes)
  }

  /** What holds of one table at all times. */
  predicate TableKept(h: Hash, w: World, t: string) {
    && (t in w.metas <==> t in w.tables)
    && (Streaming(w, t) ==> Tracked(w, t))
    && (t in w.metas && t !in w.astray ==>
          && Filed(h, w.metas[t].schema, w.tables[t])
          && (w.metas[t].stream.Some? ==> Accounted(h, w, t)))
  }

  ghost predicate WorldOk(h: Hash, w: World) {
    w.metas.Keys == w.tables.Keys && forall t :: TableKept(h, w, t)
  }

  lemma WorldTable(h: Hash, w: World, t: string)
    requires WorldOk(h, w)
    ensures TableKept(h, w, t)
  {
  }

  lemma WorldDomains(h: Hash, w: World)
    requires WorldOk(h, w)
    ensures w.metas.Keys == w.tables.Keys
  {
  }

  lemma AllKept(h: Hash, w: World)
    requires forall t :: TableKept(h, w, t)
    ensures WorldOk(h, w)
  {
    assert forall t :: TableKept(h, w, t) ==> (t in w.metas <==> t in w.tables);
  }

  lemma WorldTracked(h: Hash, w: World, t: string)
    requires WorldOk(h, w) && Streaming(w, t)
    ensures t in w.tables && Tracked(w, t)
  {
    assert TableKept(h, w, t);
  }

  // ---- a change of one item

  /** The item, if there is one, has the key it is filed under. */
  predicate Fits(h: Hash, schema: Schema, c: Change) {
    c.after.Some? ==> KeyOf(h, schema, c.after.value) == Some(c.key)
  }

  function Noted(metas: map<string, Meta>, books: map<string, Book>, t: string, c: Change): map<string, Book>
    requires t in metas
  {
    if metas[t].stream.Some? && t in books then books[t := books[t].(changes := books[t].changes + [c])] else books
  }

  function Strayed(h: Hash, metas: map<string, Meta>, astray: set<string>, t: string, c: Change): set<string>
    requires t in metas
  {
    if Fits(h, metas[t].schema, c) then astray else astray + {t}
  }

  predicate Buffering(w: World, t: string) {
    Streaming(w, t) && t in w.emitted && t in w.bufs
  }

  /** A change of table t, reported by r if the table streams; `appended` says whether r
      reached the file. A table that gets an item which is not under its own key goes astray. */
  function Changed(h: Hash, w: World, t: string, c: Change, r: Record, appended: bool): World
    requires t in w.metas && t in w.tables
  {
    var w' := w.(tables := w.tables[t := Put(w.tables[t], c.key, c.after)],
                 books := Noted(w.metas, w.books, t, c),
                 astray := Strayed(h, w.metas, w.astray, t, c));
    if !Buffering(w, t) then w'
    else w'.(emitted := w.emitted[t := w.emitted[t] + [r]],
             bufs := w.bufs[t := w.bufs[t] + [r]],
             unsynced := if appended then w.unsynced else w.unsynced + {t})
  }

  /** keys holds the key attributes of an item that has them all, and nothing else. */
  ghost predicate KeysOf(schema: Schema, keys: Item, item: Item) {
    forall a :: Lookup(keys, a) == if a == schema.hash || schema.sort == Some(a) then Lookup(item, a) else None
  }

  /** r is the record of c: it reports it under the stream's view type with the key attributes
      of the new item, or of the removed one, and, as long as the table can be accounted for,
      these name the item. */
  ghost predicate RecordOf(h: Hash, w: World, t: string, c: Change, r: Record)
    requires t in w.metas
  {
    w.metas[t].stream.Some? ==>
      && Reports(r, c) && r.view == w.metas[t].stream.value
      && (c.after.Some? ==> KeysOf(w.metas[t].schema, r.keys, c.after.value))
      && (c.after.None? && c.before.Some? ==> KeysOf(w.metas[t].schema, r.keys, c.before.value))
      && (t !in w.astray && Fits(h, w.metas[t].schema, c) ==> ReaderKey(h, w.metas[t].schema)(r.keys) == c.key)
  }

  lemma ChangeKeeps(h: Hash, w: World, t: string, c: Change, r: Record, appended: bool)
    requires WorldOk(h, w) && t in w.metas && t in w.tables && c.before == At(w.tables[t], c.key)
    requires RecordOf(h, w, t, c, r)
    ensures WorldOk(h, Changed(h, w, t, c, r, appended))
  {
    hide Explains, Reports, KeyOf, WorldOk;
    var w' := Changed(h, w, t, c, r, appended);
    WorldTable(h, w, t);
    if t !in w'.astray {
      if Streaming(w, t) {
        ExplainsAppend(w.books[t].changes, w.books[t].base, w.tables[t], c);
        assert Own(w', t) == Own(w, t) + [r];
      }
    }
    assert TableKept(h, w', t);
    ChangedOthers(h, w, t, c, r, appended);
    OneTableKeeps(h, w, w', t);
  }

  lemma ChangedOthers(h: Hash, w: World, t: string, c: Change, r: Record, appended: bool)
    requires t in w.metas && t in w.tables
    ensures OthersSame(w, Changed(h, w, t, c, r, appended), t)
  {
  }

  /** The event that reports change c. */
  function EventOf(c: Change): Event {
    if c.after.None? then REMOVE else if c.before.None? then INSERT else MODIFY
  }

  /** The item whose key attributes a record carries: the new one, or the removed one. */
  function KeySource(c: Change): Item {
    if c.after.Some? then c.after.value else if c.before.Some? then c.before.value else map[]
  }

  lemma RecordReports(h: Hash, w: World, t: string, c: Change, view: View, seqNum: nat, now: int)
    requires WorldOk(h, w) && t in w.metas && t in w.tables && c.before == At(w.tables[t], c.key)
    requires (c.before.Some? || c.after.Some?) && w.metas[t].stream == Some(view)
    ensures RecordOf(h, w, t, c, RecordFor(EventOf(c), view, ExtractKeys(w.metas[t].schema, KeySource(c)), c.shown, c.after, seqNum, now))
  {
    hide KeyParts, ExtractKeys, WorldOk;
    WorldTable(h, w, t);
    ExtractKeepsKey(h, w.metas[t].schema, KeySource(c));
  }

  // ---- steps on one table

  predicate SameEntry<V(==)>(m: map<string, V>, m': map<string, V>, t: string) {
    (t in m <==> t in m') && (t in m ==> m[t] == m'[t])
  }

  /** The worlds agree on everything about a table. */
  predicate SameTable(w: World, w': World, t: string) {
    && SameEntry(w.metas, w'.metas, t) && SameEntry(w.tables, w'.tables, t)
    && SameEntry(w.books, w'.books, t) && SameEntry(w.emitted, w'.emitted, t) && SameEntry(w.bufs, w'.bufs, t)
    && (t in w.unsynced <==> t in w'.unsynced) && (t in w.behind <==> t in w'.behind)
    && (t in w.astray <==> t in w'.astray)
  }

  ghost predicate OthersSame(w: World, w': World, t: string) {
    forall u :: u != t ==> SameTable(w, w', u)
  }

  /** A step on one table need only look after that table. */
  lemma OneTableKeeps(h: Hash, w: World, w': World, t: string)
    requires WorldOk(h, w) && TableKept(h, w', t) && OthersSame(w, w', t)
    ensures WorldOk(h, w')
  {
    hide Filed, Explains, ReportsAll;
    forall u
      ensures TableKept(h, w', u)
    {
      if u != t {
        assert SameTable(w, w', u) && TableKept(h, w, u);
      }
    }
    AllKept(h, w');
  }

  /** Table t with this metadata and contents, and a stream, if any, that starts here with
      the records an earlier one left, if its file can be read. */
  function Begun(w: World, t: string, meta: Meta, table: Table, left: seq<Record>, readable: bool): World {
    var w' := w.(metas := w.metas[t := meta], tables := w.tables[t := table]);
    if meta.stream.None? then w'
    else w'.(books := w.books[t := Book(table, |left|, [])], emitted := w.emitted[t := left], bufs := w.bufs[t := left],
             unsynced := if readable then w.unsynced - {t} else w.unsynced + {t}, behind := w.behind - {t})
  }

  lemma BegunKeeps(h: Hash, w: World, t: string, meta: Meta, table: Table, left: seq<Record>, readable: bool)
    requires WorldOk(h, w) && (t in w.astray || Filed(h, meta.schema, table))
    ensures WorldOk(h, Begun(w, t, meta, table, left, readable)) && OthersSame(w, Begun(w, t, meta, table, left, readable), t)
  {
    hide Filed, WorldOk, TableKept, OthersSame;
    BegunKept(h, w, t, meta, table, left, readable);
    BegunOthers(w, t, meta, table, left, readable);
    OneTableKeeps(h, w, Begun(w, t, meta, table, left, readable), t);
  }

  lemma BegunKept(h: Hash, w: World, t: string, meta: Meta, table: Table, left: seq<Record>, readable: bool)
    requires t in w.astray || Filed(h, meta.schema, table)
    ensures TableKept(h, Begun(w, t, meta, table, left, readable), t)
  {
    hide Filed, Explains;
    ExplainsNothing(table);
    assert left[|left|..] == [];
  }

  lemma BegunOthers(w: World, t: string, meta: Meta, table: Table, left: seq<Record>, readable: bool)
    ensures OthersSame(w, Begun(w, t, meta, table, left, readable), t)
  {
    hide SameEntry;
    forall u | u != t
      ensures SameTable(w, Begun(w, t, meta, table, left, readable), u)
    {
      EntryElsewhere(w.metas, t, meta, u);
      EntryElsewhere(w.tables, t, table, u);
      EntryElsewhere(w.books, t, Book(table, |left|, []), u);
      EntryElsewhere(w.emitted, t, left, u);
      EntryElsewhere(w.bufs, t, left, u);
    }
  }

  lemma RestSame<V>(m: map<string, V>, m': map<string, V>, t: string)
    requires t in m && t in m' && m - {t} == m' - {t}
    ensures m'.Keys == m.Keys && forall u :: u in m && u != t ==> m[u] == m'[u]
    ensures m[t] == m'[t] ==> m == m'
  {
    assert forall u :: u in m && u != t ==> u in m - {t} && (m - {t})[u] == m[u];
    assert forall u :: u in m' && u != t ==> u in m' - {t} && (m' - {t})[u] == m'[u];
  }

  lemma EntryElsewhere<V>(m: map<string, V>, t: string, v: V, u: string)
    requires t != u
    ensures SameEntry(m, m[t := v], u) && SameEntry(m, m, u)
  {
  }

  /** The buffer of t without its expired records. */
  function Trimmed(w: World, t: string, cutoff: int): World
    requires t in w.bufs
  {
    w.(bufs := w.bufs[t := Newer(w.bufs[t], cutoff)])
  }

  lemma TrimmedKeeps(h: Hash, w: World, t: string, cutoff: int)
    requires WorldOk(h, w) && t in w.bufs
    ensures WorldOk(h, Trimmed(w, t, cutoff))
  {
    hide WorldOk, Newer;
    ReshownKeeps(h, w, Trimmed(w, t, cutoff));
  }

  /** Other buffers for the same streams. */
  lemma ReshownKeeps(h: Hash, w: World, w': World)
    requires WorldOk(h, w) && w'.bufs.Keys == w.bufs.Keys
    requires w' == w.(bufs := w'.bufs, unsynced := w'.unsynced, behind := w'.behind)
    ensures WorldOk(h, w')
  {
    hide Filed, Explains, ReportsAll;
    forall t
      ensures TableKept(h, w', t)
    {
      assert TableKept(h, w, t);
    }
    AllKept(h, w');
  }

  /** A name that is not in use may be started afresh. */
  function Pardoned(w: World, t: string): World { w.(astray := w.astray - {t}) }

  lemma PardonedKeeps(h: Hash, w: World, t: string)
    requires WorldOk(h, w) && t !in w.metas
    ensures WorldOk(h, Pardoned(w, t)) && OthersSame(w, Pardoned(w, t), t)
  {
    hide WorldOk;
    WorldTable(h, w, t);
    OneTableKeeps(h, w, Pardoned(w, t), t);
  }

  /** Other contents in tables of which nothing is claimed. */
  lemma StrayContents(h: Hash, w: World, w': World, tables: map<string, Table>)
    requires WorldOk(h, w) && w' == w.(tables := tables, astray := w'.astray) && w.astray <= w'.astray
    requires tables.Keys == w.tables.Keys && forall t :: t in tables && t !in w'.astray ==> tables[t] == w.tables[t]
    ensures WorldOk(h, w')
  {
    hide Filed, Explains, ReportsAll;
    forall t
      ensures TableKept(h, w', t)
    {
      assert TableKept(h, w, t);
    }
  }

  /** A table of which only a part is left goes astray, unless that part is all. */
  lemma PartKeeps(h: Hash, w: World, w': World, t: string)
    requires WorldOk(h, w) && t in w.tables && t in w'.tables && w.tables - {t} == w'.tables - {t}
    requires w' == w.(tables := w'.tables, astray := if w'.tables[t] == w.tables[t] then w.astray else w.astray + {t})
    ensures WorldOk(h, w')
  {
    hide WorldOk;
    RestSame(w.tables, w'.tables, t);
    StrayContents(h, w, w', w'.tables);
  }

  /** Table t with another view type and the same stream. */
  function Viewed(w: World, t: string, view: View): World
    requires t in w.metas
  {
    w.(metas := w.metas[t := w.metas[t].(stream := Some(view))])
  }

  lemma ViewedKeeps(h: Hash, w: World, t: string, view: View)
    requires WorldOk(h, w) && Streaming(w, t)
    ensures WorldOk(h, Viewed(w, t, view)) && OthersSame(w, Viewed(w, t, view), t)
  {
    hide Filed, Explains, ReportsAll, WorldOk;
    WorldTable(h, w, t);
    OneTableKeeps(h, w, Viewed(w, t, view), t);
  }

  /** The stream of t is gone. */
  function Unfed(w: World, t: string): World {
    w.(emitted := w.emitted - {t}, bufs := w.bufs - {t}, unsynced := w.unsynced - {t}, behind := w.behind - {t})
  }

  /** Table t without a stream. */
  function Silenced(w: World, t: string): World
    requires t in w.metas
  {
    Unfed(w.(metas := w.metas[t := w.metas[t].(stream := None)]), t)
  }

  lemma SilencedKeeps(h: Hash, w: World, t: string)
    requires WorldOk(h, w) && t in w.metas
    ensures WorldOk(h, Silenced(w, t)) && OthersSame(w, Silenced(w, t), t)
  {
    hide Filed, Explains, ReportsAll, WorldOk;
    WorldTable(h, w, t);
    OneTableKeeps(h, w, Silenced(w, t), t);
  }

  function Dropped(w: World, t: string): World {
    Unfed(w.(metas := w.metas - {t}, tables := w.tables - {t}), t)
  }

  lemma DroppedKeeps(h: Hash, w: World, t: string)
    requires WorldOk(h, w)
    ensures WorldOk(h, Dropped(w, t)) && OthersSame(w, Dropped(w, t), t)
  {
    hide Filed, Explains, ReportsAll, WorldOk;
    OneTableKeeps(h, w, Dropped(w, t), t);
  }

  // ---- streams that go on

  /** The stream of t has only been added to, under one view type, and so has its book. */
  predicate Continued(w: World, w': World, t: string) {
    && Streaming(w, t) && t in w'.metas && w'.metas[t] == w.metas[t]
    && Tracked(w, t) && Tracked(w', t)
    && w'.books[t].base == w.books[t].base && w'.books[t].inherited == w.books[t].inherited
    && w.books[t].changes <= w'.books[t].changes && w.emitted[t] <= w'.emitted[t]
    && (forall i :: |w.emitted[t]| <= i < |w'.emitted[t]| ==> w'.emitted[t][i].view == w.metas[t].stream.value)
  }

  /** The changes noted since. */
  function Since(w: World, w': World, t: string): seq<Change>
    requires Continued(w, w', t)
  {
    w'.books[t].changes[|w.books[t].changes|..]
  }

  /** A reader has been shown what the stream was given, no more and no less. */
  predicate Fed(w: World, w': World, t: string)
    requires Continued(w, w', t)
  {
    && w'.bufs[t] == w.bufs[t] + NewRecords(w, w', t)
    && (t in w'.behind <==> t in w.behind) && (t in w.unsynced ==> t in w'.unsynced)
  }

  predicate AllExact(changes: seq<Change>) {
    forall c :: c in changes ==> Exact(c)
  }

  /** Every stream has gone on before its readers' eyes, and its writers have handed on the
      true previous images, unless `loose` says otherwise of the table. */
  ghost predicate AllContinue(w: World, w': World, loose: set<string>) {
    forall t :: Streaming(w, t) ==>
      Continued(w, w', t) && Fed(w, w', t) && (t !in loose ==> AllExact(Since(w, w', t)))
  }

  lemma ContinueTrans(w: World, w': World, w'': World, t: string)
    requires Continued(w, w', t) && Continued(w', w'', t)
    ensures Continued(w, w'', t) && Since(w, w'', t) == Since(w, w', t) + Since(w', w'', t)
    ensures NewRecords(w, w'', t) == NewRecords(w, w', t) + NewRecords(w', w'', t)
    ensures Fed(w, w', t) && Fed(w', w'', t) ==> Fed(w, w'', t)
  {
  }

  lemma AllContinueTrans(w: World, w': World, w'': World, loose: set<string>, loose': set<string>)
    requires AllContinue(w, w', loose) && AllContinue(w', w'', loose')
    ensures AllContinue(w, w'', loose + loose')
  {
    hide Continued, Since, Fed, NewRecords;
    forall t | Streaming(w, t)
      ensures Continued(w, w'', t) && Fed(w, w'', t) && (t !in loose + loose' ==> AllExact(Since(w, w'', t)))
    {
      ContinuedStreams(w, w', t);
      ContinueTrans(w, w', w'', t);
    }
  }

  lemma ExactTrans(w: World, w': World, w'': World)
    requires AllContinue(w, w', {}) && AllContinue(w', w'', {})
    ensures AllContinue(w, w'', {})
  {
    hide AllContinue;
    AllContinueTrans(w, w', w'', {}, {});
    var none: set<string> := {};
    assert none + none == none;
  }

  lemma ContinuedStreams(w: World, w': World, t: string)
    requires Continued(w, w', t)
    ensures Streaming(w', t)
  {
  }

  lemma ContinueLooser(w: World, w': World, loose: set<string>)
    requires AllContinue(w, w', {})
    ensures AllContinue(w, w', loose)
  {
  }

  lemma NoRecord(h: Hash, w: World, t: string, c: Change, r: Record)
    requires t in w.metas && w.metas[t].stream.None?
    ensures RecordOf(h, w, t, c, r)
  {
  }

  lemma OthersTrans(w: World, w': World, w'': World, t: string)
    requires OthersSame(w, w', t) && OthersSame(w', w'', t)
    ensures OthersSame(w, w'', t)
  {
    forall u | u != t
      ensures SameTable(w, w'', u)
    {
      assert SameTable(w, w', u) && SameTable(w', w'', u);
    }
  }

  lemma SameContinues(h: Hash, w: World, w': World)
    requires WorldOk(h, w) && w' == w.(tables := w'.tables, astray := w'.astray)
    ensures AllContinue(w, w', {})
  {
    hide WorldOk;
    forall t | Streaming(w, t)
      ensures Continued(w, w', t) && Fed(w, w', t) && AllExact(Since(w, w', t))
    {
      WorldTracked(h, w, t);
    }
  }

  lemma ChangedContinues(h: Hash, w: World, t: string, c: Change, r: Record, appended: bool)
    requires WorldOk(h, w) && t in w.metas && t in w.tables && RecordOf(h, w, t, c, r)
    ensures AllContinue(w, Changed(h, w, t, c, r, appended), if Exact(c) then {} else {t})
  {
    hide WorldOk, Fits, Reports;
    var w' := Changed(h, w, t, c, r, appended);
    forall u | Streaming(w, u)
      ensures Continued(w, w', u) && Fed(w, w', u) && (u !in (if Exact(c) then {} else {t}) ==> AllExact(Since(w, w', u)))
    {
      WorldTracked(h, w, u);
    }
  }

  // ---- what the invariant says of the streams

  /** Replaying what a stream was given since w over the contents of then gives the
      contents of now, all records truthful, and every old image the image before if its
      writer handed that on. */
  lemma ReplaySince(h: Hash, w: World, w': World, t: string)
    requires WorldOk(h, w) && WorldOk(h, w') && Continued(w, w', t) && t !in w.astray && t !in w'.astray
    requires CarriesNew(w.metas[t].stream.value)
    ensures t in w.tables && t in w'.tables && Follows(h, w, w', t)
    ensures AllExact(Since(w, w', t)) ==>
              forall i :: 0 <= i < |NewRecords(w, w', t)| ==>
                OldImageTrue(ReaderKey(h, w.metas[t].schema), NewRecords(w, w', t), w.tables[t], i)
  {
    hide Truthful, OldImageTrue, WorldOk, Explains;
    WorldTable(h, w, t);
    WorldTable(h, w', t);
    var book, book', key := w.books[t], w'.books[t], ReaderKey(h, w.metas[t].schema);
    var records, changes := NewRecords(w, w', t), Since(w, w', t);
    ExplainsRest(book.changes, book'.changes, book.base, w.tables[t], w'.tables[t]);
    SuffixReports(key, Own(w, t), Own(w', t), book.changes, book'.changes);
    assert records == Own(w', t)[|Own(w, t)|..];
    StreamReplays(key, records, changes, w.tables[t], w'.tables[t]);
    if AllExact(changes) {
      forall i | 0 <= i < |records|
        ensures OldImageTrue(key, records, w.tables[t], i)
      {
        assert changes[i] in changes;
      }
    }
  }

  function NewRecords(w: World, w': World, t: string): seq<Record>
    requires Continued(w, w', t)
  {
    w'.emitted[t][|w.emitted[t]|..]
  }

  predicate Follows(h: Hash, w: World, w': World, t: string)
    requires Continued(w, w', t) && t in w.tables && t in w'.tables
  {
    var key, records := ReaderKey(h, w.metas[t].schema), NewRecords(w, w', t);
    && Replay(key, records, w.tables[t]) == w'.tables[t]
    && |records| == |Since(w, w', t)|
    && forall i :: 0 <= i < |records| ==> Truthful(key, records, w.tables[t], i)
  }

  lemma SuffixReports(keyOf: Item -> Key, records: seq<Record>, all: seq<Record>, changes: seq<Change>, allChanges: seq<Change>)
    requires ReportsAll(keyOf, records, changes) && ReportsAll(keyOf, all, allChanges) && records <= all && changes <= allChanges
    ensures ReportsAll(keyOf, all[|records|..], allChanges[|changes|..])
  {
  }

  /** In a good world the records of a stream that all carry new images replay from its
      start to the table's contents. */
  lemma WorldReplays(h: Hash, w: World, t: string)
    requires WorldOk(h, w) && Streaming(w, t) && t !in w.astray && Tracked(w, t)
    requires forall r :: r in Own(w, t) ==> CarriesNew(r.view)
    ensures t in w.tables
    ensures Replay(ReaderKey(h, w.metas[t].schema), Own(w, t), w.books[t].base) == w.tables[t]
    ensures forall i :: 0 <= i < |Own(w, t)| ==>
              Truthful(ReaderKey(h, w.metas[t].schema), Own(w, t), w.books[t].base, i)
  {
    hide Truthful, OldImageTrue, WorldOk;
    WorldTable(h, w, t);
    StreamReplays(ReaderKey(h, w.metas[t].schema), Own(w, t), w.books[t].changes, w.books[t].base, w.tables[t]);
  }

  // ---- records an earlier stream left in the file

  function Left(w: World, t: string): seq<Record>
    requires Tracked(w, t)
  {
    w.emitted[t][..w.books[t].inherited]
  }

  /** Replaying everything a stream shows over the contents it started from gives the
      table's contents exactly if the changes since have touched every key for which the
      records left by an earlier stream make the start another. */
  lemma LeftoversMatter(h: Hash, w: World, t: string)
    requires WorldOk(h, w) && Streaming(w, t) && t !in w.astray && Tracked(w, t)
    requires forall r :: r in Own(w, t) ==> CarriesNew(r.view)
    ensures t in w.tables
    ensures var base := w.books[t].base;
            var start := Replay(ReaderKey(h, w.metas[t].schema), Left(w, t), base);
            Replay(ReaderKey(h, w.metas[t].schema), w.emitted[t], base) == w.tables[t] <==>
            forall k :: At(start, k) == At(base, k) || Touched(w.books[t].changes, k)
  {
    hide WorldOk, At, Replay, Played, Touched, ReportsAll;
    WorldTable(h, w, t);
    var key, book := ReaderKey(h, w.metas[t].schema), w.books[t];
    var start := Replay(key, Left(w, t), book.base);
    assert w.emitted[t] == Left(w, t) + Own(w, t);
    ReplayMore(key, Left(w, t), Own(w, t), book.base);
    ReplayIsPlayed(key, Own(w, t), book.changes, start);
    PlayedMeet(book.changes, start, book.base);
  }

  /** A store in a good state whose new, empty table has a stream with a record left by an
      earlier one: replaying the stream from its start gives an item that is not there. */
  lemma LeftoversBreakReplay(h: Hash)
    ensures var item: Item := map["p" := S("x")];
            var left := [Record(INSERT, NewOnly, item, Some(item), None, 1, 0)];
            var w := World(map["t" := Meta(Schema("p", None), Some(NewOnly))], map["t" := map[]],
                           map["t" := Book(map[], 1, [])], map["t" := left], map["t" := left], {}, {}, {});
            && WorldOk(h, w) && Streaming(w, "t") && w.tables["t"] == map[]
            && Replay(ReaderKey(h, w.metas["t"].schema), w.emitted["t"], w.books["t"].base) != w.tables["t"]
  {
    var item: Item := map["p" := S("x")];
    var left := [Record(INSERT, NewOnly, item, Some(item), None, 1, 0)];
    var none: Table := map[];
    var w := World(map["t" := Meta(Schema("p", None), Some(NewOnly))], map["t" := none],
                   map["t" := Book(none, 1, [])], map["t" := left], map["t" := left], {}, {}, {});
    assert Own(w, "t") == [];
    ExplainsNothing(none);
    AllKept(h, w);
    assert left[..0] == [];
    var key := ReaderKey(h, w.metas["t"].schema);
    assert key(item) in Replay(key, left, none);
  }
}
