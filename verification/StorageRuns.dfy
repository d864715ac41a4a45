/** Whole runs of the storage engine: any requests, in any order, with any failures. Each
    request has its effect on what the one before left, and the streams follow. */
module StorageRuns {
  import opened Values
  import opened Updates
  import opened Records
  import opened StreamLog
  import opened Engine
  import opened Actions
  import opened Storage

  datatype Step =
    | PutItem(t: string, item: Item, cond: Option<Condition>)
    | DeleteItem(t: string, key: Item, cond: Option<Condition>)
    | UpdateItem(t: string, key: Item, updates: Updates, cond: Option<Condition>)
    | BatchWrite(t: string, puts: seq<Item>, deletes: seq<Item>)
    | Transact(actions: seq<Action>)
    | CreateTable(t: string, meta: Meta)
    | UpdateTable(t: string, stream: Option<View>)
    | DeleteTable(t: string)
    | TrimStream(t: string)
    | Restart

  // ---- what a request does

  /** The request names an item of a table, and its condition holds. */
  ghost predicate Grants(h: Hash, lib: Lib, w: World, t: string, key: Item, cond: Option<Condition>) {
    && t in w.metas && t in w.tables
    && var k := KeyOf(h, w.metas[t].schema, key);
       k.Some? && Allows(lib, At(w.tables[t], k.value), cond)
  }

  /** Table t goes through change c, and its stream, if on, gets one record that reports it. */
  ghost predicate Goes(h: Hash, w: World, t: string, c: Change, w': World)
    requires t in w.metas && t in w.tables
  {
    exists r, appended :: RecordOf(h, w, t, c, r) && w' == Changed(h, w, t, c, r, appended)
  }

  /** The item under a key of table t. */
  function ItemOf(h: Hash, w: World, t: string, key: Item): Option<Item>
    requires t in w.metas && t in w.tables && KeyOf(h, w.metas[t].schema, key).Some?
  {
    At(w.tables[t], KeyOf(h, w.metas[t].schema, key).value)
  }

  /** The item under the key becomes `after`; `shown` is handed on as what it was. */
  ghost predicate Becomes(h: Hash, w: World, t: string, key: Item, after: Option<Item>, shown: Option<Item>, w': World)
    requires t in w.metas && t in w.tables && KeyOf(h, w.metas[t].schema, key).Some?
  {
    Goes(h, w, t, Change(KeyOf(h, w.metas[t].schema, key).value, ItemOf(h, w, t, key), after, shown), w')
  }

  /** What an update in this order makes of the item under the key. */
  function UpdatedIn(h: Hash, lib: Lib, w: World, t: string, key: Item, updates: Updates, order: seq<string>): Option<Images>
    requires t in w.metas && t in w.tables && KeyOf(h, w.metas[t].schema, key).Some?
    requires forall k :: k in order ==> k in updates
  {
    Updated(lib, ItemOf(h, w, t, key), key, updates, order)
  }

  /** Some iteration order of the update stores its outcome, or one of them rejects it. */
  ghost predicate UpdateDone(h: Hash, lib: Lib, w: World, t: string, key: Item, updates: Updates, w': World)
    requires t in w.metas && t in w.tables && KeyOf(h, w.metas[t].schema, key).Some?
  {
    || (exists order ::
          && IterationOf(order, updates) && UpdatedIn(h, lib, w, t, key, updates, order).Some?
          && var im := UpdatedIn(h, lib, w, t, key, updates, order).value;
             Becomes(h, w, t, key, Some(im.after), Shown(ItemOf(h, w, t, key), im), w'))
    || (w' == w && exists order :: (forall k :: k in order ==> k in updates) && UpdatedIn(h, lib, w, t, key, updates, order).None?)
  }

  /** Puts before deletes, a prefix of the batch is done, each item of it reported as one
      change; all of it if nothing fails. */
  ghost predicate BatchDone(h: Hash, w: World, t: string, puts: seq<Item>, deletes: seq<Item>, w': World, fails: nat)
    requires t in w.metas && t in w.tables
  {
    exists p, d ::
      && 0 <= p <= |puts| && 0 <= d <= |deletes| && (d > 0 ==> p == |puts|)
      && w'.tables == w.tables[t := Batched(h, w.metas[t].schema, w.tables[t], puts[..p], deletes[..d])]
      && w'.books == NotedMany(w.metas, w.books, t, BatchChanges(h, w.metas[t].schema, w.tables[t], puts[..p], deletes[..d]))
      && (fails == 0 && Keyed(h, w.metas[t].schema, puts) && Keyed(h, w.metas[t].schema, deletes) <==> p == |puts| && d == |deletes|)
  }

  /** Some order rejects an update of the transaction. */
  ghost predicate SomeRejected(h: Hash, lib: Lib, w: World, actions: seq<Action>) {
    exists a :: a in actions && Rejects(lib, a, Found(h, w.metas, w.tables, a))
  }

  /** The transaction may be refused: for its form, a condition, or a rejected update. */
  ghost predicate Refusable(h: Hash, lib: Lib, w: World, actions: seq<Action>) {
    !OneEach(h, w.metas, actions) || !AllPass(h, lib, w.metas, actions, w.tables) || SomeRejected(h, lib, w, actions)
  }

  /** Without failures everything is done or, if it may be refused, nothing. Otherwise
      nothing is reported and nothing done but that fewer items than operations failed are
      as an action left them; as many, if the rollback was for a rejected update. */
  ghost predicate TransactDone(h: Hash, lib: Lib, w: World, actions: seq<Action>, w': World, fails: nat) {
    if fails == 0 then AllDone(h, lib, w.metas, actions, w.tables, w'.tables) || (w' == w && Refusable(h, lib, w, actions))
    else
      && w' == w.(tables := w'.tables, astray := w.astray + Differing(w.tables, w'.tables))
      && exists lost ::
           && OnlyLost(h, lib, w.metas, actions, w.tables, w'.tables, lost)
           && (|lost| < fails || (|lost| == fails && SomeRejected(h, lib, w, actions)))
  }

  /** All or nothing, also when a file operation fails: one failure alone, whichever it is,
      leaves every item of every table as it was. */
  lemma OneFailure(h: Hash, lib: Lib, w: World, actions: seq<Action>, w': World)
    requires TransactDone(h, lib, w, actions, w', 1) && !SomeRejected(h, lib, w, actions)
    ensures w' == w
  {
    hide ItemAt, LeftBy, Rejects;
    var lost :| OnlyLost(h, lib, w.metas, actions, w.tables, w'.tables, lost) && |lost| < 1;
    assert lost == {};
    SameItems(w'.tables, w.tables);
    NoDifference(w.tables, w.astray);
  }

  /** A stream is on, its book starts here, and a reader is shown what it starts with. */
  predicate Opened(w: World, t: string) {
    && Streaming(w, t) && t in w.tables && Tracked(w, t)
    && w.books[t] == Book(w.tables[t], |w.emitted[t]|, [])
    && w.bufs[t] == w.emitted[t] && t !in w.behind
  }

  /** Buffers read back at time `now`, but for the tables `unread`. */
  predicate ReadAgain(w: World, w': World, now: int, unread: set<string>) {
    && w' == w.(bufs := w'.bufs, unsynced := unread, behind := w.behind + (w.unsynced * w.bufs.Keys) + unread)
    && w'.bufs.Keys == w.bufs.Keys && unread <= w.bufs.Keys
    && forall t :: t in w.bufs && t !in w.unsynced && t !in unread ==> w'.bufs[t] == Newer(w.bufs[t], now - RETENTION)
  }

  /** The effect of a request at time `now` in which `fails` operations failed on item and
      metadata files, or on stream files that were to be read back. */
  ghost predicate Effect(h: Hash, lib: Lib, w: World, step: Step, now: int, w': World, fails: nat) {
    match step
    case PutItem(t, item, cond) =>
      if fails == 0 && Grants(h, lib, w, t, item, cond) then Becomes(h, w, t, item, Some(item), ItemOf(h, w, t, item), w')
      else w' == w
    case DeleteItem(t, key, cond) =>
      if fails == 0 && Grants(h, lib, w, t, key, cond) && ItemOf(h, w, t, key).Some?
      then Becomes(h, w, t, key, None, ItemOf(h, w, t, key), w') else w' == w
    case UpdateItem(t, key, updates, cond) =>
      if fails == 0 && Grants(h, lib, w, t, key, cond) then UpdateDone(h, lib, w, t, key, updates, w') else w' == w
    case BatchWrite(t, puts, deletes) =>
      if t in w.metas && t in w.tables
      then w'.metas == w.metas && w'.astray == w.astray && BatchDone(h, w, t, puts, deletes, w', fails) else w' == w
    case Transact(actions) => w'.metas == w.metas && TransactDone(h, lib, w, actions, w', fails)
    case CreateTable(t, meta) =>
      if fails == 0 && t !in w.metas then
        && w'.metas == w.metas[t := meta] && w'.tables == w.tables[t := map[]] && w'.astray == w.astray - {t}
        && (meta.stream.Some? ==> Opened(w', t))
      else w' == w
    case UpdateTable(t, stream) =>
      if fails == 0 && t in w.metas then
        && w'.metas == w.metas[t := w.metas[t].(stream := stream)] && w'.tables == w.tables && w'.astray == w.astray
        && (stream.Some? && w.metas[t].stream.None? ==> Opened(w', t))
      else w' == w
    case DeleteTable(t) =>
      if fails == 0 && t in w.metas then w'.metas == w.metas - {t} && w'.tables == w.tables - {t} && w'.astray == w.astray
      else w' == w || PartDeleted(w, t, w')
    case TrimStream(t) => w' == if t in w.bufs then Trimmed(w, t, now - RETENTION) else w
    case Restart => exists unread :: |unread| == fails && ReadAgain(w, w', now, unread)
  }

  /** Some items of the table are gone, without records, and the others as they were. */
  predicate PartDeleted(w: World, t: string, w': World) {
    && t in w.tables && t in w'.tables && w'.tables - {t} == w.tables - {t}
    && (forall k :: k in w'.tables[t] ==> At(w'.tables[t], k) == At(w.tables[t], k))
    && w' == w.(tables := w'.tables, astray := if w'.tables[t] == w.tables[t] then w.astray else w.astray + {t})
  }

  // ---- what the streams do

  predicate OnTable(step: Step, t: string) {
    (step.CreateTable? || step.UpdateTable? || step.DeleteTable?) && step.t == t
  }

  /** The request writes no key attribute of an item of t, and the table itself is left alone. */
  predicate Spares(w: World, step: Step, t: string)
    requires t in w.metas
  {
    && !OnTable(step, t)
    && (step.UpdateItem? && step.t == t ==> KeepsKeys(w.metas[t].schema, step.updates))
    && (step.Transact? ==>
          forall a :: a in step.actions && a.UpdateAct? && a.table == t ==> KeepsKeys(w.metas[t].schema, a.updates))
  }

  /** An update of an item of t hands on its true previous image, whatever the order. */
  ghost predicate Discreet(h: Hash, lib: Lib, w: World, step: Step, t: string) {
    step.UpdateItem? && step.t == t && t in w.metas && t in w.tables && KeyOf(h, w.metas[t].schema, step.key).Some? ==>
      var item := At(w.tables[t], KeyOf(h, w.metas[t].schema, step.key).value);
      forall order :: IterationOf(order, step.updates) && Updated(lib, item, step.key, step.updates, order).Some? ==>
        Shown(item, Updated(lib, item, step.key, step.updates, order).value) == item
  }

  lemma TopLevelDiscreet(h: Hash, lib: Lib, w: World, step: Step, t: string)
    requires step.UpdateItem? ==> forall k :: k in step.updates ==> !Nested(step.updates[k])
    ensures Discreet(h, lib, w, step, t)
  {
    hide ImagesIn, KeyOf;
    if step.UpdateItem? && step.t == t && t in w.metas && t in w.tables && KeyOf(h, w.metas[t].schema, step.key).Some? {
      var item := At(w.tables[t], KeyOf(h, w.metas[t].schema, step.key).value);
      forall order | IterationOf(order, step.updates) && Updated(lib, item, step.key, step.updates, order).Some?
        ensures Shown(item, Updated(lib, item, step.key, step.updates, order).value) == item
      {
        TopLevelShows(lib, if item.Some? then item.value else step.key, step.updates, order);
      }
    }
  }

  /** The request takes records from the buffer of t. */
  predicate Reshows(step: Step, t: string) {
    step.Restart? || (step.TrimStream? && step.t == t)
  }

  /** Table t has the same contents. */
  predicate Unharmed(w: World, w': World, t: string) {
    t in w.tables && SameEntry(w.tables, w'.tables, t)
  }

  /** Each stream whose table is left alone goes on, before its readers' eyes but for trims
      and restarts, and stays accountable unless a key attribute is written or a rollback
      fails on that table. */
  ghost predicate Onward(h: Hash, lib: Lib, w: World, step: Step, w': World, fails: nat) {
    forall t :: Streaming(w, t) && !OnTable(step, t) ==>
      && Continued(w, w', t)
      && (Discreet(h, lib, w, step, t) ==> AllExact(Since(w, w', t)))
      && (!Reshows(step, t) ==> Fed(w, w', t))
      && (t !in w.astray && Spares(w, step, t) && (step.Transact? ==> fails == 0 || Unharmed(w, w', t)) ==> t !in w'.astray)
  }

  /** A reader is shown what has not expired of the stream, unless the buffer is behind. */
  ghost predicate Seen(w: World) {
    forall t :: t in w.bufs && t !in w.behind ==> t in w.emitted && exists cut :: Shows(w.bufs[t], w.emitted[t], cut)
  }

  lemma SeenNow(s: State, w: World)
    requires StreamLog.StateOk(s) && w.bufs == s.bufs && w.emitted == s.emitted && w.behind == s.behind
    ensures Seen(w)
  {
    hide Shows, Numbered;
    forall t | t in w.bufs && t !in w.behind
      ensures t in w.emitted && exists cut :: Shows(w.bufs[t], w.emitted[t], cut)
    {
      assert TableOk(s, t);
      assert Shows(w.bufs[t], w.emitted[t], s.cut[t]);
    }
  }

  ghost predicate Stepped(h: Hash, lib: Lib, w: World, step: Step, now: int, w': World, fails: nat) {
    WorldOk(h, w') && Effect(h, lib, w, step, now, w', fails) && Onward(h, lib, w, step, w', fails)
  }

  /** Streams that all go on with true images, in a step that takes no table astray. */
  lemma SimplyOnward(h: Hash, lib: Lib, w: World, step: Step, w': World, fails: nat)
    requires AllContinue(w, w', {}) && w'.astray <= w.astray
    ensures Onward(h, lib, w, step, w', fails)
  {
    hide Continued, Since, Fed, Discreet;
  }

  lemma OthersOnward(h: Hash, lib: Lib, w: World, step: Step, w': World, fails: nat, t: string)
    requires WorldOk(h, w) && OthersSame(w, w', t) && OnTable(step, t)
    ensures Onward(h, lib, w, step, w', fails)
  {
    hide WorldOk, Discreet;
    forall u | Streaming(w, u) && !OnTable(step, u)
      ensures Continued(w, w', u) && AllExact(Since(w, w', u)) && Fed(w, w', u) && (u !in w.astray ==> u !in w'.astray)
    {
      WorldTracked(h, w, u);
      assert SameTable(w, w', u);
    }
  }

  /** Other buffers, for the tables the step takes records from. */
  lemma ReshownOnward(h: Hash, lib: Lib, w: World, step: Step, w': World, fails: nat)
    requires WorldOk(h, w) && w'.bufs.Keys == w.bufs.Keys
    requires w' == w.(bufs := w'.bufs, unsynced := w'.unsynced, behind := w'.behind)
    requires step.Restart? || (step.TrimStream? && w' == w.(bufs := w'.bufs)
                               && forall t :: t in w.bufs && t != step.t ==> w'.bufs[t] == w.bufs[t])
    ensures Onward(h, lib, w, step, w', fails)
  {
    hide WorldOk, Discreet;
    forall t | Streaming(w, t) && !OnTable(step, t)
      ensures Continued(w, w', t) && AllExact(Since(w, w', t)) && (!Reshows(step, t) ==> Fed(w, w', t))
    {
      WorldTracked(h, w, t);
    }
  }

  // ---- a transaction takes no table astray by itself

  /** A write of a transaction fits its key if it is not an update of a key attribute. */
  lemma WriteFits(h: Hash, lib: Lib, w: World, actions: seq<Action>, applied: seq<Applied>, i: nat)
    requires WorldOk(h, w) && Progress(h, lib, w.metas, actions, applied, w.tables) && i < |applied|
    requires applied[i].ref.table in w.metas && applied[i].ref.table !in w.astray
    requires forall a :: a in actions && a.UpdateAct? && a.table == applied[i].ref.table ==>
               KeepsKeys(w.metas[a.table].schema, a.updates)
    ensures Fits(h, w.metas[applied[i].ref.table].schema, ChangeOf(applied[i]))
  {
    hide WorldOk, Snapped, KeyOf, ImagesIn, KeepsKeys, Written;
    var x := applied[i];
    WorldTable(h, w, x.ref.table);
    assert x in applied && Performs(h, lib, w.metas, x);
    InWriting(actions, x.action);
    assert Writing(actions)[i] == x.action && x.action in actions;
    FirstWrite(w.tables, applied, i);
    Named(h, w.metas, x.action);
    if x.action.UpdateAct? {
      var order :| IterationOf(order, x.action.updates)
                   && Result(lib, x.before, x.action.key, x.action.updates, order) == x.after && x.after.Some?;
      UpdateFits(h, w, lib, x.ref.table, x.ref.key, x.action.key, x.action.updates, order);
    }
  }

  lemma {:induction false} StrayedOnly(h: Hash, metas: map<string, Meta>, astray: set<string>, applied: seq<Applied>, t: string)
    requires forall x :: x in applied ==> x.ref.table in metas
    requires t !in astray && forall x :: x in applied && x.ref.table == t ==> Fits(h, metas[t].schema, ChangeOf(x))
    ensures t !in StrayedAll(h, metas, astray, applied)
  {
    hide Fits;
    if applied != [] {
      assert applied[|applied| - 1] in applied;
      StrayedOnly(h, metas, astray, applied[..|applied| - 1], t);
    }
  }

  lemma TransactFits(h: Hash, lib: Lib, w: World, actions: seq<Action>, applied: seq<Applied>, t: string)
    requires WorldOk(h, w) && Progress(h, lib, w.metas, actions, applied, w.tables)
    requires forall x :: x in applied ==> x.ref.table in w.metas
    requires t in w.metas && t !in w.astray && Spares(w, Transact(actions), t)
    ensures t !in StrayedAll(h, w.metas, w.astray, applied)
  {
    hide WorldOk, Progress, Fits, KeepsKeys;
    forall x | x in applied && x.ref.table == t
      ensures Fits(h, w.metas[t].schema, ChangeOf(x))
    {
      var i :| 0 <= i < |applied| && applied[i] == x;
      WriteFits(h, lib, w, actions, applied, i);
    }
    StrayedOnly(h, w.metas, w.astray, applied, t);
  }

  // ---- requests

  method DoPut(s: Storage, t: string, item: Item, cond: Option<Condition>, now: int)
    requires s.Valid() && s.streams.clock <= now
    modifies s, s.streams
    ensures s.Valid() && s.streams.clock <= now && s.faults >= old(s.faults)
    ensures Stepped(s.h, s.lib, old(s.W()), PutItem(t, item, cond), now, s.W(), s.faults - old(s.faults))
  {
    hide StateOk, WorldOk, Allows, Denies, KeyOf, AllContinue, RecordOf, Changed, Onward;
    ghost var w := s.W();
    WorldDomains(s.h, w);
    var _ := s.PutItem(t, item, cond, now);
    OnlyGranted(s.h, s.lib, w, t, item, cond);
    if s.W() != w {
      CommittedAstray(s.h, w, t, s.W(), item, At(w.tables[t], KeyOf(s.h, w.metas[t].schema, item).value));
    }
    SimplyOnward(s.h, s.lib, w, PutItem(t, item, cond), s.W(), s.faults - old(s.faults));
  }

  lemma OnlyGranted(h: Hash, lib: Lib, w: World, t: string, key: Item, cond: Option<Condition>)
    ensures Grants(h, lib, w, t, key, cond) ==>
              !Denies(lib, At(w.tables[t], KeyOf(h, w.metas[t].schema, key).value), cond)
  {
    hide KeyOf;
    if Grants(h, lib, w, t, key, cond) {
      OneVerdict(lib, At(w.tables[t], KeyOf(h, w.metas[t].schema, key).value), cond);
    }
  }

  /** Storing an item under its own key takes no table astray. */
  lemma CommittedAstray(h: Hash, w: World, t: string, w': World, item: Item, before: Option<Item>)
    requires t in w.metas && t in w.tables && KeyOf(h, w.metas[t].schema, item).Some?
    requires Goes(h, w, t, Change(KeyOf(h, w.metas[t].schema, item).value, before, Some(item), before), w')
    ensures w'.astray == w.astray
  {
    hide KeyOf, RecordOf;
  }

  method DoDelete(s: Storage, t: string, key: Item, cond: Option<Condition>, now: int)
    requires s.Valid() && s.streams.clock <= now
    modifies s, s.streams
    ensures s.Valid() && s.streams.clock <= now && s.faults >= old(s.faults)
    ensures Stepped(s.h, s.lib, old(s.W()), DeleteItem(t, key, cond), now, s.W(), s.faults - old(s.faults))
  {
    hide StateOk, WorldOk, Allows, Denies, KeyOf, AllContinue, RecordOf, Changed, Onward;
    ghost var w := s.W();
    WorldDomains(s.h, w);
    var _ := s.DeleteItem(t, key, cond, now);
    OnlyGranted(s.h, s.lib, w, t, key, cond);
    if s.W() != w {
      RemovedAstray(s.h, w, t, s.W(), KeyOf(s.h, w.metas[t].schema, key).value, ItemOf(s.h, w, t, key));
    }
    SimplyOnward(s.h, s.lib, w, DeleteItem(t, key, cond), s.W(), s.faults - old(s.faults));
  }

  lemma RemovedAstray(h: Hash, w: World, t: string, w': World, k: Key, before: Option<Item>)
    requires t in w.metas && t in w.tables && Goes(h, w, t, Change(k, before, None, before), w')
    ensures w'.astray == w.astray
  {
    hide RecordOf;
  }

  method DoUpdate(s: Storage, t: string, key: Item, updates: Updates, cond: Option<Condition>, now: int)
    requires s.Valid() && s.streams.clock <= now
    modifies s, s.streams
    ensures s.Valid() && s.streams.clock <= now && s.faults >= old(s.faults)
    ensures Stepped(s.h, s.lib, old(s.W()), UpdateItem(t, key, updates, cond), now, s.W(), s.faults - old(s.faults))
  {
    hide StateOk, WorldOk, Allows, Denies, KeyOf, AllContinue, RecordOf, Changed, Onward, Effect, UpdateDone, ImagesIn, KeepsKeys, Fits, UpdatedIn;
    ghost var w := s.W();
    WorldDomains(s.h, w);
    var r;
    ghost var order;
    r, order := s.UpdateItem(t, key, updates, cond, now);
    OnlyGranted(s.h, s.lib, w, t, key, cond);
    if !r.Done? {
      if r.BadRequest? && Grants(s.h, s.lib, w, t, key, cond) {
        Rejected(s.h, s.lib, w, t, key, updates, order);
      }
      SimplyOnward(s.h, s.lib, w, UpdateItem(t, key, updates, cond), s.W(), s.faults - old(s.faults));
    } else {
      Accepted(s.h, s.lib, w, t, key, updates, order, s.W());
      UpdateOnward(s.h, s.lib, w, t, key, updates, cond, order, s.W(), s.faults - old(s.faults));
    }
    UpdateEffect(s.h, s.lib, w, t, key, updates, cond, now, s.W(), s.faults - old(s.faults));
  }

  lemma UpdateEffect(h: Hash, lib: Lib, w: World, t: string, key: Item, updates: Updates, cond: Option<Condition>, now: int, w': World, fails: nat)
    requires if fails == 0 && Grants(h, lib, w, t, key, cond) then UpdateDone(h, lib, w, t, key, updates, w') else w' == w
    ensures Effect(h, lib, w, UpdateItem(t, key, updates, cond), now, w', fails)
  {
    hide Grants, UpdateDone;
  }

  lemma Rejected(h: Hash, lib: Lib, w: World, t: string, key: Item, updates: Updates, order: seq<string>)
    requires t in w.metas && t in w.tables && KeyOf(h, w.metas[t].schema, key).Some?
    requires forall k :: k in order ==> k in updates
    requires Updated(lib, At(w.tables[t], KeyOf(h, w.metas[t].schema, key).value), key, updates, order).None?
    ensures UpdateDone(h, lib, w, t, key, updates, w)
  {
    hide ImagesIn, KeyOf;
    assert UpdatedIn(h, lib, w, t, key, updates, order).None?;
  }

  /** The update was applied in this order, and its outcome stored and reported. */
  ghost predicate AppliedIn(h: Hash, lib: Lib, w: World, t: string, key: Item, updates: Updates, order: seq<string>, w': World) {
    && t in w.metas && t in w.tables && KeyOf(h, w.metas[t].schema, key).Some? && IterationOf(order, updates)
    && var k := KeyOf(h, w.metas[t].schema, key).value;
       var im := Updated(lib, At(w.tables[t], k), key, updates, order);
       && im.Some?
       && Goes(h, w, t, Change(k, At(w.tables[t], k), Some(im.value.after), Shown(At(w.tables[t], k), im.value)), w')
  }

  lemma Accepted(h: Hash, lib: Lib, w: World, t: string, key: Item, updates: Updates, order: seq<string>, w': World)
    requires AppliedIn(h, lib, w, t, key, updates, order, w')
    ensures UpdateDone(h, lib, w, t, key, updates, w')
  {
    hide ImagesIn, KeyOf, Goes;
    assert UpdatedIn(h, lib, w, t, key, updates, order).Some?;
  }

  lemma UpdateOnward(h: Hash, lib: Lib, w: World, t: string, key: Item, updates: Updates, cond: Option<Condition>,
                     order: seq<string>, w': World, fails: nat)
    requires WorldOk(h, w) && AppliedIn(h, lib, w, t, key, updates, order, w')
    requires var item := At(w.tables[t], KeyOf(h, w.metas[t].schema, key).value);
             AllContinue(w, w', if Shown(item, Updated(lib, item, key, updates, order).value) != item then {t} else {})
    ensures Onward(h, lib, w, UpdateItem(t, key, updates, cond), w', fails)
  {
    hide Continued, Since, Fed, ImagesIn, KeyOf, KeepsKeys, WorldOk;
    UpdateAstray(h, lib, w, t, key, updates, order, w');
  }

  lemma UpdateAstray(h: Hash, lib: Lib, w: World, t: string, key: Item, updates: Updates, order: seq<string>, w': World)
    requires WorldOk(h, w) && AppliedIn(h, lib, w, t, key, updates, order, w')
    ensures w'.astray <= w.astray + {t}
    ensures t !in w.astray && KeepsKeys(w.metas[t].schema, updates) ==> t !in w'.astray
  {
    hide ImagesIn, KeyOf, KeepsKeys, WorldOk, RecordOf;
    if t !in w.astray && KeepsKeys(w.metas[t].schema, updates) {
      UpdateFits(h, w, lib, t, KeyOf(h, w.metas[t].schema, key).value, key, updates, order);
    }
  }

  method DoBatch(s: Storage, t: string, puts: seq<Item>, deletes: seq<Item>, now: int)
    requires s.Valid() && s.streams.clock <= now
    modifies s, s.streams
    ensures s.Valid() && s.streams.clock <= now && s.faults >= old(s.faults)
    ensures Stepped(s.h, s.lib, old(s.W()), BatchWrite(t, puts, deletes), now, s.W(), s.faults - old(s.faults))
  {
    hide StateOk, WorldOk, KeyOf, AllContinue, Batched, BatchChanges, NotedMany, Onward;
    ghost var w := s.W();
    WorldDomains(s.h, w);
    var r;
    ghost var p, d;
    r, p, d := s.BatchWriteItems(t, puts, deletes, now);
    assert puts[..|puts|] == puts && deletes[..|deletes|] == deletes;
    SimplyOnward(s.h, s.lib, w, BatchWrite(t, puts, deletes), s.W(), s.faults - old(s.faults));
  }

  method DoTransact(s: Storage, actions: seq<Action>, now: int)
    requires s.Valid() && s.streams.clock <= now
    modifies s, s.streams
    ensures s.Valid() && s.streams.clock <= now && s.faults >= old(s.faults)
    ensures Stepped(s.h, s.lib, old(s.W()), Transact(actions), now, s.W(), s.faults - old(s.faults))
  {
    hide StateOk, WorldOk, Allows, Denies, AllContinue, AllDone, AllPass, OneEach, Progress, NotedAll, StrayedAll, ItemAt, Rejects, Found, OnlyLost, Differing, Onward;
    ghost var w := s.W();
    WorldDomains(s.h, w);
    var r, lost;
    ghost var applied;
    r, applied, lost := s.TransactWriteItems(actions, now);
    if r.Success? {
      SuccessOnward(s.h, s.lib, w, actions, applied, s.W());
    } else {
      RefusedFor(s.h, s.lib, w, actions);
      FailureDone(s.h, s.lib, w, actions, s.W(), lost, s.faults - old(s.faults));
      FailureOnward(s.h, s.lib, w, actions, s.W(), s.faults - old(s.faults));
    }
  }

  lemma SuccessOnward(h: Hash, lib: Lib, w: World, actions: seq<Action>, applied: seq<Applied>, w': World)
    requires WorldOk(h, w) && AllContinue(w, w', {}) && Progress(h, lib, w.metas, actions, applied, w.tables)
    requires (forall x :: x in applied ==> x.ref.table in w.metas) && w'.astray == StrayedAll(h, w.metas, w.astray, applied)
    ensures Onward(h, lib, w, Transact(actions), w', 0)
  {
    hide Continued, Since, Fed, WorldOk, Progress, StrayedAll, Spares, Discreet;
    forall t | Streaming(w, t) && t !in w.astray && Spares(w, Transact(actions), t)
      ensures t !in w'.astray
    {
      TransactFits(h, lib, w, actions, applied, t);
    }
  }

  lemma RefusedFor(h: Hash, lib: Lib, w: World, actions: seq<Action>)
    ensures (exists a :: a in actions && !a.NoAct? && a.table !in w.metas) ==> !OneEach(h, w.metas, actions)
    ensures (exists a :: a in actions && !a.NoAct? && Unclear(lib, Found(h, w.metas, w.tables, a), a.cond)) ==>
              !AllPass(h, lib, w.metas, actions, w.tables)
  {
    hide Allows, Denies;
  }

  lemma FailureDone(h: Hash, lib: Lib, w: World, actions: seq<Action>, w': World, lost: set<Ref>, fails: nat)
    requires w' == w.(tables := w'.tables, astray := w.astray + Differing(w.tables, w'.tables))
    requires OnlyLost(h, lib, w.metas, actions, w.tables, w'.tables, lost) && (lost == {} ==> w'.tables == w.tables)
    requires |lost| <= fails && (fails == 0 ==> Refusable(h, lib, w, actions))
    requires |lost| < fails || fails == 0 || SomeRejected(h, lib, w, actions)
    ensures TransactDone(h, lib, w, actions, w', fails) && (fails == 0 ==> w' == w)
  {
    hide OnlyLost, AllDone, Refusable, SomeRejected;
    NoDifference(w.tables, w.astray);
    assert fails == 0 ==> lost == {};
  }

  lemma FailureOnward(h: Hash, lib: Lib, w: World, actions: seq<Action>, w': World, fails: nat)
    requires AllContinue(w, w', {}) && w'.astray == w.astray + Differing(w.tables, w'.tables)
    requires fails == 0 ==> w'.astray == w.astray
    ensures Onward(h, lib, w, Transact(actions), w', fails)
  {
    hide Continued, Since, Fed, Spares, Discreet;
  }

  method DoCreate(s: Storage, t: string, meta: Meta, now: int)
    requires s.Valid() && s.streams.clock <= now
    modifies s, s.streams
    ensures s.Valid() && s.streams.clock <= now && s.faults >= old(s.faults)
    ensures Stepped(s.h, s.lib, old(s.W()), CreateTable(t, meta), now, s.W(), s.faults - old(s.faults))
  {
    hide StateOk, WorldOk, OthersSame, Onward, SameTable, Newer;
    ghost var w := s.W();
    WorldDomains(s.h, w);
    OthersSelf(w, t);
    var _ := s.CreateTable(t, meta, now);
    OthersOnward(s.h, s.lib, w, CreateTable(t, meta), s.W(), s.faults - old(s.faults), t);
  }

  method DoChange(s: Storage, t: string, stream: Option<View>, now: int)
    requires s.Valid() && s.streams.clock <= now
    modifies s, s.streams
    ensures s.Valid() && s.streams.clock <= now && s.faults >= old(s.faults)
    ensures Stepped(s.h, s.lib, old(s.W()), UpdateTable(t, stream), now, s.W(), s.faults - old(s.faults))
  {
    hide StateOk, WorldOk, OthersSame, Onward, SameTable, Newer;
    ghost var w := s.W();
    WorldDomains(s.h, w);
    OthersSelf(w, t);
    var _ := s.UpdateTable(t, stream, now);
    OthersOnward(s.h, s.lib, w, UpdateTable(t, stream), s.W(), s.faults - old(s.faults), t);
  }

  method DoDrop(s: Storage, t: string, now: int)
    requires s.Valid() && s.streams.clock <= now
    modifies s, s.streams
    ensures s.Valid() && s.streams.clock <= now && s.faults >= old(s.faults)
    ensures Stepped(s.h, s.lib, old(s.W()), DeleteTable(t), now, s.W(), s.faults - old(s.faults))
  {
    hide StateOk, WorldOk, OthersSame, Onward, SameTable, Newer;
    ghost var w := s.W();
    WorldDomains(s.h, w);
    OthersSelf(w, t);
    var r := s.DeleteTable(t);
    if r.IOError? {
      PartlyDeleted(w, s.W(), t);
    }
    OthersOnward(s.h, s.lib, w, DeleteTable(t), s.W(), s.faults - old(s.faults), t);
  }

  lemma PartlyDeleted(w: World, w': World, t: string)
    requires PartDeleted(w, t, w')
    ensures OthersSame(w, w', t)
  {
    RestSame(w.tables, w'.tables, t);
  }

  lemma OthersSelf(w: World, t: string)
    ensures OthersSame(w, w, t)
  {
  }

  method DoTrim(s: Storage, t: string, now: int)
    requires s.Valid() && s.streams.clock <= now
    modifies s, s.streams
    ensures s.Valid() && s.streams.clock <= now && s.faults >= old(s.faults)
    ensures Stepped(s.h, s.lib, old(s.W()), TrimStream(t), now, s.W(), s.faults - old(s.faults))
  {
    hide StateOk, WorldOk, Onward, Newer;
    ghost var w := s.W();
    WorldDomains(s.h, w);
    var _ := s.Trim(t, now);
    ReshownOnward(s.h, s.lib, w, TrimStream(t), s.W(), s.faults - old(s.faults));
  }

  method DoRestart(s: Storage, now: int)
    requires s.Valid() && s.streams.clock <= now
    modifies s, s.streams
    ensures s.Valid() && s.streams.clock <= now && s.faults >= old(s.faults)
    ensures Stepped(s.h, s.lib, old(s.W()), Restart, now, s.W(), s.faults - old(s.faults))
  {
    hide StateOk, WorldOk, Onward, Effect, IsRestart, ReadBack, Newer;
    ghost var w := s.W();
    WorldDomains(s.h, w);
    ghost var unread := s.Restart(now);
    RestartParts(old(s.streams.St()), s.streams.St(), now, unread);
    RestartEffect(s.h, s.lib, w, now, s.W(), unread);
    ReshownOnward(s.h, s.lib, w, Restart, s.W(), s.faults - old(s.faults));
  }

  lemma RestartEffect(h: Hash, lib: Lib, w: World, now: int, w': World, unread: set<string>)
    requires ReadAgain(w, w', now, unread)
    ensures Effect(h, lib, w, Restart, now, w', |unread|)
  {
    hide ReadAgain;
  }

  /** Every request, whatever fails, leaves a valid store, has its effect, and lets the
      streams go on. */
  method Do(s: Storage, step: Step, now: int)
    requires s.Valid() && s.streams.clock <= now
    modifies s, s.streams
    ensures s.Valid() && s.streams.clock <= now && s.faults >= old(s.faults) && Seen(s.W())
    ensures Stepped(s.h, s.lib, old(s.W()), step, now, s.W(), s.faults - old(s.faults))
  {
    hide StateOk, WorldOk, Stepped, Seen;
    match step {
      case PutItem(t, item, cond) => DoPut(s, t, item, cond, now);
      case DeleteItem(t, key, cond) => DoDelete(s, t, key, cond, now);
      case UpdateItem(t, key, updates, cond) => DoUpdate(s, t, key, updates, cond, now);
      case BatchWrite(t, puts, deletes) => DoBatch(s, t, puts, deletes, now);
      case Transact(actions) => DoTransact(s, actions, now);
      case CreateTable(t, meta) => DoCreate(s, t, meta, now);
      case UpdateTable(t, stream) => DoChange(s, t, stream, now);
      case DeleteTable(t) => DoDrop(s, t, now);
      case TrimStream(t) => DoTrim(s, t, now);
      case Restart => DoRestart(s, now);
    }
    SeenNow(s.streams.St(), s.W());
  }

  // ---- runs

  /** The worlds a run goes through, one more than its requests, the times of these, and
      how many operations failed in each. */
  ghost predicate IsRun(h: Hash, lib: Lib, steps: seq<Step>, times: seq<int>, trail: seq<World>, fails: seq<nat>) {
    && |times| == |fails| == |steps| && |trail| == |steps| + 1
    && WorldOk(h, trail[0]) && (forall i :: 0 <= i <= |steps| ==> Seen(trail[i]))
    && forall i :: 0 <= i < |steps| ==> Stepped(h, lib, trail[i], steps[i], times[i], trail[i + 1], fails[i])
  }

  predicate Timed(times: seq<int>, from: int) {
    && (times != [] ==> from <= times[0])
    && forall i, j :: 0 <= i < j < |times| ==> times[i] <= times[j]
  }

  /** Any requests at any times that do not go back make a run from the present store. */
  method Run(s: Storage, steps: seq<Step>, times: seq<int>) returns (ghost trail: seq<World>, ghost fails: seq<nat>)
    requires s.Valid() && |times| == |steps| && Timed(times, s.streams.clock)
    modifies s, s.streams
    ensures s.Valid() && IsRun(s.h, s.lib, steps, times, trail, fails)
    ensures trail[0] == old(s.W()) && trail[|steps|] == s.W()
    ensures s.faults == old(s.faults) ==> forall i :: 0 <= i < |steps| ==> fails[i] == 0
  {
    hide StateOk, WorldOk, Stepped, Seen;
    SeenNow(s.streams.St(), s.W());
    trail, fails := [s.W()], [];
    for i := 0 to |steps|
      invariant s.Valid() && (i < |steps| ==> s.streams.clock <= times[i]) && s.faults >= old(s.faults)
      invariant IsRun(s.h, s.lib, steps[..i], times[..i], trail, fails) && trail[0] == old(s.W()) && trail[i] == s.W()
      invariant s.faults == old(s.faults) ==> forall j :: 0 <= j < i ==> fails[j] == 0
    {
      ghost var before := s.faults;
      Do(s, steps[i], times[i]);
      RunMore(s.h, s.lib, steps, times, i, trail, fails, s.W(), s.faults - before);
      trail := trail + [s.W()];
      fails := fails + [s.faults - before];
    }
    assert steps[..|steps|] == steps && times[..|steps|] == times;
  }

  lemma RunMore(h: Hash, lib: Lib, steps: seq<Step>, times: seq<int>, i: nat, trail: seq<World>, fails: seq<nat>, w: World, failed: nat)
    requires i < |steps| == |times| && IsRun(h, lib, steps[..i], times[..i], trail, fails)
    requires Stepped(h, lib, trail[i], steps[i], times[i], w, failed) && Seen(w)
    ensures IsRun(h, lib, steps[..i + 1], times[..i + 1], trail + [w], fails + [failed])
  {
    hide WorldOk, Stepped, Seen;
  }

  /** From world i on nothing unaccountable happens to table t: no request on the table
      itself, no write of a key attribute, no transaction that fails and leaves the table
      other than it was. */
  ghost predicate Sheltered(steps: seq<Step>, trail: seq<World>, fails: seq<nat>, t: string, i: nat, n: nat)
    requires i <= n <= |steps| == |fails| && |trail| == |steps| + 1
  {
    forall j :: i <= j < n ==>
      && t in trail[j].metas && Spares(trail[j], steps[j], t)
      && (steps[j].Transact? ==> fails[j] == 0 || Unharmed(trail[j], trail[j + 1], t))
  }

  /** Nothing is taken from the buffer of t. */
  predicate Untrimmed(steps: seq<Step>, t: string, i: nat, n: nat)
    requires i <= n <= |steps|
  {
    forall j :: i <= j < n ==> !Reshows(steps[j], t)
  }

  lemma {:induction false} RunContinues(h: Hash, lib: Lib, steps: seq<Step>, times: seq<int>, trail: seq<World>, fails: seq<nat>,
                                        t: string, i: nat, n: nat)
    requires IsRun(h, lib, steps, times, trail, fails) && i <= n <= |steps|
    requires Streaming(trail[i], t) && Sheltered(steps, trail, fails, t, i, n)
    ensures WorldOk(h, trail[i]) && WorldOk(h, trail[n]) && Continued(trail[i], trail[n], t)
    ensures t !in trail[i].astray ==> t !in trail[n].astray
    ensures (forall j :: i <= j < n ==> Discreet(h, lib, trail[j], steps[j], t)) ==> AllExact(Since(trail[i], trail[n], t))
    ensures Untrimmed(steps, t, i, n) ==> Fed(trail[i], trail[n], t)
    decreases n - i
  {
    hide WorldOk, Effect, Discreet, Spares, Continued, Since, Seen, Fed, NewRecords, Reshows, Unharmed;
    GoodTrail(h, lib, steps, times, trail, fails, i);
    GoodTrail(h, lib, steps, times, trail, fails, n);
    if i == n {
      SelfContinues(h, trail[i], t);
    } else {
      RunContinues(h, lib, steps, times, trail, fails, t, i, n - 1);
      var w, mid, w' := trail[i], trail[n - 1], trail[n];
      ContinuedStreams(w, mid, t);
      assert Stepped(h, lib, mid, steps[n - 1], times[n - 1], w', fails[n - 1]);
      SparesLeaves(mid, steps[n - 1], t);
      ContinueTrans(w, mid, w', t);
    }
  }

  lemma GoodTrail(h: Hash, lib: Lib, steps: seq<Step>, times: seq<int>, trail: seq<World>, fails: seq<nat>, i: nat)
    requires IsRun(h, lib, steps, times, trail, fails) && i <= |steps|
    ensures WorldOk(h, trail[i])
  {
    hide WorldOk, Effect, Onward, Seen;
    if i > 0 {
      assert Stepped(h, lib, trail[i - 1], steps[i - 1], times[i - 1], trail[i], fails[i - 1]);
    }
  }

  lemma SelfContinues(h: Hash, w: World, t: string)
    requires WorldOk(h, w) && Streaming(w, t)
    ensures Continued(w, w, t) && Since(w, w, t) == [] && Fed(w, w, t)
  {
    hide WorldOk;
    WorldTracked(h, w, t);
  }

  lemma SparesLeaves(w: World, step: Step, t: string)
    requires t in w.metas && Spares(w, step, t)
    ensures !OnTable(step, t)
  {
  }

  /** In every run, from any point on: replaying the records a stream with new images was
      given since over the table's contents of then gives its contents now, and INSERT,
      MODIFY, REMOVE and the images are true at their point of the replay. Old images are
      the images before as long as every update hands those on. */
  lemma RunReplays(h: Hash, lib: Lib, steps: seq<Step>, times: seq<int>, trail: seq<World>, fails: seq<nat>, t: string, i: nat, n: nat)
    requires IsRun(h, lib, steps, times, trail, fails) && i <= n <= |steps|
    requires Streaming(trail[i], t) && t !in trail[i].astray && CarriesNew(trail[i].metas[t].stream.value)
    requires Sheltered(steps, trail, fails, t, i, n)
    ensures Continued(trail[i], trail[n], t) && t in trail[i].tables && t in trail[n].tables
    ensures Follows(h, trail[i], trail[n], t)
    ensures (forall j :: i <= j < n ==> Discreet(h, lib, trail[j], steps[j], t)) ==>
              forall m :: 0 <= m < |NewRecords(trail[i], trail[n], t)| ==>
                OldImageTrue(ReaderKey(h, trail[i].metas[t].schema), NewRecords(trail[i], trail[n], t), trail[i].tables[t], m)
  {
    hide WorldOk, Stepped, Sheltered, Discreet, Continued, Follows, AllExact, Since, NewRecords, OldImageTrue, Seen, Fed, Untrimmed;
    RunContinues(h, lib, steps, times, trail, fails, t, i, n);
    ReplaySince(h, trail[i], trail[n], t);
  }

  // ---- where the promise ends

  /** SET p = y on an item with key p = x: the item stays under its old key, but the record
      names it by the new one, and replaying it leaves an item that is not there. */
  lemma KeyWriteBreaksReplay(h: Hash, lib: Lib)
    requires forall x, y :: h(x) == h(y) ==> x == y
    ensures var schema := Schema("p", None);
            var item: Item, after: Item := map["p" := S("x")], map["p" := S("y")];
            var updates: Updates := map["p" := Set(Plain(S("y")))];
            var k := h([("p", S("x"))]);
            var c := Change(k, Some(item), Some(after), Some(item));
            var r := RecordFor(EventOf(c), NewOnly, ExtractKeys(schema, KeySource(c)), c.shown, c.after, 1, 0);
            && KeyOf(h, schema, item) == Some(k) && IterationOf(["p"], updates)
            && Updated(lib, Some(item), item, updates, ["p"]) == Some(Images(after, item, {}))
            && Replay(ReaderKey(h, schema), [r], map[k := item]) != Put(map[k := item], k, Some(after))
  {
    var schema := Schema("p", None);
    var item: Item, after: Item := map["p" := S("x")], map["p" := S("y")];
    var updates: Updates := map["p" := Set(Plain(S("y")))];
    var order := ["p"];
    assert order[..0] == [];
    assert item.Keys == {"p"} && item.Keys - {"p"} == {};
    assert ImagesIn(lib, item, updates, order[..0]) == Some(Images(item, item, {"p"}));
    assert EffectOf(lib, item, "p", updates["p"]) == NewValue(S("y"));
    assert item["p" := S("y")] == after;
    assert ImagesIn(lib, item, updates, order) == Some(Images(after, item, {}));
    var k, k' := h([("p", S("x"))]), h([("p", S("y"))]);
    assert [("p", S("x"))][0] != [("p", S("y"))][0];
    assert k != k';
    var c := Change(k, Some(item), Some(after), Some(item));
    var keys := ExtractKeys(schema, KeySource(c));
    assert keys == after && ReaderKey(h, schema)(keys) == k';
    var r := RecordFor(EventOf(c), NewOnly, keys, c.shown, c.after, 1, 0);
    var table: Table := map[k := item];
    assert [r][..0] == [];
    assert Replay(ReaderKey(h, schema), [r], table) == table[k' := after];
    assert k' in Replay(ReaderKey(h, schema), [r], table) && k' !in Put(table, k, Some(after));
  }

  /** A table with one item whose removal was the last thing DeleteTable got to do: its
      stream says nothing of it. */
  lemma PartDeleteBreaksReplay(h: Hash)
    ensures var item: Item := map["p" := S("x")];
            var k := h([("p", S("x"))]);
            var w := World(map["t" := Meta(Schema("p", None), Some(NewOnly))], map["t" := map[k := item]],
                           map["t" := Book(map[k := item], 0, [])], map["t" := []], map["t" := []], {}, {}, {});
            var w' := w.(tables := map["t" := map[]], astray := {"t"});
            && WorldOk(h, w) && WorldOk(h, w') && PartDeleted(w, "t", w')
            && Continued(w, w', "t") && NewRecords(w, w', "t") == []
            && Replay(ReaderKey(h, w.metas["t"].schema), NewRecords(w, w', "t"), w.tables["t"]) != w'.tables["t"]
  {
    var item: Item := map["p" := S("x")];
    var k := h([("p", S("x"))]);
    var full: Table, none: Table := map[k := item], map[];
    var w := World(map["t" := Meta(Schema("p", None), Some(NewOnly))], map["t" := full],
                   map["t" := Book(full, 0, [])], map["t" := []], map["t" := []], {}, {}, {});
    var w' := w.(tables := map["t" := none], astray := {"t"});
    ExplainsNothing(full);
    assert Own(w, "t") == [];
    AllKept(h, w);
    AllKept(h, w');
    assert w.tables - {"t"} == w'.tables - {"t"};
    assert k in full && k !in none;
  }
}
